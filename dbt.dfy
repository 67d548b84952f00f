/**
 * What the translator writes out: a dbt model is SQL text with table names
 * turned into Jinja tags, plus a YAML document; a run produces a list of them.
 *
 * The settings read from the command line and the foreign renderers the
 * translator calls (SQLAlchemy compilation, `json.dumps`, `textwrap.dedent`,
 * the order CPython iterates a set in, `uuid4`) are gathered in `Env` and
 * passed down as parameters.
 */
module Dbt {
  import opened Outcome
  import opened PyText
  import opened Flow
  import opened SqlAst
  import opened Columns

  /** The settings and foreign renderers of one run. */
  datatype Env = Env(
    compile: Query -> string,                          // SQLAlchemy compilation to the target dialect
    sourceName: string,                                // the `source_name` option
    tags: string,                                      // the `tags` option, comma-separated
    prefix: string,                                    // the `prefix` option, "" for none
    dumpJson: (Step, bool) -> string,                  // json.dumps(raw step, indent=4, ensure_ascii=…)
    dedent: string -> string,                          // textwrap.dedent
    order: set<ModelColumn> -> seq<ModelColumn>,       // the order iterating a set of columns visits them in
    renderCast: (string, string) -> string,            // str(cast(Column(field), type))
    renderAggregate: (string, string) -> string,       // str(<SQL function>(Column(column))) for a function name
    freshName: string)                                 // str(uuid4())

  /** A sequence that visits every element of `s` exactly once. */
  ghost predicate Enumerates(xs: seq<ModelColumn>, s: set<ModelColumn>)
  {
    && |xs| == |s|
    && (forall x :: x in xs <==> x in s)
  }

  // ---------------------------------------------------------------------
  // SQL

  /** `Sql`: the statement tree, its compiled text, and the text with Jinja tags. */
  datatype Sql = Sql(statements: Query, compiledSql: string, dbtSql: string)

  /** `create_model_reference_model_sql_by_statements`: compile, then turn each table name into a `ref` tag. */
  function ModelReferenceSql(env: Env, q: Query, tables: seq<string>): (r: Sql)
    ensures r.statements == q && r.compiledSql == env.compile(q)
    ensures r.dbtSql == Retagged(r.compiledSql, tables, "model", "")
  {
    var text := env.compile(q);
    Sql(q, text, Retagged(text, tables, "model", ""))
  }

  /** `create_source_refference_model_by_statements`: compile, then turn each table name into a `source` tag of the configured source. */
  function SourceReferenceSql(env: Env, q: Query, tables: seq<string>): (r: Sql)
    ensures r.statements == q && r.compiledSql == env.compile(q)
    ensures r.dbtSql == Retagged(r.compiledSql, tables, "source", env.sourceName)
  {
    var text := env.compile(q);
    Sql(q, text, Retagged(text, tables, "source", env.sourceName))
  }

  /** Table names the compiled text does not mention leave it as it is, for either tag. */
  lemma ReferenceSqlUntouched(env: Env, q: Query, tables: seq<string>)
    requires forall k :: 0 <= k < |tables| ==> !Contains(env.compile(q), tables[k])
    ensures ModelReferenceSql(env, q, tables).dbtSql == env.compile(q)
    ensures SourceReferenceSql(env, q, tables).dbtSql == env.compile(q)
  {
    RetaggedAbsent(env.compile(q), tables, "model", "");
    RetaggedAbsent(env.compile(q), tables, "source", env.sourceName);
  }

  /** A single table the compiled text mentions is referred to through its tag. */
  lemma ReferenceSqlTags(env: Env, q: Query, table: string)
    requires table != [] && Contains(env.compile(q), table)
    ensures Contains(ModelReferenceSql(env, q, [table]).dbtSql, RefTag(table))
    ensures Contains(SourceReferenceSql(env, q, [table]).dbtSql, SourceTag(env.sourceName, table))
  {
    RetaggedSingle(env.compile(q), table, "model", "");
    RetaggedSingle(env.compile(q), table, "source", env.sourceName);
  }

  // ---------------------------------------------------------------------
  // YAML documents

  /** A YAML tree as the translator builds it: plain strings, literal block strings, integers, mappings, lists. */
  datatype Yaml =
    | YStr(text: string)
    | YLiteral(block: string)          // LiteralScalarString: dumped as a `|-` block
    | YInt(number: int)
    | YMap(entries: seq<(string, Yaml)>)
    | YList(items: seq<Yaml>)

  /** The line separator of the platform (POSIX). */
  const LineSep: char := '\n'

  /** `__to_literal_scalar_string`: a plain string spanning lines becomes a dedented literal block; anything else stays. */
  function ToLiteral(env: Env, y: Yaml): (r: Yaml)
    ensures y.YStr? && LineSep in y.text ==> r == YLiteral(env.dedent(y.text))
    ensures !(y.YStr? && LineSep in y.text) ==> r == y
  {
    if y.YStr? && LineSep in y.text then YLiteral(env.dedent(y.text)) else y
  }

  /** `__apply_recursive(__to_literal_scalar_string, raw)`: through mappings and lists down to every leaf. */
  function Normalise(env: Env, y: Yaml): Yaml
    decreases y
  {
    match y
    case YMap(entries) =>
      YMap(seq(|entries|, i requires 0 <= i < |entries| => (entries[i].0, Normalise(env, entries[i].1))))
    case YList(items) =>
      YList(seq(|items|, i requires 0 <= i < |items| => Normalise(env, items[i])))
    case _ => ToLiteral(env, y)
  }

  /**
   * `r` has the mappings and lists of `y`, with the same keys in the same
   * order, and every leaf of `y` in its place, changed only if it is a plain
   * string spanning lines, and then into its dedented literal block.
   */
  ghost predicate SameShape(env: Env, y: Yaml, r: Yaml)
    decreases y
  {
    match y
    case YMap(entries) =>
      && r.YMap? && |r.entries| == |entries|
      && forall i :: 0 <= i < |entries| ==> r.entries[i].0 == entries[i].0 && SameShape(env, entries[i].1, r.entries[i].1)
    case YList(items) =>
      && r.YList? && |r.items| == |items|
      && forall i :: 0 <= i < |items| ==> SameShape(env, items[i], r.items[i])
    case YStr(text) =>
      r == if LineSep in text then YLiteral(env.dedent(text)) else y
    case _ => r == y
  }

  /** Normalising keeps the shape and changes only the plain strings that span lines. */
  lemma {:induction false} NormaliseShape(env: Env, y: Yaml)
    ensures SameShape(env, y, Normalise(env, y))
    decreases y
  {
    match y
    case YMap(entries) =>
      forall i | 0 <= i < |entries| ensures SameShape(env, entries[i].1, Normalise(env, y).entries[i].1) {
        NormaliseShape(env, entries[i].1);
      }
    case YList(items) =>
      forall i | 0 <= i < |items| ensures SameShape(env, items[i], Normalise(env, y).items[i]) {
        NormaliseShape(env, items[i]);
      }
    case _ =>
  }

  /** A literal block is not a plain string, so normalising an already normalised tree changes nothing. */
  lemma {:induction false} NormaliseIdempotent(env: Env, y: Yaml)
    ensures Normalise(env, Normalise(env, y)) == Normalise(env, y)
    decreases y
  {
    match y
    case YMap(entries) =>
      forall i | 0 <= i < |entries| ensures Normalise(env, Normalise(env, entries[i].1)) == Normalise(env, entries[i].1) {
        NormaliseIdempotent(env, entries[i].1);
      }
    case YList(items) =>
      forall i | 0 <= i < |items| ensures Normalise(env, Normalise(env, items[i])) == Normalise(env, items[i]) {
        NormaliseIdempotent(env, items[i]);
      }
    case _ =>
  }

  /** `Yml`: a document whose string leaves have been normalised on construction. */
  datatype Yml = Yml(raw: Yaml)

  /** `Yml(raw)`, running `__post_init__`. */
  function NewYml(env: Env, raw: Yaml): (r: Yml)
    ensures SameShape(env, raw, r.raw)
    ensures Normalise(env, r.raw) == r.raw
  {
    NormaliseShape(env, raw);
    NormaliseIdempotent(env, raw);
    Yml(Normalise(env, raw))
  }

  // ---------------------------------------------------------------------
  // Models

  /** `DbtModel`: SQL (none for a source), its YAML, its name, and `model` or `source`. */
  datatype DbtModel = DbtModel(sql: Option<Sql>, yml: Yml, modelName: string, resourceType: string)

  /** `DbtModels`: the records of a run, in order. */
  datatype DbtModels = DbtModels(models: seq<DbtModel>)

  /** `DbtModels.add`: a new collection with `m` at the end; the receiver is untouched. */
  function AddModel(ms: DbtModels, m: DbtModel): (r: DbtModels)
    ensures |r.models| == |ms.models| + 1
    ensures r.models[..|ms.models|] == ms.models && r.models[|ms.models|] == m
  {
    DbtModels(ms.models + [m])
  }

  /** `DbtModels.merge`: a new collection, the receiver's records and then `other`'s. */
  function MergeModels(ms: DbtModels, other: DbtModels): (r: DbtModels)
    ensures |r.models| == |ms.models| + |other.models|
    ensures r.models[..|ms.models|] == ms.models && r.models[|ms.models|..] == other.models
  {
    DbtModels(ms.models + other.models)
  }

  /** Adding one record is merging a collection of that one record. */
  lemma AddIsMerge(ms: DbtModels, m: DbtModel)
    ensures AddModel(ms, m) == MergeModels(ms, DbtModels([m]))
  {
  }

  /** Merging is associative and the empty collection is its identity on both sides. */
  lemma MergeMonoid(a: DbtModels, b: DbtModels, c: DbtModels)
    ensures MergeModels(MergeModels(a, b), c) == MergeModels(a, MergeModels(b, c))
    ensures MergeModels(DbtModels([]), a) == a && MergeModels(a, DbtModels([])) == a
  {
    assert (a.models + b.models) + c.models == a.models + (b.models + c.models);
    assert [] + a.models == a.models && a.models + [] == a.models;
  }
}
