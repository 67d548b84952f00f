/**
 * SQL statements as the converters build them with SQLAlchemy, kept as a
 * syntax tree, and the one text pass the translator applies to compiled SQL:
 * turning table names into dbt Jinja tags.
 *
 * Compiling a tree to text is SQLAlchemy's job; the model takes it as a
 * parameter `compile: Query -> string` wherever text is needed.
 */
module SqlAst {
  import opened Outcome
  import opened PyText

  /** One `WHEN column = value THEN result` arm of a CASE expression. */
  datatype When = When(value: string, result: string)

  /** An expression of a SELECT list. */
  datatype Item =
    | Col(name: string, quoted: bool)                    // Column(name, quote=…); `Col("*", false)` is the star
    | Labelled(expr: Item, asName: string)               // expr.label(asName)
    | Cast(column: string, toType: string)               // cast(Column(column), toType)
    | Case(column: string, whens: seq<When>, asName: string)  // CASE WHEN … ELSE column END, labelled asName

  /** A SELECT list. */
  datatype Projection =
    | Star                        // `*`, used when the columns are not known
    | Every                       // select(table): every column of the table it selects from
    | Cols(items: set<Item>)      // one item per column of a column set, in no fixed order
    | Ordered(list: seq<Item>)    // an explicit list, in that order

  /** A WHERE / ON term; a sequence of terms is their conjunction. */
  datatype Cond =
    | Compare(left: string, op: string, right: string)   // Column(left) op Column(right)
    | IsNull(column: string)                              // Column(column) IS NULL
    | Text(raw: string)                                   // text(raw)

  datatype Query =
    | Table(name: string, columns: Projection)
    | Alias(source: Query, alias: string)
    | Cte(name: string, body: Query)
    /** `select(columns + extra).comment(comment).select_from(from).where(where).group_by(groupBy)`; an empty comment is none. */
    | Select(columns: Projection, extra: seq<Item>, comment: string, from: Query, where: seq<Cond>, groupBy: seq<Item>)
    /** `select(columns).select_from(driver).join(other, on, isouter, full).where(where)` */
    | Join(columns: Projection, driver: Query, other: Query, on: seq<Cond>, isOuter: bool, full: bool, where: seq<Cond>)
    | UnionAll(parts: seq<Query>)

  /** `select(from).comment(comment).select_from(from)` with nothing else. */
  function SelectFrom(columns: Projection, comment: string, from: Query): Query
  {
    Select(columns, [], comment, from, [], [])
  }

  // ---------------------------------------------------------------------
  // Jinja tags

  function RefTag(table: string): string
  {
    "{{ ref('" + table + "') }}"
  }

  function SourceTag(sourceName: string, table: string): string
  {
    "{{ source('" + sourceName + "', '" + table + "') }}"
  }

  /** What `table` becomes under a tag type; `None` for a tag type that rewrites nothing. */
  function TagFor(tagType: string, sourceName: string, table: string): (r: Option<string>)
    ensures r.Some? <==> tagType == "model" || tagType == "source"
  {
    if tagType == "model" then Some(RefTag(table))
    else if tagType == "source" then Some(SourceTag(sourceName, table))
    else None
  }

  /** The text after rewriting `tables` one after another, each over the text the previous ones left. */
  function Retagged(sql: string, tables: seq<string>, tagType: string, sourceName: string): string
    decreases |tables|
  {
    if tables == [] then sql
    else
      var next := match TagFor(tagType, sourceName, tables[0])
        case Some(tag) => Replace(sql, tables[0], tag)
        case None => sql;
      Retagged(next, tables[1..], tagType, sourceName)
  }

  /** `replace_table_name_to_jinja_tags`: the loop over the table names, reassigning the text. */
  method ReplaceTableNames(rawSql: string, tables: seq<string>, tagType: string, sourceName: string)
    returns (sql: string)
    ensures sql == Retagged(rawSql, tables, tagType, sourceName)
  {
    sql := rawSql;
    for i := 0 to |tables|
      invariant Retagged(rawSql, tables, tagType, sourceName) == Retagged(sql, tables[i..], tagType, sourceName)
    {
      assert tables[i..][1..] == tables[i + 1..];
      if tagType == "model" {
        sql := Replace(sql, tables[i], RefTag(tables[i]));
      }
      if tagType == "source" {
        sql := Replace(sql, tables[i], SourceTag(sourceName, tables[i]));
      }
    }
    assert tables[|tables|..] == [];
  }

  /** A tag type other than `model` and `source` leaves the text as it is. */
  lemma {:induction false} RetaggedOtherType(sql: string, tables: seq<string>, tagType: string, sourceName: string)
    requires tagType != "model" && tagType != "source"
    ensures Retagged(sql, tables, tagType, sourceName) == sql
    decreases |tables|
  {
    if tables != [] {
      RetaggedOtherType(sql, tables[1..], tagType, sourceName);
    }
  }

  /** Names that occur nowhere in the text leave it unchanged. */
  lemma {:induction false} RetaggedAbsent(sql: string, tables: seq<string>, tagType: string, sourceName: string)
    requires forall k :: 0 <= k < |tables| ==> !Contains(sql, tables[k])
    ensures Retagged(sql, tables, tagType, sourceName) == sql
    decreases |tables|
  {
    if tables != [] {
      assert OccursAt(sql, "", 0);
      if TagFor(tagType, sourceName, tables[0]).Some? {
        ReplaceAbsent(sql, tables[0], TagFor(tagType, sourceName, tables[0]).value);
      }
      RetaggedAbsent(sql, tables[1..], tagType, sourceName);
    }
  }

  /** A single table name that occurs is turned into its tag. */
  lemma RetaggedSingle(sql: string, table: string, tagType: string, sourceName: string)
    requires table != [] && Contains(sql, table)
    requires tagType == "model" || tagType == "source"
    ensures Contains(Retagged(sql, [table], tagType, sourceName), TagFor(tagType, sourceName, table).value)
  {
    var tag := TagFor(tagType, sourceName, table).value;
    ReplaceIntroduces(sql, table, tag);
    assert Retagged(sql, [table], tagType, sourceName) == Retagged(Replace(sql, table, tag), [], tagType, sourceName);
  }
}
