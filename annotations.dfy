/**
 * The annotation converters: the column operations Tableau Prep records on a
 * step (add, duplicate, rename, remove, keep only, change type, filter,
 * remap, quick calc). Each converter checks the keys it needs (`validate`),
 * computes the columns after the operation (`calculate_columns`) and wraps the
 * statement it is given in one more CTE (`generate_statements`). An
 * annotation that fails its check falls back to "unknown": no columns, and a
 * CTE that passes the columns through with a comment.
 */
module Annotations {
  import opened Outcome
  import opened PyText
  import opened Flow
  import opened SqlAst
  import opened Columns
  import opened Registry
  import opened Dbt

  function ElementsOf(s: seq<string>): set<string>
  {
    set x | x in s
  }

  /** `validate`: the keys each converter reads; `false` is an UnknownNodeException. The unknown converter accepts everything. */
  predicate Recognised(kind: AnnotationKind, a: Annotation)
  {
    match kind
    case AddColumn | QuickCalcColumn | DuplicateColumn => a.columnName.Some? && a.expression.Some?
    case RenameColumn => a.columnName.Some? && a.rename.Some?
    case RemoveColumns | KeepOnlyColumns => a.columnNames.Some?
    case ChangeColumnType => a.fields.Some?
    case FilterOperation => a.filterExpression.Some?
    case Remap => a.columnName.Some? && a.values.Some?
    case UnknownAnnotation => true
  }

  // ---------------------------------------------------------------------
  // Column rules

  /** The characters DuplicateColumn strips from its `[column]` expression. */
  const Brackets: set<char> := {'[', ']'}

  /** RenameColumn: add the column under its new name, computed from the old one, then drop the old name. */
  function Renamed(mc: ModelColumns, from: string, to: string): (r: ModelColumns)
    ensures !mc.IsApplicable() ==> r == mc
    ensures mc.IsApplicable() && from != to ==>
      && r.IsApplicable()
      && Names(r) == Names(mc) - {from} + {to}
      && ModelColumn(to, "string", from) in r.cols
      && (forall c :: c in mc.cols && c.name != from && c.name != to ==> c in r.cols)
    ensures mc.IsApplicable() && from == to ==> from !in Names(r)
  {
    RemoveColumnByName(Add(mc, ModelColumn(to, "string", from)), from)
  }

  /**
   * A computed set without every column whose name is in `names`: unknown once
   * nothing is left, the set itself when it holds none of those names.
   */
  function Dropped(mc: ModelColumns, names: set<string>): (r: ModelColumns)
    ensures !mc.IsApplicable() ==> r == mc
    ensures mc.IsApplicable() ==> r.Value() == WithoutNames(mc.cols, names)
    ensures mc.IsApplicable() && WellFormed(mc) ==> (r.IsApplicable() <==> WithoutNames(mc.cols, names) != {})
    ensures WellFormed(mc) ==> WellFormed(r)
  {
    if mc.IsApplicable() && Names(mc) * names != {} then
      Calculated(WithoutNames(mc.cols, names))
    else
      DroppedNothing(mc, names);
      mc
  }

  lemma DroppedNothing(mc: ModelColumns, names: set<string>)
    requires !(mc.IsApplicable() && Names(mc) * names != {})
    ensures mc.IsApplicable() ==> WithoutNames(mc.cols, names) == mc.cols
  {
    if mc.IsApplicable() {
      forall c | c in mc.cols ensures c.name !in names {
        assert c in mc.Value();
        assert c.name in Names(mc);
        assert c.name in names ==> c.name in Names(mc) * names;
      }
    }
  }

  /** Removing one more name from a set already without `names` is dropping `names` and that one. */
  lemma DropStep(mc: ModelColumns, names: set<string>, n: string)
    ensures RemoveColumnByName(Dropped(mc, names), n) == Dropped(mc, names + {n})
  {
    if mc.IsApplicable() {
      var w := WithoutNames(mc.cols, names);
      var w' := WithoutNames(mc.cols, names + {n});
      assert w' == WithoutName(w, n);
      if n in Names(mc) && Names(mc) * names == {} {
        assert n in Names(mc) * (names + {n});
      } else if n !in Names(mc) && Names(mc) * names == {} {
        assert Names(mc) * (names + {n}) == {};
      } else if Names(mc) * names != {} {
        assert Names(mc) * (names + {n}) != {};
        if n !in Names(Dropped(mc, names)) {
          forall c | c in w ensures c in w' {
            assert c.name in Names(Dropped(mc, names));
          }
        }
      }
    }
  }

  /** `remove_columns`' loop: `remove_column_by_name` for each listed name in turn. */
  method RemoveListed(mc: ModelColumns, targets: seq<string>) returns (r: ModelColumns)
    ensures r == Dropped(mc, ElementsOf(targets))
  {
    r := mc;
    for i := 0 to |targets|
      invariant r == Dropped(mc, ElementsOf(targets[..i]))
    {
      DropStep(mc, ElementsOf(targets[..i]), targets[i]);
      assert ElementsOf(targets[..i + 1]) == ElementsOf(targets[..i]) + {targets[i]} by {
        assert targets[..i + 1] == targets[..i] + [targets[i]];
      }
      r := RemoveColumnByName(r, targets[i]);
    }
    assert targets[..|targets|] == targets;
  }

  /** The names of a set that `keep` does not list. */
  function Unlisted(mc: ModelColumns, keep: seq<string>): set<string>
  {
    set n | n in Names(mc) && n !in keep
  }

  /** `keep_only_columns`' loop: over the names the set holds on entry, remove each one `keep` does not list. */
  method KeepListed(mc: ModelColumns, keep: seq<string>) returns (r: ModelColumns)
    ensures r == Dropped(mc, Unlisted(mc, keep))
  {
    r := mc;
    var rest := Names(mc);
    ghost var done: set<string> := {};
    while rest != {}
      invariant rest <= Names(mc) && done == Names(mc) - rest
      invariant r == Dropped(mc, Gone(done, keep))
      decreases |rest|
    {
      var n :| n in rest;
      KeepStep(mc, keep, done, n);
      if n !in keep {
        r := RemoveColumnByName(r, n);
      }
      rest := rest - {n};
      done := done + {n};
    }
    assert done == Names(mc);
  }

  /** The names among `done` that `keep` does not list. */
  function Gone(done: set<string>, keep: seq<string>): set<string>
  {
    set m | m in done && m !in keep
  }

  lemma UnlistedStep(done: set<string>, keep: seq<string>, n: string)
    ensures Gone(done + {n}, keep) == if n in keep then Gone(done, keep) else Gone(done, keep) + {n}
  {
  }

  /** One turn of `KeepListed`'s loop: a listed name leaves the columns alone, an unlisted one is dropped. */
  lemma KeepStep(mc: ModelColumns, keep: seq<string>, done: set<string>, n: string)
    ensures var r := Dropped(mc, Gone(done, keep));
      (if n in keep then r else RemoveColumnByName(r, n)) == Dropped(mc, Gone(done + {n}, keep))
  {
    UnlistedStep(done, keep, n);
    if n !in keep {
      DropStep(mc, Gone(done, keep), n);
    }
  }

  /** Keeping only the listed names leaves exactly the columns whose names are listed. */
  lemma KeptOnlyListed(mc: ModelColumns, keep: seq<string>)
    requires mc.IsApplicable()
    ensures Dropped(mc, Unlisted(mc, keep)).Value() == set c | c in mc.cols && c.name in keep
    ensures Names(Dropped(mc, Unlisted(mc, keep))) <= ElementsOf(keep)
  {
    var r := Dropped(mc, Unlisted(mc, keep));
    forall c | c in mc.cols && c.name !in keep ensures c.name in Unlisted(mc, keep) {
      assert c.name in Names(mc);
    }
    assert r.Value() == set c | c in mc.cols && c.name in keep;
  }

  /**
   * Each name in turn that the set does not yet hold joins it as a `string`
   * column without an expression; a set that is not computed stays as it is.
   */
  function AddMissing(mc: ModelColumns, names: seq<string>): (r: ModelColumns)
    ensures !mc.IsApplicable() ==> r == mc
    ensures mc.IsApplicable() ==> r.IsApplicable() && Names(r) == Names(mc) + ElementsOf(names)
    ensures mc.IsApplicable() ==> mc.cols <= r.cols
    ensures mc.IsApplicable() ==>
      forall c :: c in r.cols && c !in mc.cols ==> c == ModelColumn(c.name, "string", "") && c.name in names
    decreases |names|
  {
    if names == [] then mc
    else
      var prev := AddMissing(mc, names[..|names| - 1]);
      var n := names[|names| - 1];
      assert ElementsOf(names) == ElementsOf(names[..|names| - 1]) + {n} by {
        assert names == names[..|names| - 1] + [n];
      }
      if n in Names(prev) then prev else Add(prev, ModelColumn(n, "string", ""))
  }

  /** The loops of KeepOnlyColumns' SQL and ChangeColumnType's columns: add each name the set lacks. */
  method AddMissingColumns(mc: ModelColumns, names: seq<string>) returns (r: ModelColumns)
    ensures r == AddMissing(mc, names)
  {
    r := mc;
    for i := 0 to |names|
      invariant r == AddMissing(mc, names[..i])
    {
      assert names[..i + 1][..i] == names[..i];
      if names[i] !in Names(r) {
        r := Add(r, ModelColumn(names[i], "string", ""));
      }
    }
    assert names[..|names|] == names;
  }

  /** The keys of ChangeColumnType's `fields`, in order. */
  function FieldNames(fields: seq<FieldChange>): (r: seq<string>)
    ensures |r| == |fields| && forall i :: 0 <= i < |fields| ==> r[i] == fields[i].field
  {
    seq(|fields|, i requires 0 <= i < |fields| => fields[i].field)
  }

  /** Every field change gives its new type. */
  predicate AllTyped(fields: seq<FieldChange>)
  {
    forall i :: 0 <= i < |fields| ==> fields[i].newType.Some?
  }

  lemma AllTypedLast(fields: seq<FieldChange>)
    requires fields != []
    ensures AllTyped(fields) <==> AllTyped(fields[..|fields| - 1]) && fields[|fields| - 1].newType.Some?
  {
    var init := fields[..|fields| - 1];
    assert forall i :: 0 <= i < |init| ==> init[i] == fields[i];
  }

  lemma FieldNamesLast(fields: seq<FieldChange>)
    requires fields != []
    ensures ElementsOf(FieldNames(fields)) == ElementsOf(FieldNames(fields[..|fields| - 1])) + {fields[|fields| - 1].field}
  {
    assert FieldNames(fields) == FieldNames(fields[..|fields| - 1]) + [fields[|fields| - 1].field];
  }

  /**
   * ChangeColumnType's SQL columns: each field in turn becomes a `string`
   * column computed by a cast to its new type; a field without `type` is a
   * KeyError.
   */
  function Recast(env: Env, mc: ModelColumns, fields: seq<FieldChange>): (r: Result<ModelColumns>)
    ensures r.Ok? <==> AllTyped(fields)
    ensures r.Err? ==> r.failure == MissingKey("type")
    ensures r.Ok? && !mc.IsApplicable() ==> r.value == mc
    ensures r.Ok? && mc.IsApplicable() ==>
      r.value.IsApplicable() && Names(r.value) == Names(mc) + ElementsOf(FieldNames(fields))
    decreases |fields|
  {
    if fields == [] then Ok(mc)
    else
      var init := fields[..|fields| - 1];
      var f := fields[|fields| - 1];
      FieldNamesLast(fields);
      AllTypedLast(fields);
      var prev :- Recast(env, mc, init);
      if f.newType.None? then Err(MissingKey("type"))
      else Ok(Add(prev, ModelColumn(f.field, "string", env.renderCast(f.field, f.newType.value))))
  }

  /** With distinct field names, every field ends up as the cast of itself to its new type. */
  lemma {:induction false} RecastCasts(env: Env, mc: ModelColumns, fields: seq<FieldChange>, i: nat)
    requires mc.IsApplicable() && i < |fields|
    requires forall j, k :: 0 <= j < k < |fields| ==> fields[j].field != fields[k].field
    requires Recast(env, mc, fields).Ok?
    ensures var f := fields[i];
      ModelColumn(f.field, "string", env.renderCast(f.field, f.newType.value)) in Recast(env, mc, fields).value.cols
    decreases |fields|
  {
    var init := fields[..|fields| - 1];
    if i < |fields| - 1 {
      RecastCasts(env, mc, init, i);
    }
  }

  /** ChangeColumnType's loop over the fields, reassigning the columns. */
  method RecastColumns(env: Env, mc: ModelColumns, fields: seq<FieldChange>) returns (r: Result<ModelColumns>)
    ensures r == Recast(env, mc, fields)
  {
    var cols := mc;
    for i := 0 to |fields|
      invariant Recast(env, mc, fields[..i]) == Ok(cols)
    {
      assert fields[..i + 1][..i] == fields[..i];
      if fields[i].newType.None? {
        RecastFailsOn(env, mc, fields, i);
        return Err(MissingKey("type"));
      }
      cols := Add(cols, ModelColumn(fields[i].field, "string", env.renderCast(fields[i].field, fields[i].newType.value)));
    }
    assert fields[..|fields|] == fields;
    r := Ok(cols);
  }

  lemma RecastFailsOn(env: Env, mc: ModelColumns, fields: seq<FieldChange>, i: nat)
    requires i < |fields| && fields[i].newType.None?
    ensures Recast(env, mc, fields) == Err(MissingKey("type"))
  {
  }

  /** The WHEN arms one Remap bucket contributes: each old value maps to the bucket's new value. */
  function BucketArms(b: Bucket): (r: seq<When>)
    ensures |r| == |b.oldValues|
    ensures forall k :: 0 <= k < |r| ==> r[k] == When(b.oldValues[k], b.newValue)
  {
    seq(|b.oldValues|, k requires 0 <= k < |b.oldValues| => When(b.oldValues[k], b.newValue))
  }

  /** Remap's CASE arms: bucket by bucket in the order of `values`, old value by old value. */
  function CaseArms(buckets: seq<Bucket>): (r: seq<When>)
    ensures forall w :: w in r <==>
      exists i :: 0 <= i < |buckets| && w.result == buckets[i].newValue && w.value in buckets[i].oldValues
    decreases |buckets|
  {
    if buckets == [] then []
    else
      var init := buckets[..|buckets| - 1];
      var last := buckets[|buckets| - 1];
      var r := CaseArms(init) + BucketArms(last);
      assert forall w :: w in BucketArms(last) <==> w.result == last.newValue && w.value in last.oldValues by {
        forall w: When | w.result == last.newValue && w.value in last.oldValues ensures w in BucketArms(last) {
          var k :| 0 <= k < |last.oldValues| && last.oldValues[k] == w.value;
          assert BucketArms(last)[k] == w;
        }
      }
      assert forall i :: 0 <= i < |init| ==> init[i] == buckets[i];
      r
  }

  /** What a searched CASE yields for `v`: the result of the first arm whose value is `v`, if any. */
  function FirstArm(arms: seq<When>, v: string): Option<string>
  {
    if arms == [] then None
    else if arms[0].value == v then Some(arms[0].result)
    else FirstArm(arms[1..], v)
  }

  /** What Remap means for `v`: the new value of the first bucket in `values` that lists `v`, if any. */
  function FirstBucket(buckets: seq<Bucket>, v: string): Option<string>
  {
    if buckets == [] then None
    else if v in buckets[0].oldValues then Some(buckets[0].newValue)
    else FirstBucket(buckets[1..], v)
  }

  lemma {:induction false} FirstArmAppend(a: seq<When>, b: seq<When>, v: string)
    ensures FirstArm(a + b, v) == if FirstArm(a, v).Some? then FirstArm(a, v) else FirstArm(b, v)
    decreases |a|
  {
    if a == [] {
      assert a + b == b;
    } else {
      var ab := a + b;
      assert ab[0] == a[0];
      assert ab[1..] == a[1..] + b;
      FirstArmAppend(a[1..], b, v);
    }
  }

  lemma {:induction false} FirstBucketSnoc(init: seq<Bucket>, last: Bucket, v: string)
    ensures FirstBucket(init + [last], v) ==
      if FirstBucket(init, v).Some? then FirstBucket(init, v)
      else if v in last.oldValues then Some(last.newValue) else None
    decreases |init|
  {
    if init != [] {
      assert (init + [last])[1..] == init[1..] + [last];
      FirstBucketSnoc(init[1..], last, v);
    }
  }

  lemma {:induction false} FirstArmOfBucket(b: Bucket, k: nat, v: string)
    requires k <= |b.oldValues|
    ensures FirstArm(BucketArms(b)[k..], v) == if v in b.oldValues[k..] then Some(b.newValue) else None
    decreases |b.oldValues| - k
  {
    if k < |b.oldValues| {
      assert BucketArms(b)[k..][1..] == BucketArms(b)[k + 1..];
      assert b.oldValues[k..] == [b.oldValues[k]] + b.oldValues[k + 1..];
      FirstArmOfBucket(b, k + 1, v);
    }
  }

  /**
   * The CASE Remap builds gives every value the new value of the FIRST bucket
   * listing it, so a value listed in two buckets takes the earlier one; a
   * value no bucket lists falls to the ELSE branch.
   */
  lemma {:induction false} CaseArmsFirstBucket(buckets: seq<Bucket>, v: string)
    ensures FirstArm(CaseArms(buckets), v) == FirstBucket(buckets, v)
    decreases |buckets|
  {
    if buckets != [] {
      var init := buckets[..|buckets| - 1];
      var last := buckets[|buckets| - 1];
      assert buckets == init + [last];
      CaseArmsFirstBucket(init, v);
      FirstArmAppend(CaseArms(init), BucketArms(last), v);
      FirstArmOfBucket(last, 0, v);
      assert BucketArms(last)[0..] == BucketArms(last);
      assert last.oldValues[0..] == last.oldValues;
      FirstBucketSnoc(init, last, v);
    }
  }

  /** Remap's nested loops building the CASE arms. */
  method BuildCaseArms(buckets: seq<Bucket>) returns (arms: seq<When>)
    ensures arms == CaseArms(buckets)
  {
    arms := [];
    for i := 0 to |buckets|
      invariant arms == CaseArms(buckets[..i])
    {
      assert buckets[..i + 1][..i] == buckets[..i];
      var b := buckets[i];
      for k := 0 to |b.oldValues|
        invariant arms == CaseArms(buckets[..i]) + BucketArms(b)[..k]
      {
        arms := arms + [When(b.oldValues[k], b.newValue)];
      }
      assert BucketArms(b)[..|b.oldValues|] == BucketArms(b);
    }
    assert buckets[..|buckets|] == buckets;
  }

  /** `perform_calculate_columns` of each converter, once `validate` has passed. */
  function PerformColumns(kind: AnnotationKind, a: Annotation, mc: ModelColumns): (r: ModelColumns)
    requires Recognised(kind, a)
    ensures kind == FilterOperation || kind == Remap ==> r == mc
    ensures kind == UnknownAnnotation ==> r == Unknown
    ensures (kind == AddColumn || kind == QuickCalcColumn) && mc.IsApplicable() ==>
      r.IsApplicable() && ModelColumn(a.columnName.value, "string", a.expression.value) in r.cols
    ensures !mc.IsApplicable() && kind != UnknownAnnotation ==> r == mc
  {
    match kind
    case AddColumn | QuickCalcColumn =>
      Add(mc, ModelColumn(a.columnName.value, "string", a.expression.value))
    case DuplicateColumn =>
      Add(mc, ModelColumn(a.columnName.value, "string", Strip(a.expression.value, Brackets)))
    case RenameColumn => Renamed(mc, a.columnName.value, a.rename.value)
    case RemoveColumns => Dropped(mc, ElementsOf(a.columnNames.value))
    case KeepOnlyColumns => Dropped(mc, Unlisted(mc, a.columnNames.value))
    case ChangeColumnType => AddMissing(mc, FieldNames(a.fields.value))
    case FilterOperation => mc
    case Remap => mc
    case UnknownAnnotation => Unknown
  }

  /** `calculate_columns`: the converter's columns, or unknown when `validate` rejects the annotation. */
  function ColumnsAfter(kind: AnnotationKind, a: Annotation, mc: ModelColumns): (r: ModelColumns)
    ensures !Recognised(kind, a) || kind == UnknownAnnotation ==> r == Unknown
    ensures !mc.IsApplicable() && r != Unknown ==> r == mc
  {
    if Recognised(kind, a) then PerformColumns(kind, a, mc) else Unknown
  }

  /** `calculate_columns`, running the converters' loops. */
  method CalculateColumns(kind: AnnotationKind, a: Annotation, mc: ModelColumns) returns (r: ModelColumns)
    ensures r == ColumnsAfter(kind, a, mc)
  {
    if !Recognised(kind, a) {
      return Unknown;
    }
    match kind
    case RemoveColumns =>
      r := RemoveListed(mc, a.columnNames.value);
    case KeepOnlyColumns =>
      r := KeepListed(mc, a.columnNames.value);
    case ChangeColumnType =>
      r := AddMissingColumns(mc, FieldNames(a.fields.value));
    case _ =>
      r := PerformColumns(kind, a, mc);
  }

  // ---------------------------------------------------------------------
  // Statements

  /** `select(columns + extra).comment(name).filter(where).select_from(stmts).cte(id)`; `name` and `id` are read without a check. */
  function AnnotationCte(a: Annotation, columns: Projection, extra: seq<Item>, where: seq<Cond>, stmts: Query): (r: Result<Query>)
    ensures a.name.None? ==> r == Err(MissingKey("name"))
    ensures a.name.Some? && a.id.None? ==> r == Err(MissingKey("id"))
    ensures r.Ok? ==> r.value.Cte? && r.value.body.Select? && r.value.body.from == stmts
  {
    if a.name.None? then Err(MissingKey("name"))
    else if a.id.None? then Err(MissingKey("id"))
    else Ok(Cte(a.id.value, Select(columns, extra, a.name.value, stmts, where, [])))
  }

  /** The comment of the fallback CTE, naming the annotation when it has a name. */
  function FallbackComment(a: Annotation): (r: string)
    ensures a.name.Some? ==> EndsWith(r, a.name.value)
  {
    var prefix := "変換できませんでした。";
    if a.name.Some? then prefix + "annotation name: " + a.name.value else prefix
  }

  /**
   * The fallback of `generate_statements` (and the unknown converter): pass
   * the columns through with their expressions, named after the annotation's
   * id or a fresh name.
   */
  function Fallback(env: Env, a: Annotation, mc: ModelColumns, stmts: Query): (r: Query)
    ensures r.Cte? && r.name == a.id.GetOr(env.freshName)
    ensures r.body == SelectFrom(ToItems(mc, true), FallbackComment(a), stmts)
  {
    Cte(a.id.GetOr(env.freshName), SelectFrom(ToItems(mc, true), FallbackComment(a), stmts))
  }

  /** `perform_generate_statements` of each converter, once `validate` has passed. */
  function PerformStatements(env: Env, kind: AnnotationKind, a: Annotation, mc: ModelColumns, stmts: Query): (r: Result<Query>)
    requires Recognised(kind, a)
    ensures r.Err? ==> r.IsFatal()
  {
    match kind
    case AddColumn | QuickCalcColumn | DuplicateColumn | RenameColumn | RemoveColumns =>
      AnnotationCte(a, ToItems(PerformColumns(kind, a, mc), true), [], [], stmts)
    case KeepOnlyColumns =>
      AnnotationCte(a, ToItems(AddMissing(PerformColumns(kind, a, mc), a.columnNames.value), true), [], [], stmts)
    case ChangeColumnType =>
      var cols :- Recast(env, mc, a.fields.value);
      AnnotationCte(a, ToItems(cols, true), [], [], stmts)
    case FilterOperation =>
      AnnotationCte(a, ToItems(mc, true), [], [Text(a.filterExpression.value)], stmts)
    case Remap =>
      var column := a.columnName.value;
      var remapped := Case(column, CaseArms(a.values.value), column);
      AnnotationCte(a, ToItems(RemoveColumnByName(mc, column), true), [remapped], [], stmts)
    case UnknownAnnotation => Ok(Fallback(env, a, mc, stmts))
  }

  /** `generate_statements`: the converter's CTE, or the fallback when `validate` rejects the annotation. */
  function StatementsFor(env: Env, kind: AnnotationKind, a: Annotation, mc: ModelColumns, stmts: Query): (r: Result<Query>)
    ensures !Recognised(kind, a) || kind == UnknownAnnotation ==> r == Ok(Fallback(env, a, mc, stmts))
    ensures r.Err? ==> r.IsFatal()
  {
    if Recognised(kind, a) then PerformStatements(env, kind, a, mc, stmts) else Ok(Fallback(env, a, mc, stmts))
  }

  /** Every annotation's statement, accepted or fallen back, is a CTE. */
  lemma StatementsAreCtes(env: Env, kind: AnnotationKind, a: Annotation, mc: ModelColumns, stmts: Query)
    ensures StatementsFor(env, kind, a, mc, stmts).Ok? ==> StatementsFor(env, kind, a, mc, stmts).value.Cte?
  {
  }

  /** `generate_statements`, running the converters' loops. */
  method GenerateStatements(env: Env, kind: AnnotationKind, a: Annotation, mc: ModelColumns, stmts: Query)
    returns (r: Result<Query>)
    ensures r == StatementsFor(env, kind, a, mc, stmts)
  {
    if !Recognised(kind, a) {
      return Ok(Fallback(env, a, mc, stmts));
    }
    match kind
    case RemoveColumns =>
      var cols := RemoveListed(mc, a.columnNames.value);
      r := AnnotationCte(a, ToItems(cols, true), [], [], stmts);
    case KeepOnlyColumns =>
      var kept := KeepListed(mc, a.columnNames.value);
      var cols := AddMissingColumns(kept, a.columnNames.value);
      r := AnnotationCte(a, ToItems(cols, true), [], [], stmts);
    case ChangeColumnType =>
      var cols := RecastColumns(env, mc, a.fields.value);
      if cols.Err? {
        return Err(cols.failure);
      }
      r := AnnotationCte(a, ToItems(cols.value, true), [], [], stmts);
    case Remap =>
      var column := a.columnName.value;
      var arms := BuildCaseArms(a.values.value);
      r := AnnotationCte(a, ToItems(RemoveColumnByName(mc, column), true), [Case(column, arms, column)], [], stmts);
    case _ =>
      r := PerformStatements(env, kind, a, mc, stmts);
  }

  // ---------------------------------------------------------------------
  // Properties

  /** An annotation its converter rejects never stops the run: no columns, and a pass-through CTE. */
  lemma RejectedFallsBack(env: Env, kind: AnnotationKind, a: Annotation, mc: ModelColumns, stmts: Query)
    requires !Recognised(kind, a)
    ensures ColumnsAfter(kind, a, mc) == Unknown
    ensures var r := StatementsFor(env, kind, a, mc, stmts);
      && r.Ok? && r.value.name == a.id.GetOr(env.freshName)
      && r.value.body.columns == ToItems(mc, true) && r.value.body.from == stmts
  {
  }

  /**
   * For the converters whose SQL is a plain projection, the CTE selects
   * exactly the columns `calculate_columns` computes, with their expressions.
   */
  lemma StatementsSelectColumns(env: Env, kind: AnnotationKind, a: Annotation, mc: ModelColumns, stmts: Query)
    requires kind in {AddColumn, QuickCalcColumn, DuplicateColumn, RenameColumn, RemoveColumns, FilterOperation}
    requires Recognised(kind, a) && a.name.Some? && a.id.Some?
    ensures var where := if kind == FilterOperation then [Text(a.filterExpression.value)] else [];
      StatementsFor(env, kind, a, mc, stmts)
        == Ok(Cte(a.id.value, Select(ToItems(ColumnsAfter(kind, a, mc), true), [], a.name.value, stmts, where, [])))
  {
    var after := PerformColumns(kind, a, mc);
    assert ColumnsAfter(kind, a, mc) == after;
    if kind == FilterOperation {
      assert after == mc;
      assert StatementsFor(env, kind, a, mc, stmts) == AnnotationCte(a, ToItems(mc, true), [], [Text(a.filterExpression.value)], stmts);
    } else {
      assert StatementsFor(env, kind, a, mc, stmts) == AnnotationCte(a, ToItems(after, true), [], [], stmts);
    }
  }

  /** A step annotation without `name` or `id` that its converter accepts stops the run with a KeyError. */
  lemma MissingNameOrIdIsFatal(env: Env, kind: AnnotationKind, a: Annotation, mc: ModelColumns, stmts: Query)
    requires kind != UnknownAnnotation && kind != ChangeColumnType && Recognised(kind, a)
    requires a.name.None? || a.id.None?
    ensures StatementsFor(env, kind, a, mc, stmts).IsFatal()
  {
  }

  /**
   * KeepOnlyColumns: the columns keep only listed names, and its SQL selects
   * every listed name, adding those the computed set lacked.
   */
  lemma KeepOnlyContents(env: Env, a: Annotation, mc: ModelColumns, stmts: Query)
    requires Recognised(KeepOnlyColumns, a) && mc.IsApplicable()
    ensures var kept := ColumnsAfter(KeepOnlyColumns, a, mc);
      && kept.Value() == (set c | c in mc.cols && c.name in a.columnNames.value)
      && Names(kept) <= ElementsOf(a.columnNames.value)
      && (kept.IsApplicable() ==> Names(AddMissing(kept, a.columnNames.value)) == ElementsOf(a.columnNames.value))
    ensures a.name.Some? && a.id.Some? ==>
      StatementsFor(env, KeepOnlyColumns, a, mc, stmts) ==
        Ok(Cte(a.id.value, Select(ToItems(AddMissing(ColumnsAfter(KeepOnlyColumns, a, mc), a.columnNames.value), true),
                                  [], a.name.value, stmts, [], [])))
  {
    KeptOnlyListed(mc, a.columnNames.value);
    if a.name.Some? && a.id.Some? {
      var kept := PerformColumns(KeepOnlyColumns, a, mc);
      assert ColumnsAfter(KeepOnlyColumns, a, mc) == kept;
      assert StatementsFor(env, KeepOnlyColumns, a, mc, stmts) ==
        AnnotationCte(a, ToItems(AddMissing(kept, a.columnNames.value), true), [], [], stmts);
    }
  }

  /**
   * ChangeColumnType: when every field has a type, the SQL selects the same
   * names as the computed columns, each changed field computed by its cast.
   */
  lemma ChangeTypeAgrees(env: Env, a: Annotation, mc: ModelColumns, i: nat, stmts: Query)
    requires Recognised(ChangeColumnType, a) && mc.IsApplicable()
    requires forall j :: 0 <= j < |a.fields.value| ==> a.fields.value[j].newType.Some?
    requires forall j, k :: 0 <= j < k < |a.fields.value| ==> a.fields.value[j].field != a.fields.value[k].field
    requires i < |a.fields.value|
    ensures var cast := Recast(env, mc, a.fields.value);
      && cast.Ok?
      && Names(cast.value) == Names(ColumnsAfter(ChangeColumnType, a, mc))
      && var f := a.fields.value[i];
         ModelColumn(f.field, "string", env.renderCast(f.field, f.newType.value)) in cast.value.cols
    ensures a.name.Some? && a.id.Some? ==>
      StatementsFor(env, ChangeColumnType, a, mc, stmts) ==
        Ok(Cte(a.id.value, Select(ToItems(Recast(env, mc, a.fields.value).value, true), [], a.name.value, stmts, [], [])))
  {
    RecastCasts(env, mc, a.fields.value, i);
    if a.name.Some? && a.id.Some? {
      var cast := Recast(env, mc, a.fields.value);
      assert PerformStatements(env, ChangeColumnType, a, mc, stmts) ==
        AnnotationCte(a, ToItems(cast.value, true), [], [], stmts);
    }
  }

  /** Remap: the column is selected once, as the CASE expression mapping each old value to its bucket's value. */
  lemma RemapReplacesColumn(env: Env, a: Annotation, mc: ModelColumns, stmts: Query)
    requires Recognised(Remap, a) && a.name.Some? && a.id.Some?
    requires mc.IsApplicable() && WellFormed(mc)
    ensures var r := StatementsFor(env, Remap, a, mc, stmts);
      && r.Ok? && r.value.body.extra == [Case(a.columnName.value, CaseArms(a.values.value), a.columnName.value)]
      && r.value.body.columns == ToItems(RemoveColumnByName(mc, a.columnName.value), true)
      && r.value.name == a.id.value && r.value.body.from == stmts
      && (r.value.body.columns.Cols? ==> a.columnName.value !in Names(RemoveColumnByName(mc, a.columnName.value)))
  {
  }
}
