/**
 * The column sets, model names and graph nodes that the lineage rules work on.
 *
 * A column set is in one of three states: not computed yet ("Not
 * Applicable"), computed (a non-empty set of columns), or "Unknown" (no rule
 * could infer the columns). Every operation returns a new value; the receiver
 * is never changed in this model.
 */
module Columns {
  import opened Outcome
  import opened Flow
  import opened SqlAst

  /** A column of a dbt model: name, Tableau data type, and the expression computing it ("" for none). */
  datatype ModelColumn = ModelColumn(name: string, dataType: string, value: string)

  datatype ModelColumns =
    | NotApplicable                      // "Not Applicable": not computed yet
    | Applicable(cols: set<ModelColumn>) // "Applicable": computed
    | Unknown                            // "Unknown": the columns cannot be inferred
  {
    /** `is_applicable` */
    predicate IsApplicable()
    {
      Applicable?
    }

    /** `value`: the columns held, none unless computed. */
    function Value(): set<ModelColumn>
    {
      if Applicable? then cols else {}
    }
  }

  /** A computed column set is never empty: every constructor below keeps this. */
  predicate WellFormed(mc: ModelColumns)
  {
    mc.Applicable? ==> mc.cols != {}
  }

  /** No two columns share a name. */
  predicate UniqueNames(mc: ModelColumns)
  {
    forall c, d :: c in mc.Value() && d in mc.Value() && c.name == d.name ==> c == d
  }

  function NamesOf(s: set<ModelColumn>): set<string>
  {
    set c | c in s :: c.name
  }

  function WithoutName(s: set<ModelColumn>, name: string): set<ModelColumn>
  {
    set c | c in s && c.name != name
  }

  function WithoutNames(s: set<ModelColumn>, names: set<string>): set<ModelColumn>
  {
    set c | c in s && c.name !in names
  }

  /** `ModelColumns.initialized` */
  function Initialized(): (r: ModelColumns)
    ensures !r.IsApplicable() && r.Value() == {} && r != Unknown
  {
    NotApplicable
  }

  /** `ModelColumns.calculated`: computed when there is at least one column, unknown otherwise. */
  function Calculated(s: set<ModelColumn>): (r: ModelColumns)
    ensures r.IsApplicable() <==> s != {}
    ensures r.Value() == s
    ensures !r.IsApplicable() ==> r == Unknown
    ensures WellFormed(r)
  {
    if |s| > 0 then Applicable(s) else Unknown
  }

  /** `names_list`, as the set of names it lists: empty unless computed. */
  function Names(mc: ModelColumns): (r: set<string>)
    ensures !mc.IsApplicable() ==> r == {}
    ensures forall c :: c in mc.Value() ==> c.name in r
  {
    NamesOf(mc.Value())
  }

  /** The names listed are exactly those the columns carry: none is listed without a column. */
  lemma NamesExact(mc: ModelColumns, n: string)
    ensures n in Names(mc) <==> exists c :: c in mc.Value() && c.name == n
  {
  }

  /**
   * `add`: on a computed set, `col` replaces the column of the same name or
   * joins the set; a set that is not computed is returned as it is.
   */
  function Add(mc: ModelColumns, col: ModelColumn): (r: ModelColumns)
    ensures !mc.IsApplicable() ==> r == mc
    ensures mc.IsApplicable() ==> r.IsApplicable() && col in r.cols
    ensures mc.IsApplicable() ==> forall c :: c in r.cols && c.name == col.name ==> c == col
    ensures mc.IsApplicable() ==> forall c :: c in mc.cols && c.name != col.name ==> c in r.cols
    ensures mc.IsApplicable() ==> forall c :: c in r.cols ==> c == col || c in mc.cols
    ensures mc.IsApplicable() ==> Names(r) == Names(mc) + {col.name}
  {
    if mc.IsApplicable() then Calculated(WithoutName(mc.cols, col.name) + {col}) else mc
  }

  /**
   * `remove_column_by_name`: on a computed set holding `name`, drop that
   * column, and become unknown when nothing is left; otherwise unchanged.
   */
  function RemoveColumnByName(mc: ModelColumns, name: string): (r: ModelColumns)
    ensures !mc.IsApplicable() || name !in Names(mc) ==> r == mc
    ensures mc.IsApplicable() && name in Names(mc) ==> name !in Names(r)
    ensures mc.IsApplicable() && name in Names(mc) ==>
      forall c :: c in r.Value() <==> c in mc.cols && c.name != name
    ensures mc.IsApplicable() && name in Names(mc) && WithoutName(mc.cols, name) == {} ==> r == Unknown
    ensures WellFormed(mc) ==> WellFormed(r)
  {
    if mc.IsApplicable() && name in Names(mc) then
      var rest := WithoutName(mc.cols, name);
      if |rest| > 0 then Calculated(rest) else Unknown
    else
      mc
  }

  /** `get_column_by_name`: the loop over the set, stopping at the first column with that name. */
  method GetColumnByName(mc: ModelColumns, name: string) returns (r: Result<ModelColumn>)
    ensures r.Ok? <==> name in Names(mc)
    ensures r.Ok? ==> r.value in mc.Value() && r.value.name == name
    ensures r.Err? ==> r.IsFatal()
  {
    if mc.IsApplicable() {
      var rest := mc.cols;
      while rest != {}
        invariant rest <= mc.cols
        invariant forall c :: c in mc.cols && c !in rest ==> c.name != name
        decreases |rest|
      {
        var c :| c in rest;
        if c.name == name {
          return Ok(c);
        }
        rest := rest - {c};
      }
    }
    r := Err(Fatal("カラムが見つかりませんでした。"));
  }

  function Blanked(c: ModelColumn): ModelColumn
  {
    ModelColumn(c.name, c.dataType, "")
  }

  /** `flush_values`: every (name, type) kept, every expression cleared; no columns gives unknown. */
  function Flushed(mc: ModelColumns): (r: ModelColumns)
    ensures r.IsApplicable() <==> mc.Value() != {}
    ensures !r.IsApplicable() ==> r == Unknown
    ensures Names(r) == Names(mc)
    ensures forall c :: c in r.Value() ==> c.value == ""
    ensures forall c :: c in mc.Value() ==> ModelColumn(c.name, c.dataType, "") in r.Value()
    ensures forall c :: c in r.Value() ==> exists d :: d in mc.Value() && c == Blanked(d)
  {
    var s := set c | c in mc.Value() :: Blanked(c);
    assert forall c :: c in mc.Value() ==> Blanked(c) in s;
    Calculated(s)
  }

  /** `flush_values`: the loop collecting the blanked columns. */
  method FlushValues(mc: ModelColumns) returns (r: ModelColumns)
    ensures r == Flushed(mc)
  {
    var newCols: seq<ModelColumn> := [];
    var rest := mc.Value();
    while rest != {}
      invariant rest <= mc.Value()
      invariant forall c :: c in newCols <==> exists d :: d in mc.Value() && d !in rest && c == Blanked(d)
      decreases |rest|
    {
      var c :| c in rest;
      newCols := newCols + [Blanked(c)];
      rest := rest - {c};
    }
    var s := set c | c in newCols;
    assert s == set c | c in mc.Value() :: Blanked(c);
    r := Calculated(s);
  }

  /**
   * `merge`: add every column of `other` in turn. On a computed receiver the
   * result holds the names of both, keeps the receiver's columns whose names
   * `other` lacks, and takes every other column from `other`; a receiver that
   * is not computed is returned as it is.
   */
  method Merge(mc: ModelColumns, other: ModelColumns) returns (r: ModelColumns)
    ensures !mc.IsApplicable() ==> r == mc
    ensures mc.IsApplicable() ==> r.IsApplicable()
    ensures mc.IsApplicable() && UniqueNames(other) ==> r == Merged(mc.cols, other.Value())
  {
    if !mc.IsApplicable() {
      return mc;
    }
    r := mc;
    var rest := other.Value();
    ghost var done: set<ModelColumn> := {};
    ghost var unique := UniqueNames(other);
    MergeLoopStart(mc, other);
    while rest != {}
      invariant MergeInvariant(mc, other, rest, done, r, unique)
      decreases |rest|
    {
      var c :| c in rest;
      MergeLoopStep(mc, other, rest, done, c, r, unique);
      assert |rest - {c}| < |rest|;
      r := Add(r, c);
      rest := rest - {c};
      done := done + {c};
    }
    MergeLoopEnd(mc, other, done, r, unique);
  }

  lemma MergeLoopStart(mc: ModelColumns, other: ModelColumns)
    requires mc.IsApplicable()
    ensures MergeInvariant(mc, other, other.Value(), {}, mc, UniqueNames(other))
  {
    assert NamesOf({}) == {};
    assert WithoutNames(mc.cols, {}) == mc.cols;
  }

  lemma MergeLoopEnd(mc: ModelColumns, other: ModelColumns, done: set<ModelColumn>, r: ModelColumns, unique: bool)
    requires MergeInvariant(mc, other, {}, done, r, unique)
    ensures r.IsApplicable()
    ensures UniqueNames(other) ==> r == Merged(mc.cols, other.Value())
  {
  }

  /** What `merge`'s loop keeps: the columns of `other` already added are `done`, and the result so far is their merge. */
  ghost predicate MergeInvariant(mc: ModelColumns, other: ModelColumns, rest: set<ModelColumn>, done: set<ModelColumn>, r: ModelColumns, unique: bool)
  {
    && mc.IsApplicable()
    && rest <= other.Value() && done == other.Value() - rest
    && r.IsApplicable()
    && unique == UniqueNames(other)
    && (unique ==> r == Merged(mc.cols, done))
  }

  lemma MergeLoopStep(mc: ModelColumns, other: ModelColumns, rest: set<ModelColumn>, done: set<ModelColumn>, c: ModelColumn, r: ModelColumns, unique: bool)
    requires MergeInvariant(mc, other, rest, done, r, unique) && c in rest
    ensures MergeInvariant(mc, other, rest - {c}, done + {c}, Add(r, c), unique)
  {
    assert Add(r, c).IsApplicable();
    SplitStep(other.Value(), rest, done, c);
    if unique {
      NotYetNamed(other, done, c);
      MergeStep(mc.cols, done, c);
    }
  }

  lemma SplitStep(all: set<ModelColumn>, rest: set<ModelColumn>, done: set<ModelColumn>, c: ModelColumn)
    requires rest <= all && done == all - rest && c in rest
    ensures rest - {c} <= all && done + {c} == all - (rest - {c})
  {
  }

  lemma NotYetNamed(other: ModelColumns, done: set<ModelColumn>, c: ModelColumn)
    requires UniqueNames(other) && done <= other.Value() && c in other.Value() && c !in done
    ensures forall d :: d in done ==> d.name != c.name
  {
  }

  /** The receiver's columns whose names `added` lacks, and all of `added`. */
  function Merged(cols: set<ModelColumn>, added: set<ModelColumn>): ModelColumns
  {
    Applicable(WithoutNames(cols, NamesOf(added)) + added)
  }

  lemma MergeStep(cols: set<ModelColumn>, done: set<ModelColumn>, c: ModelColumn)
    requires forall d :: d in done ==> d.name != c.name
    ensures Add(Merged(cols, done), c) == Merged(cols, done + {c})
  {
    var before := WithoutNames(cols, NamesOf(done)) + done;
    assert Add(Merged(cols, done), c) == Applicable(WithoutName(before, c.name) + {c});
    MergeStepSets(cols, done, c);
  }

  lemma MergeStepSets(cols: set<ModelColumn>, done: set<ModelColumn>, c: ModelColumn)
    requires forall d :: d in done ==> d.name != c.name
    ensures WithoutName(WithoutNames(cols, NamesOf(done)) + done, c.name) + {c}
         == WithoutNames(cols, NamesOf(done + {c})) + (done + {c})
  {
    assert NamesOf(done + {c}) == NamesOf(done) + {c.name};
    assert WithoutName(done, c.name) == done;
    assert WithoutName(WithoutNames(cols, NamesOf(done)), c.name) == WithoutNames(cols, NamesOf(done) + {c.name});
  }

  /** `merge` with unique names: the names of both sets; `other` wins where names meet. */
  lemma MergedProperties(mc: ModelColumns, other: ModelColumns)
    requires mc.IsApplicable()
    ensures var r := Merged(mc.cols, other.Value());
      && Names(r) == Names(mc) + Names(other)
      && other.Value() <= r.cols
      && (forall c :: c in mc.cols && c.name !in Names(other) ==> c in r.cols)
      && (forall c :: c in r.cols ==> c in mc.cols || c in other.Value())
  {
    var r := Merged(mc.cols, other.Value());
    forall n | n in Names(mc) ensures n in Names(r) {
      var c :| c in mc.cols && c.name == n;
      if n !in Names(other) {
        assert c in r.cols;
      } else {
        var d :| d in other.Value() && d.name == n;
        assert d in r.cols;
      }
    }
  }

  /** `add` when the names are unique: exactly the source's step of removing the one same-named column, then adding. */
  lemma AddReplacesOne(mc: ModelColumns, old0: ModelColumn, col: ModelColumn)
    requires mc.IsApplicable() && UniqueNames(mc)
    requires old0 in mc.cols && old0.name == col.name
    ensures Add(mc, col) == Applicable(mc.cols - {old0} + {col})
  {
    assert WithoutName(mc.cols, col.name) == mc.cols - {old0};
  }

  /** `remove_column_by_name` when the names are unique: exactly the removal of the one column found by name. */
  lemma RemoveRemovesOne(mc: ModelColumns, target: ModelColumn)
    requires mc.IsApplicable() && UniqueNames(mc) && target in mc.cols
    ensures RemoveColumnByName(mc, target.name) == Calculated(mc.cols - {target})
  {
    assert WithoutName(mc.cols, target.name) == mc.cols - {target};
  }

  /** `add`, `remove_column_by_name` and `flush_values` keep names unique. */
  lemma AddKeepsUnique(mc: ModelColumns, col: ModelColumn)
    requires UniqueNames(mc)
    ensures UniqueNames(Add(mc, col))
  {
  }

  lemma RemoveKeepsUnique(mc: ModelColumns, name: string)
    requires UniqueNames(mc)
    ensures UniqueNames(RemoveColumnByName(mc, name))
  {
  }

  lemma FlushKeepsUnique(mc: ModelColumns)
    requires UniqueNames(mc)
    ensures UniqueNames(Flushed(mc))
  {
    forall c, d | c in Flushed(mc).Value() && d in Flushed(mc).Value() && c.name == d.name
      ensures c == d
    {
      var c0 :| c0 in mc.Value() && c == Blanked(c0);
      var d0 :| d0 in mc.Value() && d == Blanked(d0);
    }
  }

  /** Flushing twice is flushing once. */
  lemma FlushIdempotent(mc: ModelColumns)
    ensures Flushed(Flushed(mc)) == Flushed(mc)
  {
    var once := Flushed(mc);
    forall c | c in once.Value() ensures Blanked(c) == c {
    }
    assert (set c | c in once.Value() :: Blanked(c)) == once.Value();
  }

  // ---------------------------------------------------------------------
  // SELECT lists

  /** `ModelColumn.to_alchemy_obj`: the expression labelled with the name when asked for and present, else the name. */
  function ToItem(c: ModelColumn, withLabel: bool): (r: Item)
    ensures withLabel && c.value != "" ==> r == Labelled(Col(c.value, true), c.name)
    ensures !(withLabel && c.value != "") ==> r == Col(c.name, true)
  {
    if withLabel && c.value != "" then Labelled(Col(c.value, true), c.name) else Col(c.name, true)
  }

  /** `to_alchemy_obj_list`: one item per column, or `*` when the set is not computed. */
  function ToItems(mc: ModelColumns, withValue: bool): (r: Projection)
    ensures r == Star <==> !mc.IsApplicable()
    ensures r.Cols? ==> forall c :: c in mc.cols ==> ToItem(c, withValue) in r.items
  {
    if mc.IsApplicable() then Cols(set c | c in mc.cols :: ToItem(c, withValue)) else Star
  }

  /** Every item of the list comes from a column: the list holds the columns' items and nothing else. */
  lemma ToItemsExact(mc: ModelColumns, withValue: bool)
    ensures ToItems(mc, withValue).Cols? ==>
      forall i :: i in ToItems(mc, withValue).items ==> exists c :: c in mc.cols && i == ToItem(c, withValue)
  {
  }

  /** Without values the list names exactly the columns. */
  lemma ItemsNameColumns(mc: ModelColumns)
    requires mc.IsApplicable()
    ensures ToItems(mc, false) == Cols(set n | n in Names(mc) :: Col(n, true))
  {
    var a := set c | c in mc.cols :: ToItem(c, false);
    var b := set n | n in Names(mc) :: Col(n, true);
    forall i | i in b ensures i in a {
      var n :| n in Names(mc) && i == Col(n, true);
      var c :| c in mc.cols && c.name == n;
      assert ToItem(c, false) == i;
    }
  }

  // ---------------------------------------------------------------------
  // Model names and nodes

  /** `ModelName`: "Not Applicable" until names are built, then "Applicable" with the name. */
  datatype ModelName = NameNotApplicable | NameApplicable(name: string)
  {
    predicate IsApplicable()
    {
      NameApplicable?
    }

    /** `value`: the name, "" before it is built. */
    function Value(): string
    {
      if NameApplicable? then name else ""
    }
  }

  /** A step of the flow as a graph node. */
  datatype Node = Node(
    id: string,
    name: string,
    nodeType: string,
    raw: Step,
    modelName: ModelName,
    modelColumns: ModelColumns,
    isUnknown: bool)
  {
    /** `copy_with_model_name`: only the model name changes. */
    function CopyWithModelName(n: ModelName): (r: Node)
      ensures r.modelName == n
      ensures r.id == id && r.name == name && r.nodeType == nodeType && r.raw == raw
      ensures r.modelColumns == modelColumns && r.isUnknown == isUnknown
    {
      this.(modelName := n)
    }

    /** `copy_with_model_columns`: only the columns change. */
    function CopyWithModelColumns(cols: ModelColumns): (r: Node)
      ensures r.modelColumns == cols
      ensures r.id == id && r.name == name && r.nodeType == nodeType && r.raw == raw
      ensures r.modelName == modelName && r.isUnknown == isUnknown
    {
      this.(modelColumns := cols)
    }

    /** `to_table`: a table named `tableName`, or the model name when that is empty, with the column names. */
    function ToTable(tableName: string): (r: Query)
      ensures r.Table? && r.columns == ToItems(modelColumns, false)
      ensures r.name == if tableName != "" then tableName else modelName.Value()
    {
      Table(if tableName != "" then tableName else modelName.Value(), ToItems(modelColumns, false))
    }
  }
}
