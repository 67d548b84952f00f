/**
 * The step converters.
 *
 * For each kind of step: whether its converter will translate it
 * (`validate`), the step as a graph node, the columns it computes and the dbt
 * models it writes. The mixin wrappers around them turn a step the converter
 * rejects, or an UnknownNodeException raised while translating it, into the
 * unknown-node translation; any other failure ends the run.
 */
module Steps {
  import opened Outcome
  import opened Flow
  import opened SqlAst
  import opened Columns
  import opened FlowGraph
  import opened Registry
  import opened Dbt
  import opened Metadata
  import opened NodeMixins

  /** The message of the UnknownNodeException the converters raise. */
  const UnknownStep := "未知のノード"

  // ---------------------------------------------------------------------
  // Validation and graphs

  /** `validate`: the keys a converter needs before it will translate a step. */
  predicate Validates(kind: NodeKind, step: Step)
  {
    match kind
    case LoadSql =>
      step.name.Some? && step.nextNodes.Some? && step.hasConnectionAttributes && step.fields.Some? && step.hasRelation
    case LoadSqlProxy | LoadCsv | LoadCsvInputUnion | LoadExcel => step.fields.Some?
    case Container => step.loomContainer.Some? && step.loomContainer.value.nodes.Some?
    case WriteToHyper => true
    case SuperAggregate =>
      step.actionNode.Some? && step.actionNode.value.groupByFields.Some? && step.actionNode.value.aggregateFields.Some?
    case SuperJoin => step.actionNode.Some? && step.actionNode.value.conditions.Some? && step.actionNode.value.joinType.Some?
    case SuperTransform => step.beforeActionAnnotations.Some?
    case UnknownNode => false
  }

  /** `perform_generate_graph`: the step as a node whose columns are not computed yet; `name` is read unguarded. */
  function ConvertedGraph(step: Step): (r: Result<Graph>)
    ensures r.Ok? <==> step.name.Some?
    ensures r.Err? ==> r == Err(MissingKey("name"))
  {
    if step.name.None? then Err(MissingKey("name"))
    else Ok(SingleNodeGraph(NodeOf(step, step.name.value, Initialized(), false)))
  }

  /** The node a step becomes: unknown, with unknown columns, when its converter rejects it. */
  function GraphNode(kind: NodeKind, step: Step): Node
    requires step.name.Some?
  {
    if Validates(kind, step) then NodeOf(step, step.name.value, Initialized(), false)
    else NodeOf(step, step.name.value, Unknown, true)
  }

  /** `generate_graph`: the converter's own graph for an accepted step, the unknown graph otherwise. */
  function StepGraph(kind: NodeKind, step: Step): (r: Result<Graph>)
    ensures r.Ok? <==> step.name.Some?
    ensures r.Err? ==> r == Err(MissingKey("name"))
    ensures r.Ok? ==> r.value == SingleNodeGraph(GraphNode(kind, step))
  {
    if kind == UnknownNode then UnknownGraph(step)
    else if Validates(kind, step) then ConvertedGraph(step)
    else UnknownGraph(step)
  }

  /**
   * Whatever the kind, the graph holds the one node, under the step's id and
   * name, and an edge to every step it feeds. The node is marked unknown, with
   * unknown columns, exactly when the converter rejects the step; an accepted
   * step waits for its columns.
   */
  lemma StepGraphNode(kind: NodeKind, step: Step)
    requires step.name.Some?
    ensures var g := StepGraph(kind, step).value; ValidGraph(g) && g.data.Keys == {step.id}
    ensures var g := StepGraph(kind, step).value; var node := g.data[step.id];
      && node.raw == step && node.name == step.name.value && !node.modelName.IsApplicable()
      && (node.isUnknown <==> !Validates(kind, step))
      && node.modelColumns == (if Validates(kind, step) then Initialized() else Unknown)
      && (forall a, b :: IsEdge(g, a, b) <==> a == step.id && b in Targets(step))
  {
    StepGraphContents(NodeOf(step, step.name.value, Initialized(), false));
    StepGraphContents(NodeOf(step, step.name.value, Unknown, true));
  }

  /** `generate_graph`, filling a fresh graph. */
  method GenerateGraph(kind: NodeKind, step: Step) returns (r: Result<Dag>)
    ensures r.Ok? <==> StepGraph(kind, step).Ok?
    ensures r.Ok? ==> fresh(r.value) && r.value.Valid() && r.value.View() == StepGraph(kind, step).value
    ensures r.Err? ==> StepGraph(kind, step) == Err(r.failure)
  {
    if kind == UnknownNode || !Validates(kind, step) {
      r := GenerateUnknownGraph(step);
      return;
    }
    if step.name.None? {
      return Err(MissingKey("name"));
    }
    var dag := new Dag();
    dag.AddNodeWithEdge(NodeOf(step, step.name.value, Initialized(), false));
    r := Ok(dag);
  }

  // ---------------------------------------------------------------------
  // Input steps: LoadSql, LoadSqlProxy, LoadCsv, LoadCsvInputUnion, LoadExcel

  /** `perform_calculate_columns` of an input step: one column per field, with its name and type and no expression. */
  function FieldColumns(g: Graph, id: string): (r: Result<ModelColumns>)
    ensures r.Err? ==> r.IsFatal()
    ensures r.Ok? <==> id in g.data && g.data[id].raw.fields.Some?
    ensures r.Ok? ==> var fields := g.data[id].raw.fields.value;
      && (r.value.IsApplicable() <==> fields != [])
      && (r.value.IsApplicable() || r.value == Unknown)
      && Names(r.value) == (set f | f in fields :: f.name)
      && (forall c :: c in r.value.Value() ==> c.value == "" && Field(c.name, c.dataType) in fields)
      && (forall f :: f in fields ==> ModelColumn(f.name, f.fieldType, "") in r.value.Value())
  {
    var node :- NodeById(g, id);
    var fields :- Required(node.raw.fields, "fields");
    var s := set f | f in fields :: ModelColumn(f.name, f.fieldType, "");
    assert fields != [] ==> ModelColumn(fields[0].name, fields[0].fieldType, "") in s;
    assert NamesOf(s) == set f | f in fields :: f.name by {
      forall n | n in set f | f in fields :: f.name ensures n in NamesOf(s) {
        var f :| f in fields && f.name == n;
        assert ModelColumn(f.name, f.fieldType, "") in s;
      }
    }
    Ok(Calculated(s))
  }

  /** `__model_sql` of an input step: its columns, with their expressions, read from the table `source__<model name>` through a source tag. */
  function LoaderSql(env: Env, node: Node): (r: Sql)
    ensures var source := "source__" + node.modelName.Value();
      && r.statements == Cte("final", SelectFrom(ToItems(node.modelColumns, true), node.name, Alias(node.ToTable(source), "source")))
      && r.dbtSql == Retagged(r.compiledSql, [source], "source", env.sourceName)
  {
    var source := "source__" + node.modelName.Value();
    SourceReferenceSql(env, Cte("final", SelectFrom(ToItems(node.modelColumns, true), node.name, Alias(node.ToTable(source), "source"))), [source])
  }

  /** The CTE selects from the table `table`, aliased `source`. */
  predicate ReadsTable(q: Query, table: string)
  {
    q.Cte? && q.body.Select? && q.body.from.Alias? && q.body.from.source.Table? && q.body.from.source.name == table
  }

  /**
   * `perform_generate_dbt_models` of an input step: the model, and the
   * source without SQL that the model reads from, so an input step's
   * translation names every table it needs.
   */
  function LoaderModels(env: Env, g: Graph, id: string): (r: Result<DbtModels>)
    ensures r.Ok? <==> id in g.data
    ensures r.Err? ==> r.IsFatal()
    ensures r.Ok? ==> var ms := r.value.models; var node := g.data[id];
      && |ms| == 2
      && ms[0] == DbtModel(Some(LoaderSql(env, node)), ModelYml(env, g, id).value, node.modelName.Value(), "model")
      && ms[1] == DbtModel(None, SourceYml(env, g, id).value, "source__" + node.modelName.Value(), "source")
      && ReadsTable(ms[0].sql.value.statements, ms[1].modelName)
  {
    var node :- NodeById(g, id);
    var model := DbtModel(Some(LoaderSql(env, node)), ModelYml(env, g, id).value, node.modelName.Value(), "model");
    var source := DbtModel(None, SourceYml(env, g, id).value, "source__" + node.modelName.Value(), "source");
    Ok(DbtModels([model, source]))
  }

  /** A model for one SQL statement, after the node is read. */
  function SingleModel(env: Env, g: Graph, id: string, sql: Result<Sql>): (r: Result<DbtModels>)
    ensures r.Ok? <==> id in g.data && sql.Ok?
    ensures r.Err? ==> (id !in g.data && r.IsFatal()) || (id in g.data && r == Err(sql.failure))
    ensures r.Ok? ==> r.value.models == [DbtModel(Some(sql.value), ModelYml(env, g, id).value, g.data[id].modelName.Value(), "model")]
  {
    var node :- NodeById(g, id);
    var s :- sql;
    Ok(DbtModels([DbtModel(Some(s), ModelYml(env, g, id).value, node.modelName.Value(), "model")]))
  }

  // ---------------------------------------------------------------------
  // Container

  /** The container's annotation steps, in order; KeyErrors when the keys are absent. */
  function ContainerNodes(step: Step): (r: Result<seq<Annotation>>)
    ensures r.Ok? <==> step.loomContainer.Some? && step.loomContainer.value.nodes.Some?
    ensures r.Ok? ==> r.value == step.loomContainer.value.nodes.value
    ensures r.Err? ==> r.IsFatal()
  {
    var container :- Required(step.loomContainer, "loomContainer");
    Required(container.nodes, "nodes")
  }

  /**
   * `perform_calculate_columns` of a container: its annotation steps over the
   * parent columns on `Default`. The check for `Default` cannot fire, since
   * the gathered columns always hold it.
   */
  function ContainerColumns(g: Graph, id: string): (r: Result<ModelColumns>)
    ensures r.Err? ==> r.IsFatal()
    ensures r.Ok? <==> id in g.data && AllParentColumns(g, id).Ok? && ContainerNodes(g.data[id].raw).Ok?
    ensures r.Ok? ==> r.value == ColumnChain(ContainerNodes(g.data[id].raw).value, AllParentColumns(g, id).value["Default"])
  {
    var node :- NodeById(g, id);
    var parents :- AllParentColumns(g, id);
    if "Default" !in parents then Err(NotRecognised(UnknownStep))
    else
      var nodes :- ContainerNodes(node.raw);
      Ok(ColumnChain(nodes, parents["Default"]))
  }

  /** A container none of whose parents leads into `Default` has unknown columns. */
  lemma ContainerWithoutDefault(g: Graph, id: string)
    requires ContainerColumns(g, id).Ok?
    requires "Default" !in Listed(g, g.parents[id])
    ensures ContainerColumns(g, id) == Ok(Unknown)
  {
    AllParentColumnsContents(g, id);
  }

  /**
   * `__model_sql` of a container: CTE `source` over the parent on `Default`,
   * the annotation steps over it, then CTE `final` with the container's
   * columns, through ref tags. Without a parent on `Default` the step falls
   * back to the unknown translation.
   */
  function ContainerSql(env: Env, g: Graph, id: string): (r: Result<Sql>)
    ensures r.Err? && r.failure.NotRecognised? <==>
      id in g.data && AllParentAsTable(g, id).Ok? && "Default" !in AllParentAsTable(g, id).value
    ensures r.Ok? ==> (id in g.data && AllParentAsTable(g, id).Ok? && AllParentColumns(g, id).Ok?
      && ContainerNodes(g.data[id].raw).Ok? && ParentModelNames(g, id).Ok?)
    ensures r.Ok? ==> var node := g.data[id]; var tables := AllParentAsTable(g, id).value;
      && "Default" in tables
      && var source := Cte("source", SelectFrom(Every, "", tables["Default"]));
      && var stmts := NodeMixins.Chain(env, ContainerNodes(node.raw).value, AllParentColumns(g, id).value["Default"], source);
      && stmts.Ok?
      && r.value.statements == Cte("final", SelectFrom(ToItems(node.modelColumns, true), node.name, stmts.value))
      && r.value.dbtSql == Retagged(r.value.compiledSql, ParentModelNames(g, id).value, "model", "")
  {
    var node :- NodeById(g, id);
    var tables :- AllParentAsTable(g, id);
    if "Default" !in tables then Err(NotRecognised(UnknownStep))
    else
      var source := Cte("source", SelectFrom(Every, "", tables["Default"]));
      var parents :- AllParentColumns(g, id);
      if "Default" !in parents then Err(NotRecognised(UnknownStep))
      else
        var nodes :- ContainerNodes(node.raw);
        var stmts :- NodeMixins.Chain(env, nodes, parents["Default"], source);
        var names :- ParentModelNames(g, id);
        Ok(ModelReferenceSql(env, Cte("final", SelectFrom(ToItems(node.modelColumns, true), node.name, stmts)), names))
  }

  /** A container falls back exactly when none of its parents leads into `Default`. */
  lemma ContainerFallsBack(env: Env, g: Graph, id: string)
    requires id in g.data && AllParentAsTable(g, id).Ok?
    ensures ContainerSql(env, g, id).Err? && ContainerSql(env, g, id).failure.NotRecognised? <==>
      "Default" !in Listed(g, g.parents[id])
  {
    AllParentAsTableContents(g, id);
  }

  /** `perform_calculate_columns` of a container: the loop over its annotation steps. */
  method ContainerCalculateColumns(g: Graph, id: string) returns (r: Result<ModelColumns>)
    ensures r == ContainerColumns(g, id)
  {
    var node :- NodeById(g, id);
    var parents :- AllParentColumns(g, id);
    var nodes :- ContainerNodes(node.raw);
    var cols := RunColumnChain(nodes, parents["Default"]);
    r := Ok(cols);
  }

  /** `__model_sql` of a container: the loop over its annotation steps, rebinding columns and statements. */
  method ContainerGenerateSql(env: Env, g: Graph, id: string) returns (r: Result<Sql>)
    ensures r == ContainerSql(env, g, id)
  {
    var node :- NodeById(g, id);
    var tables :- AllParentAsTable(g, id);
    if "Default" !in tables {
      return Err(NotRecognised(UnknownStep));
    }
    var source := Cte("source", SelectFrom(Every, "", tables["Default"]));
    var parents :- AllParentColumns(g, id);
    var nodes :- ContainerNodes(node.raw);
    var stmts :- RunChain(env, nodes, parents["Default"], source);
    var names :- ParentModelNames(g, id);
    r := Ok(ModelReferenceSql(env, Cte("final", SelectFrom(ToItems(node.modelColumns, true), node.name, stmts)), names));
  }

  // ---------------------------------------------------------------------
  // WriteToHyper

  /** `perform_calculate_columns` of an output step: the columns of its one parent, which must lead into `Default` only. */
  function HyperColumns(g: Graph, id: string): (r: Result<ModelColumns>)
    ensures r.Err? && !r.IsFatal() ==> r == Err(NotRecognised(""))
    ensures r.Err? && !r.IsFatal() <==> AllParentColumns(g, id).Ok? && AllParentColumns(g, id).value.Keys != {"Default"}
    ensures r.Ok? ==> (AllParentColumns(g, id).Ok? && AllParentColumns(g, id).value.Keys == {"Default"}
      && r.value == AllParentColumns(g, id).value["Default"])
  {
    var parents :- AllParentColumns(g, id);
    if parents.Keys != {"Default"} then Err(NotRecognised("")) else Ok(parents["Default"])
  }

  /**
   * An output step keeps its columns when its parents lead into `Default`
   * alone: they are the parent's columns, or unknown when there is none.
   */
  lemma HyperColumnsCases(g: Graph, id: string)
    requires AllParentColumns(g, id).Ok?
    ensures HyperColumns(g, id).Ok? <==> Listed(g, g.parents[id]) <= {"Default"}
    ensures Listed(g, g.parents[id]) == {} ==> HyperColumns(g, id) == Ok(Unknown)
    ensures Listed(g, g.parents[id]) == {"Default"} ==>
      exists p :: p in g.parents[id] && p in g.data && HyperColumns(g, id) == Ok(g.data[p].modelColumns)
  {
    AllParentColumnsContents(g, id);
  }

  /** `__model_sql` of an output step: its columns, with their expressions, read from the parent on `Default` aliased `source`. */
  function HyperSql(env: Env, g: Graph, id: string): (r: Result<Sql>)
    ensures r.Err? && !r.IsFatal() <==> id in g.data && AllParentAsTable(g, id).Ok? && "Default" !in AllParentAsTable(g, id).value
    ensures r.Ok? ==> (id in g.data && AllParentAsTable(g, id).Ok? && "Default" in AllParentAsTable(g, id).value
      && ParentModelNames(g, id).Ok?)
    ensures r.Ok? ==> var node := g.data[id];
      && r.value.statements == Cte("final", SelectFrom(ToItems(node.modelColumns, true), node.name,
                                                     Alias(AllParentAsTable(g, id).value["Default"], "source")))
      && r.value.dbtSql == Retagged(r.value.compiledSql, ParentModelNames(g, id).value, "model", "")
  {
    var node :- NodeById(g, id);
    var tables :- AllParentAsTable(g, id);
    if "Default" !in tables then Err(NotRecognised(""))
    else
      var q := Cte("final", SelectFrom(ToItems(node.modelColumns, true), node.name, Alias(tables["Default"], "source")));
      var names :- ParentModelNames(g, id);
      Ok(ModelReferenceSql(env, q, names))
  }

  // ---------------------------------------------------------------------
  // SuperJoin

  /** The name a right-hand column gets in the join: its own, or with `-1` appended when the left side has it. */
  function JoinedName(left: ModelColumns, name: string): string
  {
    if name in Names(left) then name + "-1" else name
  }

  /** `get_column_by_name` over the order the set is visited in: the first column with the name. */
  function FirstNamed(xs: seq<ModelColumn>, name: string): (r: ModelColumn)
    requires exists c :: c in xs && c.name == name
    ensures r in xs && r.name == name
    decreases |xs|
  {
    if xs[0].name == name then xs[0] else FirstNamed(xs[1..], name)
  }

  /** What the join adds for the right-hand column `c`: the right column itself, or `<name>-1` computed from it. */
  function JoinedColumn(left: ModelColumns, order: seq<ModelColumn>, c: ModelColumn): (r: ModelColumn)
    requires c in order
    ensures r.name == JoinedName(left, c.name)
  {
    if c.name !in Names(left) then FirstNamed(order, c.name) else ModelColumn(c.name + "-1", "string", c.name)
  }

  /** The loop of `__calculate_columns` from the `i`-th right-hand name on, adding to `acc`. */
  function JoinFrom(left: ModelColumns, order: seq<ModelColumn>, i: nat, acc: ModelColumns): ModelColumns
    requires i <= |order|
    decreases |order| - i
  {
    if i == |order| then acc else JoinFrom(left, order, i + 1, Add(acc, JoinedColumn(left, order, order[i])))
  }

  /** `__calculate_columns`: the left columns, with every right-hand column added under its joined name. */
  function JoinedColumns(env: Env, left: ModelColumns, right: ModelColumns): ModelColumns
  {
    JoinFrom(left, env.order(right.Value()), 0, left)
  }

  /** The joined names of the right-hand columns from the `i`-th on. */
  function NamesFrom(left: ModelColumns, order: seq<ModelColumn>, i: nat): (r: set<string>)
    requires i <= |order|
    ensures forall j :: i <= j < |order| ==> JoinedName(left, order[j].name) in r
    ensures forall x :: x in r ==> exists j :: i <= j < |order| && x == JoinedName(left, order[j].name)
    decreases |order| - i
  {
    if i == |order| then {} else {JoinedName(left, order[i].name)} + NamesFrom(left, order, i + 1)
  }

  lemma {:induction false} JoinFromNames(left: ModelColumns, order: seq<ModelColumn>, i: nat, acc: ModelColumns)
    requires i <= |order| && acc.IsApplicable()
    ensures JoinFrom(left, order, i, acc).IsApplicable()
    ensures Names(JoinFrom(left, order, i, acc)) == Names(acc) + NamesFrom(left, order, i)
    decreases |order| - i
  {
    if i < |order| {
      var next := Add(acc, JoinedColumn(left, order, order[i]));
      JoinFromNames(left, order, i + 1, next);
    }
  }

  /** No right-hand column from the `i`-th on is joined under `name`. */
  predicate Unclaimed(left: ModelColumns, order: seq<ModelColumn>, i: nat, name: string)
  {
    forall j :: i <= j < |order| ==> JoinedName(left, order[j].name) != name
  }

  lemma {:induction false} JoinFromKeepsOne(left: ModelColumns, order: seq<ModelColumn>, i: nat, acc: ModelColumns, c: ModelColumn)
    requires i <= |order| && acc.IsApplicable()
    requires c in acc.cols && Unclaimed(left, order, i, c.name)
    ensures c in JoinFrom(left, order, i, acc).Value()
    decreases |order| - i
  {
    if i < |order| {
      var next := Add(acc, JoinedColumn(left, order, order[i]));
      assert JoinedName(left, order[i].name) != c.name;
      JoinFromKeepsOne(left, order, i + 1, next, c);
    }
  }

  lemma JoinFromKeeps(left: ModelColumns, order: seq<ModelColumn>, i: nat, acc: ModelColumns)
    requires i <= |order| && acc.IsApplicable()
    ensures forall c :: c in acc.cols && Unclaimed(left, order, i, c.name) ==> c in JoinFrom(left, order, i, acc).Value()
  {
    forall c | c in acc.cols && Unclaimed(left, order, i, c.name) ensures c in JoinFrom(left, order, i, acc).Value() {
      JoinFromKeepsOne(left, order, i, acc, c);
    }
  }

  /**
   * The joined names do not depend on the order the right-hand columns are
   * visited in: the left names, the right names the left lacks, and
   * `<name>-1` for every name both sides have.
   */
  lemma JoinedNames(env: Env, left: ModelColumns, right: ModelColumns)
    requires left.IsApplicable() && Enumerates(env.order(right.Value()), right.Value())
    ensures JoinedColumns(env, left, right).IsApplicable()
    ensures Names(JoinedColumns(env, left, right)) ==
      Names(left) + (Names(right) - Names(left)) + (set n | n in Names(right) && n in Names(left) :: n + "-1")
  {
    var order := env.order(right.Value());
    JoinFromNames(left, order, 0, left);
    RightNames(left, order, right.Value());
  }

  lemma RightNames(left: ModelColumns, order: seq<ModelColumn>, rs: set<ModelColumn>)
    requires forall x :: x in order <==> x in rs
    ensures NamesFrom(left, order, 0) ==
      (NamesOf(rs) - Names(left)) + (set n | n in NamesOf(rs) && n in Names(left) :: n + "-1")
  {
    var fromOrder := NamesFrom(left, order, 0);
    var renamed := set n | n in NamesOf(rs) && n in Names(left) :: n + "-1";
    forall x | x in fromOrder ensures x in (NamesOf(rs) - Names(left)) + renamed {
      var j :| 0 <= j < |order| && x == JoinedName(left, order[j].name);
      var n := order[j].name;
      assert order[j] in rs;
      assert n in NamesOf(rs);
      if n in Names(left) {
        assert x == n + "-1" && x in renamed;
      } else {
        assert x == n;
      }
    }
    forall n | n in NamesOf(rs) ensures JoinedName(left, n) in fromOrder {
      var c :| c in rs && c.name == n;
      assert c in order;
      var j :| 0 <= j < |order| && order[j] == c;
      assert JoinedName(left, order[j].name) in fromOrder;
    }
    forall x | x in renamed ensures x in fromOrder {
      var n :| n in NamesOf(rs) && n in Names(left) && x == n + "-1";
      assert JoinedName(left, n) == x;
    }
  }

  /** Every left column survives the join unless a name both sides have, with `-1` appended, replaces it. */
  lemma JoinKeepsLeft(env: Env, left: ModelColumns, right: ModelColumns)
    requires left.IsApplicable() && Enumerates(env.order(right.Value()), right.Value())
    ensures forall c :: c in left.cols && c.name !in (set n | n in Names(right) && n in Names(left) :: n + "-1") ==>
      c in JoinedColumns(env, left, right).Value()
  {
    var order := env.order(right.Value());
    JoinFromKeeps(left, order, 0, left);
    forall c | c in left.cols && c.name !in (set n | n in Names(right) && n in Names(left) :: n + "-1")
      ensures forall j :: 0 <= j < |order| ==> JoinedName(left, order[j].name) != c.name
    {
      forall j | 0 <= j < |order| ensures JoinedName(left, order[j].name) != c.name {
        var n := order[j].name;
        assert order[j] in right.Value();
        assert c.name in Names(left);
        if n in Names(left) {
          assert n + "-1" in (set n | n in Names(right) && n in Names(left) :: n + "-1");
        }
      }
    }
  }

  /** `__calculate_columns`: the loop over the right-hand names. */
  method CalculateJoinedColumns(env: Env, left: ModelColumns, right: ModelColumns) returns (r: ModelColumns)
    ensures r == JoinedColumns(env, left, right)
  {
    var order := env.order(right.Value());
    r := left;
    for i := 0 to |order|
      invariant JoinFrom(left, order, 0, left) == JoinFrom(left, order, i, r)
    {
      var name := order[i].name;
      if name !in Names(left) {
        r := Add(r, FirstNamed(order, name));
      } else {
        r := Add(r, ModelColumn(name + "-1", "string", name));
      }
    }
  }

  /** `perform_calculate_columns` of a join: both sides needed; unknown when either side's columns are not computed. */
  function JoinColumns(env: Env, pre: map<string, ModelColumns>): (r: Result<ModelColumns>)
    ensures r.Err? <==> "Left" !in pre || "Right" !in pre
    ensures r.Err? ==> r == Err(NotRecognised(UnknownStep))
    ensures r.Ok? && !(pre["Left"].IsApplicable() && pre["Right"].IsApplicable()) ==> r.value == Unknown
    ensures r.Ok? && pre["Left"].IsApplicable() && pre["Right"].IsApplicable() ==>
      r.value == JoinedColumns(env, pre["Left"], pre["Right"])
  {
    if "Left" !in pre || "Right" !in pre then Err(NotRecognised(UnknownStep))
    else if !pre["Left"].IsApplicable() || !pre["Right"].IsApplicable() then Ok(Unknown)
    else Ok(JoinedColumns(env, pre["Left"], pre["Right"]))
  }

  /** The comparators a join condition may use. */
  const Comparators: set<string> := {"==", "!=", ">=", "<=", ">", "<"}

  /** One condition of `__calculate_conditions`: a comparison of the two columns, none for another comparator. */
  function JoinCondition(c: Condition): (r: Option<Cond>)
    ensures r.Some? <==> c.comparator in Comparators
    ensures r.Some? ==> r.value.Compare? && r.value.left == c.leftExpression && r.value.right == c.rightExpression
  {
    if c.comparator in Comparators then
      Some(Compare(c.leftExpression, if c.comparator == "==" then "=" else c.comparator, c.rightExpression))
    else None
  }

  /** `__calculate_conditions`: the comparisons, in order; conditions with another comparator are dropped. */
  function JoinConditions(conds: seq<Condition>): (r: seq<Cond>)
    ensures |r| <= |conds|
    decreases |conds|
  {
    if conds == [] then []
    else
      match JoinCondition(conds[0])
      case None => JoinConditions(conds[1..])
      case Some(x) => [x] + JoinConditions(conds[1..])
  }

  /** The comparisons are those of the conditions with a known comparator, one per condition when all are known. */
  lemma {:induction false} JoinConditionsMembers(conds: seq<Condition>)
    ensures forall x :: x in JoinConditions(conds) <==> exists c :: c in conds && JoinCondition(c) == Some(x)
    ensures (forall c :: c in conds ==> c.comparator in Comparators) ==> |JoinConditions(conds)| == |conds|
    decreases |conds|
  {
    if conds != [] {
      JoinConditionsMembers(conds[1..]);
      assert forall c :: c in conds[1..] ==> c in conds;
      assert forall c :: c in conds ==> c == conds[0] || c in conds[1..];
    }
  }

  /** `__calculate_conditions`: the loop. */
  method CalculateConditions(conds: seq<Condition>) returns (r: seq<Cond>)
    ensures r == JoinConditions(conds)
  {
    r := [];
    for i := 0 to |conds|
      invariant JoinConditions(conds) == r + JoinConditions(conds[i..])
    {
      assert conds[i..][1..] == conds[i + 1..];
      var x := JoinCondition(conds[i]);
      if x.Some? {
        r := r + [x.value];
      }
    }
    assert conds[|conds|..] == [];
  }

  /** Which side's column a null filter tests. */
  datatype NullSide = RightNull | LeftNull | BothNull

  function NullTerms(c: Condition, side: NullSide): seq<Cond>
  {
    match side
    case RightNull => [IsNull(c.rightExpression)]
    case LeftNull => [IsNull(c.leftExpression)]
    case BothNull => [IsNull(c.leftExpression), IsNull(c.rightExpression)]
  }

  /** The filters of the one-sided and not-inner joins: per condition, its column(s) IS NULL, in order. */
  function NullFilters(conds: seq<Condition>, side: NullSide): seq<Cond>
    decreases |conds|
  {
    if conds == [] then [] else NullTerms(conds[0], side) + NullFilters(conds[1..], side)
  }

  /** One filter per condition on one side; two per condition, left then right, on both. */
  lemma {:induction false} NullFiltersShape(conds: seq<Condition>, side: NullSide)
    ensures side != BothNull ==> |NullFilters(conds, side)| == |conds|
    ensures side == RightNull ==> forall k :: 0 <= k < |conds| ==> NullFilters(conds, side)[k] == IsNull(conds[k].rightExpression)
    ensures side == LeftNull ==> forall k :: 0 <= k < |conds| ==> NullFilters(conds, side)[k] == IsNull(conds[k].leftExpression)
    ensures side == BothNull ==> |NullFilters(conds, side)| == 2 * |conds|
    ensures side == BothNull ==> forall k :: 0 <= k < |conds| ==>
      NullFilters(conds, side)[2 * k] == IsNull(conds[k].leftExpression) && NullFilters(conds, side)[2 * k + 1] == IsNull(conds[k].rightExpression)
    decreases |conds|
  {
    if conds != [] {
      NullFiltersShape(conds[1..], side);
    }
  }

  lemma NullFiltersStep(conds: seq<Condition>, i: nat, side: NullSide, done: seq<Cond>)
    requires i < |conds|
    ensures done + NullFilters(conds[i..], side) == (done + NullTerms(conds[i], side)) + NullFilters(conds[i + 1..], side)
  {
    assert conds[i..][1..] == conds[i + 1..];
  }

  /** The filter loops of the one-sided and not-inner joins. */
  method BuildNullFilters(conds: seq<Condition>, side: NullSide) returns (r: seq<Cond>)
    ensures r == NullFilters(conds, side)
  {
    r := [];
    for i := 0 to |conds|
      invariant NullFilters(conds, side) == r + NullFilters(conds[i..], side)
    {
      var c := conds[i];
      var terms: seq<Cond>;
      if side == RightNull || side == BothNull {
        terms := [IsNull(c.rightExpression)];
        if side == BothNull {
          terms := [IsNull(c.leftExpression)] + terms;
        }
      } else {
        terms := [IsNull(c.leftExpression)];
      }
      assert terms == NullTerms(c, side);
      NullFiltersStep(conds, i, side, r);
      r := r + terms;
    }
    assert conds[|conds|..] == [];
  }

  /** The join types the translator knows. */
  const JoinTypes: set<string> := {"left", "leftOnly", "right", "rightOnly", "inner", "notInner", "full"}

  /** The seven join builders: CTE `joined` over the two sides; none for another join type. */
  function JoinQuery(joinType: string, conds: seq<Condition>, left: Query, right: Query, columns: Projection): (r: Option<Query>)
    ensures r.Some? <==> joinType in JoinTypes
    ensures r.Some? ==> (r.value.Cte? && r.value.name == "joined" && r.value.body.Join?
      && r.value.body.columns == columns && r.value.body.on == JoinConditions(conds))
  {
    var on := JoinConditions(conds);
    if joinType == "left" then Some(Cte("joined", Join(columns, left, right, on, true, false, [])))
    else if joinType == "leftOnly" then Some(Cte("joined", Join(columns, left, right, on, true, false, NullFilters(conds, RightNull))))
    else if joinType == "right" then Some(Cte("joined", Join(columns, right, left, on, true, false, [])))
    else if joinType == "rightOnly" then Some(Cte("joined", Join(columns, right, left, on, true, false, NullFilters(conds, LeftNull))))
    else if joinType == "inner" then Some(Cte("joined", Join(columns, left, right, on, false, false, [])))
    else if joinType == "notInner" then Some(Cte("joined", Join(columns, left, right, on, true, true, NullFilters(conds, BothNull))))
    else if joinType == "full" then Some(Cte("joined", Join(columns, left, right, on, true, true, [])))
    else None
  }

  /** The join CTE `q` with its kind of join and its filter replaced. */
  function Rejoined(q: Query, isOuter: bool, full: bool, where: seq<Cond>): Query
  {
    match q
    case Cte(name, Join(columns, driver, other, on, _, _, _)) => Cte(name, Join(columns, driver, other, on, isOuter, full, where))
    case _ => q
  }

  /**
   * How the join types relate: a right join is a left join with the sides
   * swapped; the one-sided joins are the outer ones keeping the rows the
   * other side did not match; an inner join is a left join that is not
   * outer; the not-inner join is the full join keeping the rows matched on
   * neither side.
   */
  lemma JoinVariants(conds: seq<Condition>, left: Query, right: Query, columns: Projection)
    ensures JoinQuery("right", conds, left, right, columns) == JoinQuery("left", conds, right, left, columns)
    ensures var l := JoinQuery("left", conds, left, right, columns).value;
      && JoinQuery("leftOnly", conds, left, right, columns) == Some(Rejoined(l, true, false, NullFilters(conds, RightNull)))
      && JoinQuery("inner", conds, left, right, columns) == Some(Rejoined(l, false, false, []))
      && JoinQuery("full", conds, left, right, columns) == Some(Rejoined(l, true, true, []))
    ensures var rt := JoinQuery("right", conds, left, right, columns).value;
      JoinQuery("rightOnly", conds, left, right, columns) == Some(Rejoined(rt, true, false, NullFilters(conds, LeftNull)))
    ensures var f := JoinQuery("full", conds, left, right, columns).value;
      JoinQuery("notInner", conds, left, right, columns) == Some(Rejoined(f, true, true, NullFilters(conds, BothNull)))
  {
  }

  /** The guard of the join's `perform_generate_sql` as written: `or` binds looser than `and`. */
  predicate JoinGuard(stmts: map<string, Query>, cols: map<string, ModelColumns>)
  {
    "Left" !in stmts || ("Right" !in stmts && "Left" !in cols) || "Right" !in cols
  }

  /** The action node's join type and conditions; KeyErrors when absent. */
  function JoinSpec(step: Step): (r: Result<(string, seq<Condition>)>)
    ensures r.Err? ==> r.IsFatal()
    ensures r.Ok? <==> step.actionNode.Some? && step.actionNode.value.joinType.Some? && step.actionNode.value.conditions.Some?
  {
    var action :- Required(step.actionNode, "actionNode");
    var joinType :- Required(action.joinType, "joinType");
    var conds :- Required(action.conditions, "conditions");
    Ok((joinType, conds))
  }

  /**
   * `perform_generate_sql` of a join: CTEs `left` and `right` over the
   * prepared sides, joined by the join type's builder; an unknown join type
   * leaves the result unbound.
   */
  function JoinSql(env: Env, g: Graph, id: string, stmts: map<string, Query>, cols: map<string, ModelColumns>): (r: Result<Query>)
    ensures JoinGuard(stmts, cols) ==> r == Err(NotRecognised(UnknownStep))
    ensures r.Err? && !r.IsFatal() ==> JoinGuard(stmts, cols)
    ensures r.Ok? ==> r.value.Cte? && r.value.name == "joined"
  {
    if JoinGuard(stmts, cols) then Err(NotRecognised(UnknownStep))
    else
      var node :- NodeById(g, id);
      var spec :- JoinSpec(node.raw);
      if "Right" !in stmts then Err(MissingKey("Right"))
      else if "Left" !in cols then Err(MissingKey("Left"))
      else
        var left := Cte("left", SelectFrom(Every, "", stmts["Left"]));
        var right := Cte("right", SelectFrom(Every, "", stmts["Right"]));
        var columns := ToItems(JoinedColumns(env, cols["Left"], cols["Right"]), false);
        match JoinQuery(spec.0, spec.1, left, right, columns)
        case Some(q) => Ok(q)
        case None => Err(Fatal("UnboundLocalError: stmts"))
  }

  /**
   * Over the prepared statements and columns the guard as written means
   * what it should, both sides present, and no KeyError can follow it: the
   * join succeeds exactly when both sides are there, the node is, and its
   * action node holds a known join type and conditions.
   */
  lemma JoinSqlCases(env: Env, g: Graph, id: string)
    requires PreStatements(env, g, id).Ok? && PreColumns(g, id).Ok?
    ensures var stmts := PreStatements(env, g, id).value; var cols := PreColumns(g, id).value;
      && (JoinGuard(stmts, cols) <==> !("Left" in stmts && "Right" in stmts))
      && (JoinSql(env, g, id, stmts, cols).Ok? <==>
            "Left" in stmts && "Right" in stmts && id in g.data && JoinSpec(g.data[id].raw).Ok?
            && JoinSpec(g.data[id].raw).value.0 in JoinTypes)
  {
    PreKeysAgree(env, g, id);
  }

  /** The join as the translator runs it, with the condition and filter loops. */
  method JoinGenerateSql(env: Env, g: Graph, id: string, stmts: map<string, Query>, cols: map<string, ModelColumns>)
    returns (r: Result<Query>)
    ensures r == JoinSql(env, g, id, stmts, cols)
  {
    if JoinGuard(stmts, cols) {
      return Err(NotRecognised(UnknownStep));
    }
    var node :- NodeById(g, id);
    var spec :- JoinSpec(node.raw);
    if "Right" !in stmts {
      return Err(MissingKey("Right"));
    }
    if "Left" !in cols {
      return Err(MissingKey("Left"));
    }
    var joinType, conds := spec.0, spec.1;
    var left := Cte("left", SelectFrom(Every, "", stmts["Left"]));
    var right := Cte("right", SelectFrom(Every, "", stmts["Right"]));
    var joined := CalculateJoinedColumns(env, cols["Left"], cols["Right"]);
    var columns := ToItems(joined, false);
    var on := CalculateConditions(conds);
    if joinType == "left" {
      r := Ok(Cte("joined", Join(columns, left, right, on, true, false, [])));
    } else if joinType == "leftOnly" {
      var filters := BuildNullFilters(conds, RightNull);
      r := Ok(Cte("joined", Join(columns, left, right, on, true, false, filters)));
    } else if joinType == "right" {
      r := Ok(Cte("joined", Join(columns, right, left, on, true, false, [])));
    } else if joinType == "rightOnly" {
      var filters := BuildNullFilters(conds, LeftNull);
      r := Ok(Cte("joined", Join(columns, right, left, on, true, false, filters)));
    } else if joinType == "inner" {
      r := Ok(Cte("joined", Join(columns, left, right, on, false, false, [])));
    } else if joinType == "notInner" {
      var filters := BuildNullFilters(conds, BothNull);
      r := Ok(Cte("joined", Join(columns, left, right, on, true, true, filters)));
    } else if joinType == "full" {
      r := Ok(Cte("joined", Join(columns, left, right, on, true, true, [])));
    } else {
      r := Err(Fatal("UnboundLocalError: stmts"));
    }
  }

  // ---------------------------------------------------------------------
  // SuperAggregate

  /** `__calculate_aggregate_column`: the SQL function for a Tableau aggregation, none for an unsupported one. */
  function AggregateFunction(name: string): (r: Option<string>)
  {
    if name == "SUM" then Some("SUM")
    else if name == "AVG" then Some("AVG")
    else if name == "MEDIAN" then Some("MEDIAN")
    else if name == "COUNT" then Some("COUNT")
    else if name == "COUNTD" then Some("COUNT DISTINCT")
    else if name == "MIN" then Some("MIN")
    else if name == "MAX" then Some("MAX")
    else if name == "STDEV" then Some("STDDEV")
    else if name == "STDEVP" then Some("STDDEV_POP")
    else if name == "VAR" then Some("VARIANCE")
    else if name == "VARP" then Some("VARIANCE_POP")
    else None
  }

  /** The eleven supported aggregations, each to its own SQL function. */
  lemma AggregateFunctionTable()
    ensures forall name :: AggregateFunction(name).Some? <==>
      name in {"SUM", "AVG", "MEDIAN", "COUNT", "COUNTD", "MIN", "MAX", "STDEV", "STDEVP", "VAR", "VARP"}
    ensures forall a, b :: AggregateFunction(a).Some? && AggregateFunction(a) == AggregateFunction(b) ==> a == b
  {
  }

  predicate KnownFunctions(fields: seq<AggregateField>)
  {
    forall k :: 0 <= k < |fields| ==> AggregateFunction(fields[k].aggregation).Some?
  }

  /** The name of a group-by or aggregate column: the new name when there is one. */
  function Label(f: AggregateField): string
  {
    if f.newColumnName.Some? then f.newColumnName.value else f.columnName
  }

  /** The aggregate expression of a field, rendered as text. */
  function Rendered(env: Env, f: AggregateField): string
    requires AggregateFunction(f.aggregation).Some?
  {
    env.renderAggregate(AggregateFunction(f.aggregation).value, f.columnName)
  }

  /** A group-by column: renamed, it keeps the old name as its expression. */
  function GroupColumn(f: AggregateField): (r: ModelColumn)
    ensures r.name == Label(f) && r.dataType == "string"
    ensures r.value == (if f.newColumnName.Some? then f.columnName else "")
  {
    if f.newColumnName.Some? then ModelColumn(f.newColumnName.value, "string", f.columnName)
    else ModelColumn(f.columnName, "string", "")
  }

  function GroupColumns(groupBy: seq<AggregateField>): (r: seq<ModelColumn>)
    ensures |r| == |groupBy|
  {
    seq(|groupBy|, k requires 0 <= k < |groupBy| => GroupColumn(groupBy[k]))
  }

  function MeasureColumns(env: Env, aggs: seq<AggregateField>): (r: seq<ModelColumn>)
    requires KnownFunctions(aggs)
    ensures |r| == |aggs|
  {
    seq(|aggs|, k requires 0 <= k < |aggs| => ModelColumn(Label(aggs[k]), "string", Rendered(env, aggs[k])))
  }

  /** The action node's group-by and aggregate fields; KeyErrors when absent. */
  function AggregateSpec(step: Step): (r: Result<(seq<AggregateField>, seq<AggregateField>)>)
    ensures r.Err? ==> r.IsFatal()
    ensures r.Ok? <==> step.actionNode.Some? && step.actionNode.value.groupByFields.Some? && step.actionNode.value.aggregateFields.Some?
  {
    var action :- Required(step.actionNode, "actionNode");
    var groupBy :- Required(action.groupByFields, "groupByFields");
    var aggs :- Required(action.aggregateFields, "aggregateFields");
    Ok((groupBy, aggs))
  }

  /** `perform_calculate_columns` of an aggregate: the group-by columns and the aggregate columns; an unsupported aggregation rejects the step. */
  function AggregatedColumns(env: Env, g: Graph, id: string): (r: Result<ModelColumns>)
    ensures r.Err? && !r.IsFatal() <==>
      id in g.data && AggregateSpec(g.data[id].raw).Ok? && !KnownFunctions(AggregateSpec(g.data[id].raw).value.1)
    ensures r.Err? && !r.IsFatal() ==> r == Err(NotRecognised(UnknownStep))
    ensures r.Ok? ==> id in g.data && AggregateSpec(g.data[id].raw).Ok?
  {
    var node :- NodeById(g, id);
    var spec :- AggregateSpec(node.raw);
    if !KnownFunctions(spec.1) then Err(NotRecognised(UnknownStep))
    else Ok(Calculated(set c | c in AggregateColumnList(env, spec.0, spec.1)))
  }

  /** The aggregate's columns are named after its fields, group-by columns first in the list, and keep the group-by source columns. */
  lemma AggregatedColumnsContents(env: Env, g: Graph, id: string)
    requires AggregatedColumns(env, g, id).Ok?
    ensures var spec := AggregateSpec(g.data[id].raw).value; var r := AggregatedColumns(env, g, id).value;
      && Names(r) == (set f | f in spec.0 + spec.1 :: Label(f))
      && (r.IsApplicable() <==> spec.0 + spec.1 != [])
      && (forall f :: f in spec.0 ==> GroupColumn(f) in r.Value())
      && (forall c :: c in r.Value() ==> c.dataType == "string")
  {
    var spec := AggregateSpec(g.data[id].raw).value;
    var all := AggregateColumnList(env, spec.0, spec.1);
    LabelledNames(all, spec.0 + spec.1);
    forall f | f in spec.0 ensures f in spec.0 + spec.1 && GroupColumn(f) in all {
      var k :| 0 <= k < |spec.0| && spec.0[k] == f;
      assert all[k] == GroupColumn(f);
    }
    if spec.0 + spec.1 != [] {
      assert all[0] in all;
    }
  }

  /** The aggregate's column list, group-by columns first: one column per field, named after it. */
  function AggregateColumnList(env: Env, groupBy: seq<AggregateField>, aggs: seq<AggregateField>): (r: seq<ModelColumn>)
    requires KnownFunctions(aggs)
    ensures |r| == |groupBy + aggs|
    ensures forall k :: 0 <= k < |r| ==> r[k].name == Label((groupBy + aggs)[k]) && r[k].dataType == "string"
    ensures forall k :: 0 <= k < |groupBy| ==> r[k] == GroupColumn(groupBy[k])
  {
    GroupColumns(groupBy) + MeasureColumns(env, aggs)
  }

  /** Columns named one per field after the field's label carry exactly the fields' labels. */
  lemma LabelledNames(all: seq<ModelColumn>, fields: seq<AggregateField>)
    requires |all| == |fields| && forall k :: 0 <= k < |all| ==> all[k].name == Label(fields[k])
    ensures NamesOf(set c | c in all) == set f | f in fields :: Label(f)
  {
    var s := set c | c in all;
    forall n | n in (set f | f in fields :: Label(f)) ensures n in NamesOf(s) {
      var f :| f in fields && Label(f) == n;
      var k :| 0 <= k < |fields| && fields[k] == f;
      assert all[k] in s;
    }
    forall n | n in NamesOf(s) ensures n in (set f | f in fields :: Label(f)) {
      var c :| c in s && c.name == n;
      var k :| 0 <= k < |all| && all[k] == c;
      assert fields[k] in fields;
    }
  }

  /** `perform_calculate_columns` of an aggregate: the two loops collecting the columns. */
  method AggregateCalculateColumns(env: Env, g: Graph, id: string) returns (r: Result<ModelColumns>)
    ensures r == AggregatedColumns(env, g, id)
  {
    var node :- NodeById(g, id);
    var spec :- AggregateSpec(node.raw);
    var groupBy, aggs := spec.0, spec.1;
    var newColumns: seq<ModelColumn> := [];
    for i := 0 to |groupBy|
      invariant newColumns == GroupColumns(groupBy[..i])
    {
      newColumns := newColumns + [GroupColumn(groupBy[i])];
    }
    assert groupBy[..|groupBy|] == groupBy;
    for i := 0 to |aggs|
      invariant KnownFunctions(aggs[..i])
      invariant newColumns == GroupColumns(groupBy) + MeasureColumns(env, aggs[..i])
    {
      var f := aggs[i];
      var fn := AggregateFunction(f.aggregation);
      if fn.None? {
        return Err(NotRecognised(UnknownStep));
      }
      newColumns := newColumns + [ModelColumn(Label(f), "string", env.renderAggregate(fn.value, f.columnName))];
    }
    assert aggs[..|aggs|] == aggs;
    r := Ok(Calculated(set c | c in newColumns));
  }

  function GroupItems(groupBy: seq<AggregateField>): (r: seq<Item>)
    ensures |r| == |groupBy|
  {
    seq(|groupBy|, k requires 0 <= k < |groupBy| => Labelled(Col(groupBy[k].columnName, false), Label(groupBy[k])))
  }

  function MeasureItems(env: Env, aggs: seq<AggregateField>): (r: seq<Item>)
    requires KnownFunctions(aggs)
    ensures |r| == |aggs|
  {
    seq(|aggs|, k requires 0 <= k < |aggs| => Labelled(Col(Rendered(env, aggs[k]), false), Label(aggs[k])))
  }

  /** The value of a one-entry dictionary: `list(d.values())[0]`. */
  function OnlyValue<V>(m: map<string, V>): (r: V)
    requires |m| == 1
    ensures forall k :: k in m ==> m[k] == r
  {
    SingleKey(m);
    var k :| k in m;
    m[k]
  }

  lemma SingleKey<V>(m: map<string, V>)
    requires |m| == 1
    ensures forall a, b :: a in m && b in m ==> a == b
  {
    forall a, b | a in m && b in m ensures a == b {
      assert |m.Keys| == |m| == 1;
      assert |m.Keys - {a}| == |m.Keys| - 1 == 0;
      assert b !in m.Keys - {a};
    }
  }

  /**
   * `perform_generate_sql` of an aggregate: CTE `aggregate` selecting the
   * group-by columns and the aggregates from the one prepared parent,
   * grouped by the group-by columns.
   */
  function AggregateSql(env: Env, g: Graph, id: string, stmts: map<string, Query>): (r: Result<Query>)
    ensures r.Err? && !r.IsFatal() ==> r == Err(NotRecognised(UnknownStep))
    ensures r.Err? && !r.IsFatal() <==> (|stmts| != 1 ||
      (id in g.data && AggregateSpec(g.data[id].raw).Ok? && !KnownFunctions(AggregateSpec(g.data[id].raw).value.1)))
    ensures r.Ok? ==> |stmts| == 1 && id in g.data && AggregateSpec(g.data[id].raw).Ok?
  {
    if |stmts| != 1 then Err(NotRecognised(UnknownStep))
    else
      var node :- NodeById(g, id);
      var parent := OnlyValue(stmts);
      var spec :- AggregateSpec(node.raw);
      if !KnownFunctions(spec.1) then Err(NotRecognised(UnknownStep))
      else
        Ok(Cte("aggregate", Select(Ordered(AggregateItemList(env, spec.0, spec.1)), [], node.name, parent, [], GroupItems(spec.0))))
  }

  /**
   * The aggregate's SQL and its columns agree: from one prepared parent,
   * they succeed together, and the SELECT list labels exactly the columns
   * computed; the GROUP BY is the list's first part, one item per group-by
   * field.
   */
  lemma AggregateAgrees(env: Env, g: Graph, id: string, stmts: map<string, Query>)
    requires |stmts| == 1
    ensures AggregateSql(env, g, id, stmts).Ok? <==> AggregatedColumns(env, g, id).Ok?
    ensures AggregateSql(env, g, id, stmts).Ok? ==>
      var q := AggregateSql(env, g, id, stmts).value.body;
      && q.Select? && q.columns.Ordered?
      && (set k | 0 <= k < |q.columns.list| :: q.columns.list[k].asName) == Names(AggregatedColumns(env, g, id).value)
      && |q.groupBy| == |AggregateSpec(g.data[id].raw).value.0|
      && q.columns.list[..|q.groupBy|] == q.groupBy
  {
    if AggregateSql(env, g, id, stmts).Ok? {
      AggregatedColumnsContents(env, g, id);
      var spec := AggregateSpec(g.data[id].raw).value;
      LabelledItems(AggregateItemList(env, spec.0, spec.1), spec.0 + spec.1);
    }
  }

  /** The aggregate's SELECT list, group-by items first: one item per field, labelled after it. */
  function AggregateItemList(env: Env, groupBy: seq<AggregateField>, aggs: seq<AggregateField>): (r: seq<Item>)
    requires KnownFunctions(aggs)
    ensures |r| == |groupBy + aggs|
    ensures forall k :: 0 <= k < |r| ==> r[k].Labelled? && r[k].asName == Label((groupBy + aggs)[k])
    ensures r[..|groupBy|] == GroupItems(groupBy)
  {
    GroupItems(groupBy) + MeasureItems(env, aggs)
  }

  /** Items labelled one per field after the field's label carry exactly the fields' labels. */
  lemma LabelledItems(items: seq<Item>, fields: seq<AggregateField>)
    requires |items| == |fields|
    requires forall k :: 0 <= k < |items| ==> items[k].Labelled? && items[k].asName == Label(fields[k])
    ensures (set k | 0 <= k < |items| :: items[k].asName) == set f | f in fields :: Label(f)
  {
    var labels := set k | 0 <= k < |items| :: items[k].asName;
    forall n | n in labels ensures n in (set f | f in fields :: Label(f)) {
      var k :| 0 <= k < |items| && items[k].asName == n;
      assert fields[k] in fields;
    }
    forall n | n in (set f | f in fields :: Label(f)) ensures n in labels {
      var f :| f in fields && Label(f) == n;
      var k :| 0 <= k < |fields| && fields[k] == f;
    }
  }

  /** `perform_generate_sql` of an aggregate: the two loops collecting the SELECT and GROUP BY lists. */
  method AggregateGenerateSql(env: Env, g: Graph, id: string, stmts: map<string, Query>) returns (r: Result<Query>)
    ensures r == AggregateSql(env, g, id, stmts)
  {
    if |stmts| != 1 {
      return Err(NotRecognised(UnknownStep));
    }
    var node :- NodeById(g, id);
    var parent := OnlyValue(stmts);
    var spec :- AggregateSpec(node.raw);
    var groupBy, aggs := spec.0, spec.1;
    var newColumns: seq<Item> := [];
    var groupByColumns: seq<Item> := [];
    for i := 0 to |groupBy|
      invariant newColumns == groupByColumns == GroupItems(groupBy[..i])
    {
      var column := Labelled(Col(groupBy[i].columnName, false), Label(groupBy[i]));
      newColumns := newColumns + [column];
      groupByColumns := groupByColumns + [column];
    }
    assert groupBy[..|groupBy|] == groupBy;
    for i := 0 to |aggs|
      invariant KnownFunctions(aggs[..i])
      invariant newColumns == GroupItems(groupBy) + MeasureItems(env, aggs[..i])
    {
      var f := aggs[i];
      var fn := AggregateFunction(f.aggregation);
      if fn.None? {
        return Err(NotRecognised(UnknownStep));
      }
      newColumns := newColumns + [Labelled(Col(env.renderAggregate(fn.value, f.columnName), false), Label(f))];
    }
    assert aggs[..|aggs|] == aggs;
    r := Ok(Cte("aggregate", Select(Ordered(newColumns), [], node.name, parent, [], groupByColumns)));
  }

  // ---------------------------------------------------------------------
  // SuperTransform

  /**
   * A transform passes its one prepared parent through, columns
   * (`perform_calculate_columns`) and statement (`perform_generate_sql`)
   * alike; more or fewer parents are the recoverable failure.
   */
  function TransformPassThrough<T>(prepared: map<string, T>): (r: Result<T>)
    ensures r.Ok? <==> |prepared| == 1
    ensures r.Err? ==> r == Err(NotRecognised(UnknownStep))
    ensures r.Ok? ==> forall ns :: ns in prepared ==> prepared[ns] == r.value
  {
    if |prepared| != 1 then Err(NotRecognised(UnknownStep)) else Ok(OnlyValue(prepared))
  }

  // ---------------------------------------------------------------------
  // The mixin wrappers

  /** The converters that apply before- and after-annotations around their own step. */
  predicate RunsAnnotations(kind: NodeKind)
  {
    kind == SuperJoin || kind == SuperAggregate || kind == SuperTransform
  }

  /** `perform_calculate_columns` of the annotated converters, given the prepared parent columns. */
  function ActionColumns(env: Env, kind: NodeKind, g: Graph, id: string, pre: map<string, ModelColumns>): Result<ModelColumns>
    requires RunsAnnotations(kind)
  {
    match kind
    case SuperJoin => JoinColumns(env, pre)
    case SuperAggregate => AggregatedColumns(env, g, id)
    case SuperTransform => TransformPassThrough(pre)
  }

  /** `perform_generate_sql` of the annotated converters, given the prepared parent statements and columns. */
  function ActionSql(env: Env, kind: NodeKind, g: Graph, id: string, stmts: map<string, Query>, cols: map<string, ModelColumns>)
    : Result<Query>
    requires RunsAnnotations(kind)
  {
    match kind
    case SuperJoin => JoinSql(env, g, id, stmts, cols)
    case SuperAggregate => AggregateSql(env, g, id, stmts)
    case SuperTransform => TransformPassThrough(stmts)
  }

  /** The converter's own column computation, run once it has accepted the step. */
  function PerformStepColumns(env: Env, kind: NodeKind, g: Graph, id: string): Result<ModelColumns>
    requires kind != UnknownNode
  {
    match kind
    case LoadSql | LoadSqlProxy | LoadCsv | LoadCsvInputUnion | LoadExcel => FieldColumns(g, id)
    case Container => ContainerColumns(g, id)
    case WriteToHyper => HyperColumns(g, id)
    case SuperJoin | SuperAggregate | SuperTransform =>
      var pre :- PreColumns(g, id);
      var calculated :- ActionColumns(env, kind, g, id, pre);
      PostColumns(g, id, calculated)
  }

  /**
   * `calculate_columns`: unknown for a step the converter rejects or that
   * raises UnknownNodeException on the way, the converter's columns
   * otherwise. Only a fatal failure escapes.
   */
  function StepColumns(env: Env, kind: NodeKind, g: Graph, id: string): (r: Result<ModelColumns>)
    ensures r.Err? ==> r.IsFatal()
    ensures kind == UnknownNode ==> r == Ok(Unknown)
    ensures kind != UnknownNode ==> (r.Err? <==> id !in g.data || (Validates(kind, g.data[id].raw) && PerformStepColumns(env, kind, g, id).IsFatal()))
    ensures kind != UnknownNode && id in g.data && !Validates(kind, g.data[id].raw) ==> r == Ok(Unknown)
    ensures kind != UnknownNode && id in g.data && Validates(kind, g.data[id].raw) ==>
      (PerformStepColumns(env, kind, g, id).Ok? ==> r == PerformStepColumns(env, kind, g, id))
      && (PerformStepColumns(env, kind, g, id).Err? && !PerformStepColumns(env, kind, g, id).IsFatal() ==> r == Ok(Unknown))
  {
    if kind == UnknownNode then Ok(Unknown)
    else
      var node :- NodeById(g, id);
      if !Validates(kind, node.raw) then Ok(Unknown)
      else Recover(PerformStepColumns(env, kind, g, id), Unknown)
  }

  /**
   * A transform all of whose parents have unknown columns gets unknown
   * columns, whatever its annotations: below a step whose columns are
   * unknown, transforms stay unknown.
   */
  lemma TransformOfUnknown(env: Env, g: Graph, id: string)
    requires id in g.parents ==> forall p :: p in g.parents[id] && p in g.data ==> g.data[p].modelColumns == Unknown
    ensures StepColumns(env, SuperTransform, g, id).Ok? ==> StepColumns(env, SuperTransform, g, id).value == Unknown
  {
    if id in g.parents {
      GatherConstant(g, g.parents[id], map["Default" := Unknown], (n: Node) => n.modelColumns, Unknown);
    }
    var pre := PreColumns(g, id);
    if id in g.data && pre.Ok? {
      var parents := AllParentColumns(g, id).value;
      assert forall ns :: ns in pre.value ==> pre.value[ns] == Unknown by {
        match g.data[id].raw.beforeActionAnnotations
        case None =>
        case Some(refs) =>
          PreColumnsPerNamespace(refs, parents);
      }
      var calculated := TransformPassThrough(pre.value);
      if calculated.Ok? {
        assert calculated.value == Unknown;
      }
    }
  }

  /** The stages of the annotated converters read the step, its parents and their data alone. */
  lemma AnnotatedStagesLocal(env: Env, kind: NodeKind, g: Graph, h: Graph, id: string)
    requires RunsAnnotations(kind) && SameInputs(g, h, id)
    ensures PreColumns(g, id) == PreColumns(h, id)
    ensures forall pre :: ActionColumns(env, kind, g, id, pre) == ActionColumns(env, kind, h, id, pre)
    ensures forall cols :: PostColumns(g, id, cols) == PostColumns(h, id, cols)
  {
    AllParentColumnsLocal(g, h, id);
  }

  /** The converter's own computation reads the step, its parents and their data alone. */
  lemma PerformStepColumnsLocal(env: Env, kind: NodeKind, g: Graph, h: Graph, id: string)
    requires kind != UnknownNode && SameInputs(g, h, id)
    ensures PerformStepColumns(env, kind, g, id) == PerformStepColumns(env, kind, h, id)
  {
    AllParentColumnsLocal(g, h, id);
    if RunsAnnotations(kind) {
      AnnotatedStagesLocal(env, kind, g, h, id);
    }
  }

  /**
   * A step's columns depend on the step itself, its parents and their data
   * alone: the rest of the graph, and the step's own columns, play no part.
   */
  lemma StepColumnsLocal(env: Env, kind: NodeKind, g: Graph, h: Graph, id: string)
    requires SameInputs(g, h, id)
    ensures StepColumns(env, kind, g, id) == StepColumns(env, kind, h, id)
  {
    if kind != UnknownNode {
      PerformStepColumnsLocal(env, kind, g, h, id);
    }
  }

  /** `perform_generate_dbt_models` of the annotated converters: prepare, convert, finish, one model. */
  function AnnotatedModels(env: Env, kind: NodeKind, g: Graph, id: string): (r: Result<DbtModels>)
    requires RunsAnnotations(kind)
    ensures r.Ok? ==> (id in g.data && |r.value.models| == 1
      && r.value.models[0].modelName == g.data[id].modelName.Value() && r.value.models[0].resourceType == "model"
      && r.value.models[0].sql.Some? && r.value.models[0].yml == ModelYml(env, g, id).value)
    ensures r.Ok? ==> (PreColumns(g, id).Ok? && ActionColumns(env, kind, g, id, PreColumns(g, id).value).Ok?
      && PreStatements(env, g, id).Ok?)
  {
    var node :- NodeById(g, id);
    var pre :- PreColumns(g, id);
    var calculated :- ActionColumns(env, kind, g, id, pre);
    var preStmts :- PreStatements(env, g, id);
    var stmts :- ActionSql(env, kind, g, id, preStmts, pre);
    var sql :- PostSql(env, g, id, calculated, stmts);
    Ok(DbtModels([DbtModel(Some(sql), ModelYml(env, g, id).value, node.modelName.Value(), "model")]))
  }

  /** The converter's own models, run once it has accepted the step. */
  function PerformStepModels(env: Env, kind: NodeKind, g: Graph, id: string): Result<DbtModels>
    requires kind != UnknownNode
  {
    match kind
    case LoadSql | LoadSqlProxy | LoadCsv | LoadCsvInputUnion | LoadExcel => LoaderModels(env, g, id)
    case Container => SingleModel(env, g, id, ContainerSql(env, g, id))
    case WriteToHyper => SingleModel(env, g, id, HyperSql(env, g, id))
    case SuperJoin | SuperAggregate | SuperTransform => AnnotatedModels(env, kind, g, id)
  }

  /**
   * `generate_dbt_models`: the unknown-node models for a step the converter
   * rejects or that raises UnknownNodeException on the way, the converter's
   * models otherwise. Only a fatal failure escapes.
   */
  function StepModels(env: Env, kind: NodeKind, g: Graph, id: string): (r: Result<DbtModels>)
    ensures r.Err? ==> r.IsFatal()
    ensures kind == UnknownNode ==> r == UnknownModels(env, g, id)
    ensures kind != UnknownNode && id in g.data && !Validates(kind, g.data[id].raw) ==> r == UnknownModels(env, g, id)
    ensures kind != UnknownNode && id in g.data && Validates(kind, g.data[id].raw) ==>
      (PerformStepModels(env, kind, g, id).Ok? ==> r == PerformStepModels(env, kind, g, id))
      && (PerformStepModels(env, kind, g, id).Err? && !PerformStepModels(env, kind, g, id).IsFatal() ==> r == UnknownModels(env, g, id))
  {
    if kind == UnknownNode then UnknownModels(env, g, id)
    else
      var node :- NodeById(g, id);
      if !Validates(kind, node.raw) then UnknownModels(env, g, id)
      else
        var models := PerformStepModels(env, kind, g, id);
        if models.Err? && models.failure.NotRecognised? then UnknownModels(env, g, id) else models
  }

  // ---------------------------------------------------------------------
  // Fallbacks, step by step

  /** A join whose prepared parents lack a side is translated as an unknown step. */
  lemma JoinWithoutBothSides(env: Env, g: Graph, id: string)
    requires id in g.data && Validates(SuperJoin, g.data[id].raw)
    requires PreColumns(g, id).Ok? && !("Left" in PreColumns(g, id).value && "Right" in PreColumns(g, id).value)
    ensures StepColumns(env, SuperJoin, g, id) == Ok(Unknown)
    ensures StepModels(env, SuperJoin, g, id) == UnknownModels(env, g, id)
  {
  }

  /** An aggregate using an aggregation the translator does not support is translated as an unknown step. */
  lemma AggregateWithUnsupportedFunction(env: Env, g: Graph, id: string, k: nat)
    requires id in g.data && Validates(SuperAggregate, g.data[id].raw) && PreColumns(g, id).Ok?
    requires var aggs := g.data[id].raw.actionNode.value.aggregateFields.value;
      k < |aggs| && AggregateFunction(aggs[k].aggregation).None?
    ensures StepColumns(env, SuperAggregate, g, id) == Ok(Unknown)
    ensures StepModels(env, SuperAggregate, g, id) == UnknownModels(env, g, id)
  {
  }

  /**
   * A transform with one parent on `Default` and no annotations passes its
   * parent's columns through unchanged.
   */
  lemma TransformPassesThrough(env: Env, g: Graph, id: string)
    requires id in g.data && g.data[id].raw.beforeActionAnnotations == Some([])
    requires g.data[id].raw.afterActionAnnotations.None?
    requires AllParentColumns(g, id).Ok? && AllParentColumns(g, id).value.Keys == {"Default"}
    ensures StepColumns(env, SuperTransform, g, id) == Ok(AllParentColumns(g, id).value["Default"])
  {
    assert AllParentColumns(g, id).value.Keys == {"Default"};
    assert |AllParentColumns(g, id).value| == 1;
  }
}
