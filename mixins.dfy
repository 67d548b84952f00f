/**
 * What every step converter shares.
 *
 * The unknown-node fallback: a step whose converter rejects it (or that no
 * converter handles) becomes a node with unknown columns whose SQL passes its
 * parents through. The annotation folds: a SuperJoin, SuperAggregate or
 * SuperTransform step first applies its `beforeActionAnnotations` to the
 * parents it reads, namespace by namespace, and afterwards applies its
 * `afterActionAnnotations` to its own result. Each annotation step flushes
 * the expressions of the columns it receives and then runs the annotation's
 * converter.
 */
module NodeMixins {
  import opened Outcome
  import opened PyText
  import opened Flow
  import opened SqlAst
  import opened Columns
  import opened FlowGraph
  import opened Registry
  import opened Dbt
  import opened Metadata
  import opened Annotations

  /** A node as a converter's `generate_graph` builds it from a step: no model name yet. */
  function NodeOf(step: Step, name: string, cols: ModelColumns, isUnknown: bool): Node
  {
    Node(step.id, name, step.nodeType, step, NameNotApplicable, cols, isUnknown)
  }

  /**
   * The graph of one step: the node under its id and one edge to every
   * `nextNodeId`, which become nodes without data.
   */
  lemma StepGraphContents(node: Node)
    ensures var g := SingleNodeGraph(node);
      && ValidGraph(g)
      && g.data == map[node.id := node]
      && Nodes(g) == {node.id} + (set t | t in Targets(node.raw))
      && (forall a, b :: IsEdge(g, a, b) <==> a == node.id && b in Targets(node.raw))
  {
    WithNodeAndEdgesValid(Empty(), node);
  }

  // ---------------------------------------------------------------------
  // Unknown nodes

  /** `generate_unknown_graph`: the step as a node marked unknown, with unknown columns; its `name` is read unguarded. */
  function UnknownGraph(step: Step): (r: Result<Graph>)
    ensures r.Ok? <==> step.name.Some?
    ensures r.Err? ==> r == Err(MissingKey("name"))
    ensures r.Ok? ==> r.value == SingleNodeGraph(NodeOf(step, step.name.value, Unknown, true))
  {
    if step.name.None? then Err(MissingKey("name"))
    else Ok(SingleNodeGraph(NodeOf(step, step.name.value, Unknown, true)))
  }

  /** `generate_unknown_graph`, filling a fresh graph. */
  method GenerateUnknownGraph(step: Step) returns (r: Result<Dag>)
    ensures r.Ok? <==> UnknownGraph(step).Ok?
    ensures r.Ok? ==> fresh(r.value) && r.value.Valid() && r.value.View() == UnknownGraph(step).value
    ensures r.Err? ==> UnknownGraph(step) == Err(r.failure)
  {
    if step.name.None? {
      return Err(MissingKey("name"));
    }
    var dag := new Dag();
    dag.AddNodeWithEdge(NodeOf(step, step.name.value, Unknown, true));
    r := Ok(dag);
  }

  /** The comment of an unknown node's SQL, naming the step. */
  const NotImplementedNote := "このステップは変換仕様が未実装です。 "

  /**
   * Zero parents: select every column of a stand-in source table
   * `source__<model name, or the display name before names are built>`,
   * aliased `source`, referred to through a source tag.
   */
  function NoParentSql(env: Env, g: Graph, id: string): (r: Result<Sql>)
    ensures r.Ok? <==> id in g.data
    ensures r.Err? ==> r.IsFatal()
    ensures r.Ok? ==> var node := g.data[id]; var source := "source__" + ReferenceName(node);
      && r.value.statements == Cte("final", SelectFrom(Every, NotImplementedNote + node.name,
                                                     Alias(Table(source, ToItems(node.modelColumns, false)), "source")))
      && r.value.dbtSql == Retagged(r.value.compiledSql, [source], "source", env.sourceName)
  {
    var node :- NodeById(g, id);
    var source := "source__" + ReferenceName(node);
    var table := Alias(Table(source, ToItems(node.modelColumns, false)), "source");
    Ok(SourceReferenceSql(env, Cte("final", SelectFrom(Every, NotImplementedNote + node.name, table)), [source]))
  }

  /** One parent: select the parent's columns, with their expressions, from the parent aliased `source`, through a ref tag. */
  function SingleParentSql(env: Env, g: Graph, id: string, parent: string): (r: Result<Sql>)
    ensures r.Ok? <==> parent in g.data && id in g.data
    ensures r.Err? ==> r.IsFatal()
    ensures r.Ok? ==> var p := g.data[parent];
      && r.value.statements == Cte("final", SelectFrom(ToItems(p.modelColumns, true), NotImplementedNote + g.data[id].name,
                                                     Alias(p.ToTable(""), "source")))
      && r.value.dbtSql == Retagged(r.value.compiledSql, [p.modelName.Value()], "model", "")
  {
    var p :- NodeById(g, parent);
    var node :- NodeById(g, id);
    var q := Cte("final", SelectFrom(ToItems(p.modelColumns, true), NotImplementedNote + node.name, Alias(p.ToTable(""), "source")));
    Ok(ModelReferenceSql(env, q, [p.modelName.Value()]))
  }

  /** `select(Table(name, Column("*")))`: everything of one parent. */
  function StarOf(name: string): Query
  {
    SelectFrom(Every, "", Table(name, Ordered([Col("*", false)])))
  }

  /**
   * Two or more parents: the UNION ALL of everything of every parent, in
   * parent order, through ref tags. The comment the translator attaches to
   * the union does not reach the output, so the tree carries none; the node's
   * name is still read.
   */
  function MultiParentSql(env: Env, g: Graph, id: string): (r: Result<Sql>)
    ensures r.Ok? <==> ParentModelNames(g, id).Ok? && id in g.data
    ensures r.Err? ==> r.IsFatal()
    ensures r.Ok? ==> var names := ParentModelNames(g, id).value;
      && r.value.statements.Cte? && r.value.statements.name == "final"
      && r.value.statements.body == UnionAll(seq(|names|, i requires 0 <= i < |names| => StarOf(names[i])))
      && r.value.dbtSql == Retagged(r.value.compiledSql, names, "model", "")
  {
    var names :- ParentModelNames(g, id);
    var _ :- NodeById(g, id);
    var parts := seq(|names|, i requires 0 <= i < |names| => StarOf(names[i]));
    Ok(ModelReferenceSql(env, Cte("final", UnionAll(parts)), names))
  }

  /** `generate_unknown_sql`: the shape is chosen by the number of parents. */
  function UnknownSql(env: Env, g: Graph, id: string): (r: Result<Sql>)
    ensures r.Err? ==> r.IsFatal()
    ensures r.Ok? ==> id in g.parents && r.value.statements.Cte? && r.value.statements.name == "final"
  {
    var ids :- ParentIds(g, id);
    if |ids| == 0 then NoParentSql(env, g, id)
    else if |ids| == 1 then SingleParentSql(env, g, id, ids[0])
    else MultiParentSql(env, g, id)
  }

  /**
   * `generate_unknown_sql` succeeds exactly when the node and the parents it
   * reads have data, and then each parent's name is turned into its tag
   * wherever the compiled text mentions it.
   */
  lemma UnknownSqlCases(env: Env, g: Graph, id: string)
    requires ValidGraph(g) && id in g.parents
    ensures var ids := g.parents[id];
      UnknownSql(env, g, id).Ok? <==> id in g.data && forall p :: p in ids ==> p in g.data
  {
    var ids := g.parents[id];
    if |ids| == 1 {
      assert forall p :: p in ids ==> p == ids[0];
    } else if |ids| >= 2 {
      if id in g.data && forall p :: p in ids ==> p in g.data {
        assert forall i :: 0 <= i < |ids| ==> ids[i] in ids;
      }
      if ModelNamesOf(g, ids).Ok? {
        forall p | p in ids ensures p in g.data {
          var i :| 0 <= i < |ids| && ids[i] == p;
        }
      }
    }
  }

  /** With no parent, a compiled text mentioning the stand-in source table refers to it through the configured source. */
  lemma NoParentSourceTagged(env: Env, g: Graph, id: string)
    requires id in g.parents && g.parents[id] == [] && id in g.data
    requires Contains(UnknownSql(env, g, id).value.compiledSql, "source__" + ReferenceName(g.data[id]))
    ensures var sql := UnknownSql(env, g, id).value;
      Contains(sql.dbtSql, SourceTag(env.sourceName, "source__" + ReferenceName(g.data[id])))
  {
    var sql := UnknownSql(env, g, id).value;
    ReferenceSqlTags(env, sql.statements, "source__" + ReferenceName(g.data[id]));
  }

  /**
   * `generate_unknown_dbt_models`: the model; with no parent also the
   * stand-in source `source__<model name>`, without SQL.
   */
  function UnknownModels(env: Env, g: Graph, id: string): (r: Result<DbtModels>)
    ensures r.Err? ==> r.IsFatal()
    ensures r.Ok? <==> id in g.data && UnknownSql(env, g, id).Ok?
    ensures r.Ok? ==> var ms := r.value.models; var node := g.data[id];
      && id in g.parents
      && |ms| == (if g.parents[id] == [] then 2 else 1)
      && ms[0] == DbtModel(Some(UnknownSql(env, g, id).value), ModelYml(env, g, id).value, node.modelName.Value(), "model")
      && (g.parents[id] == [] ==>
            ms[1] == DbtModel(None, SourceYml(env, g, id).value, "source__" + node.modelName.Value(), "source"))
  {
    var node :- NodeById(g, id);
    var sql :- UnknownSql(env, g, id);
    var model := ModelYml(env, g, id).value;
    if g.parents[id] == [] then
      var source := SourceYml(env, g, id).value;
      Ok(DbtModels([DbtModel(Some(sql), model, node.modelName.Value(), "model"),
                    DbtModel(None, source, "source__" + node.modelName.Value(), "source")]))
    else
      Ok(DbtModels([DbtModel(Some(sql), model, node.modelName.Value(), "model")]))
  }

  // ---------------------------------------------------------------------
  // Annotation folds

  /** One annotation step: flush, then the annotation's converter. */
  function Annotated(a: Annotation, mc: ModelColumns): ModelColumns
  {
    ColumnsAfter(AnnotationConverter(a.nodeType), a, Flushed(mc))
  }

  /**
   * The columns after annotation steps in order. Columns that are not
   * computed stay unknown through any step.
   */
  function ColumnChain(anns: seq<Annotation>, mc: ModelColumns): (r: ModelColumns)
    ensures anns != [] && !mc.IsApplicable() ==> r == Unknown
    decreases |anns|
  {
    if anns == [] then mc else ColumnChain(anns[1..], Annotated(anns[0], mc))
  }

  /**
   * The statements after annotation steps in order: each step's CTE selects
   * from the previous one, given the flushed columns before the step.
   */
  function Chain(env: Env, anns: seq<Annotation>, mc: ModelColumns, stmts: Query): (r: Result<Query>)
    ensures r.Err? ==> r.IsFatal()
    ensures r.Ok? && anns != [] ==> r.value.Cte?
    decreases |anns|
  {
    if anns == [] then Ok(stmts)
    else
      var kind := AnnotationConverter(anns[0].nodeType);
      StatementsAreCtes(env, kind, anns[0], Flushed(mc), stmts);
      var next :- StatementsFor(env, kind, anns[0], Flushed(mc), stmts);
      Chain(env, anns[1..], Annotated(anns[0], mc), next)
  }

  /** The annotations of `beforeActionAnnotations` / `afterActionAnnotations` entries. */
  function AnnotationsOf(refs: seq<AnnotationRef>): (r: seq<Annotation>)
    ensures |r| == |refs| && forall k :: 0 <= k < |refs| ==> r[k] == refs[k].annotation
  {
    seq(|refs|, k requires 0 <= k < |refs| => refs[k].annotation)
  }

  /** The annotations of the entries on one namespace, in order. */
  function OnNamespace(refs: seq<AnnotationRef>, ns: string): (r: seq<Annotation>)
    ensures |r| <= |refs|
    ensures forall a :: a in r ==> exists k :: 0 <= k < |refs| && refs[k].namespace == ns && refs[k].annotation == a
  {
    if refs == [] then []
    else if refs[0].namespace == ns then [refs[0].annotation] + OnNamespace(refs[1..], ns)
    else OnNamespace(refs[1..], ns)
  }

  /**
   * The before-annotation fold over a map keyed by namespace: each entry, in
   * list order, rewrites its own namespace's value with `step`; a namespace
   * missing from the map is a KeyError.
   */
  function FoldByNamespace<V>(refs: seq<AnnotationRef>, m: map<string, V>, step: (Annotation, V) -> V): (r: Result<map<string, V>>)
    ensures r.Ok? ==> r.value.Keys == m.Keys
    ensures r.Err? ==> r.IsFatal()
    decreases |refs|
  {
    if refs == [] then Ok(m)
    else
      var ns := refs[0].namespace;
      if ns !in m then Err(MissingKey(ns))
      else FoldByNamespace(refs[1..], m[ns := step(refs[0].annotation, m[ns])], step)
  }

  /** Annotation steps applied in order to one value. */
  function FoldSteps<V>(anns: seq<Annotation>, v: V, step: (Annotation, V) -> V): V
    decreases |anns|
  {
    if anns == [] then v else FoldSteps(anns[1..], step(anns[0], v), step)
  }

  /** The fold fails exactly when some entry names a namespace the map lacks. */
  lemma {:induction false} FoldByNamespaceFails<V>(refs: seq<AnnotationRef>, m: map<string, V>, step: (Annotation, V) -> V)
    ensures FoldByNamespace(refs, m, step).Ok? <==> forall k :: 0 <= k < |refs| ==> refs[k].namespace in m
    decreases |refs|
  {
    if refs != [] && refs[0].namespace in m {
      var ns := refs[0].namespace;
      var m' := m[ns := step(refs[0].annotation, m[ns])];
      FoldByNamespaceFails(refs[1..], m', step);
      assert m'.Keys == m.Keys;
      assert forall k :: 1 <= k < |refs| ==> refs[1..][k - 1] == refs[k];
    }
  }

  /**
   * Each namespace's value after the fold is its own entries' steps applied
   * to its own start value: the entries on other namespaces do not touch it.
   */
  lemma {:induction false} FoldByNamespaceSeparate<V>(refs: seq<AnnotationRef>, m: map<string, V>, step: (Annotation, V) -> V)
    requires FoldByNamespace(refs, m, step).Ok?
    ensures forall ns :: ns in m ==> FoldByNamespace(refs, m, step).value[ns] == FoldSteps(OnNamespace(refs, ns), m[ns], step)
    decreases |refs|
  {
    if refs != [] {
      var ns0 := refs[0].namespace;
      var a := refs[0].annotation;
      var m' := m[ns0 := step(a, m[ns0])];
      FoldByNamespaceSeparate(refs[1..], m', step);
      forall ns | ns in m
        ensures FoldByNamespace(refs, m, step).value[ns] == FoldSteps(OnNamespace(refs, ns), m[ns], step)
      {
        if ns == ns0 {
          var rest := OnNamespace(refs[1..], ns);
          assert OnNamespace(refs, ns) == [a] + rest;
          assert ([a] + rest)[1..] == rest;
        }
      }
    }
  }

  /** The column fold is the generic fold with the flush-then-convert step. */
  lemma {:induction false} ColumnChainIsFold(anns: seq<Annotation>, mc: ModelColumns)
    ensures ColumnChain(anns, mc) == FoldSteps(anns, mc, Annotated)
    decreases |anns|
  {
    if anns != [] {
      ColumnChainIsFold(anns[1..], Annotated(anns[0], mc));
    }
  }

  /** A fold ends with its last step applied to the fold of the steps before it. */
  lemma {:induction false} FoldStepsLast<V>(anns: seq<Annotation>, v: V, step: (Annotation, V) -> V)
    requires anns != []
    ensures FoldSteps(anns, v, step) == step(anns[|anns| - 1], FoldSteps(anns[..|anns| - 1], v, step))
    decreases |anns|
  {
    var n := |anns|;
    if n > 1 {
      var rest := anns[1..];
      FoldStepsLast(rest, step(anns[0], v), step);
      assert rest[..|rest| - 1] == anns[..n - 1][1..];
      assert rest[|rest| - 1] == anns[n - 1];
    } else {
      assert anns[..n - 1] == [];
    }
  }

  /** The before-annotation fold over a map of columns: a namespace missing from the map is a KeyError. */
  function PreColumnsFrom(refs: seq<AnnotationRef>, cols: map<string, ModelColumns>): (r: Result<map<string, ModelColumns>>)
    ensures r.Ok? ==> r.value.Keys == cols.Keys
    ensures r.Err? ==> r.IsFatal()
  {
    FoldByNamespace(refs, cols, Annotated)
  }

  /** The before-annotation fold fails, with a KeyError, exactly when an annotation names a namespace no parent leads into. */
  lemma PreColumnsFromFails(refs: seq<AnnotationRef>, cols: map<string, ModelColumns>)
    ensures PreColumnsFrom(refs, cols).Ok? <==> forall k :: 0 <= k < |refs| ==> refs[k].namespace in cols
  {
    FoldByNamespaceFails(refs, cols, Annotated);
  }

  /** `pre_calculate_column`: the gathered parent columns, with the step's before-annotations applied. */
  function PreColumns(g: Graph, id: string): (r: Result<map<string, ModelColumns>>)
    ensures r.Err? ==> r.IsFatal()
    ensures r.Ok? ==> AllParentColumns(g, id).Ok? && r.value.Keys == AllParentColumns(g, id).value.Keys
  {
    var node :- NodeById(g, id);
    var parents :- AllParentColumns(g, id);
    match node.raw.beforeActionAnnotations
    case None => Ok(parents)
    case Some(refs) => PreColumnsFrom(refs, parents)
  }

  /**
   * Each namespace's entry after the fold is its own annotations applied to
   * its own start value: the entries on other namespaces do not touch it.
   */
  lemma PreColumnsPerNamespace(refs: seq<AnnotationRef>, cols: map<string, ModelColumns>)
    requires PreColumnsFrom(refs, cols).Ok?
    ensures forall ns :: ns in cols ==> PreColumnsFrom(refs, cols).value[ns] == ColumnChain(OnNamespace(refs, ns), cols[ns])
  {
    FoldByNamespaceSeparate(refs, cols, Annotated);
    forall ns | ns in cols
      ensures PreColumnsFrom(refs, cols).value[ns] == ColumnChain(OnNamespace(refs, ns), cols[ns])
    {
      ColumnChainIsFold(OnNamespace(refs, ns), cols[ns]);
    }
  }

  /** The before-annotation fold over the parents' statements, alongside their columns. */
  function PreStatementsFrom(env: Env, refs: seq<AnnotationRef>, cols: map<string, ModelColumns>, stmts: map<string, Query>)
    : (r: Result<map<string, Query>>)
    ensures r.Ok? ==> r.value.Keys == stmts.Keys
    ensures r.Ok? ==> forall k :: 0 <= k < |refs| ==> refs[k].namespace in cols && refs[k].namespace in stmts
    ensures r.Err? ==> r.IsFatal()
    decreases |refs|
  {
    if refs == [] then Ok(stmts)
    else
      var ns := refs[0].namespace;
      if ns !in cols || ns !in stmts then Err(MissingKey(ns))
      else
        var a := refs[0].annotation;
        var next :- StatementsFor(env, AnnotationConverter(a.nodeType), a, Flushed(cols[ns]), stmts[ns]);
        var r := PreStatementsFrom(env, refs[1..], cols[ns := Annotated(a, cols[ns])], stmts[ns := next]);
        assert r.Ok? ==> forall k :: 1 <= k < |refs| ==> refs[1..][k - 1] == refs[k];
        r
  }

  /** The CTE `source_<namespace>` selecting everything of a parent table. */
  function SourceCte(ns: string, table: Query): Query
  {
    Cte("source_" + ns, SelectFrom(Every, "", table))
  }

  function SourceCtes(tables: map<string, Query>): (r: map<string, Query>)
    ensures r.Keys == tables.Keys
    ensures forall ns :: ns in r ==> r[ns] == SourceCte(ns, tables[ns])
  {
    map ns | ns in tables :: SourceCte(ns, tables[ns])
  }

  /** `pre_generate_sql`: each parent as CTE `source_<namespace>`, with the step's before-annotations applied. */
  function PreStatements(env: Env, g: Graph, id: string): (r: Result<map<string, Query>>)
    ensures r.Err? ==> r.IsFatal()
    ensures r.Ok? ==> AllParentAsTable(g, id).Ok? && r.value.Keys == AllParentAsTable(g, id).value.Keys
  {
    var node :- NodeById(g, id);
    var tables :- AllParentAsTable(g, id);
    var stmts := SourceCtes(tables);
    var cols :- AllParentColumns(g, id);
    match node.raw.beforeActionAnnotations
    case None => Ok(stmts)
    case Some(refs) => PreStatementsFrom(env, refs, cols, stmts)
  }

  /** Each namespace's statement after the fold is the chain of its own annotations over its own start. */
  lemma {:induction false} PreStatementsPerNamespace(env: Env, refs: seq<AnnotationRef>, cols: map<string, ModelColumns>, stmts: map<string, Query>)
    requires PreStatementsFrom(env, refs, cols, stmts).Ok?
    ensures forall ns :: ns in cols && ns in stmts ==>
      Chain(env, OnNamespace(refs, ns), cols[ns], stmts[ns]) == Ok(PreStatementsFrom(env, refs, cols, stmts).value[ns])
    decreases |refs|
  {
    if refs != [] {
      var ns0 := refs[0].namespace;
      var a := refs[0].annotation;
      var next := StatementsFor(env, AnnotationConverter(a.nodeType), a, Flushed(cols[ns0]), stmts[ns0]).value;
      var cols' := cols[ns0 := Annotated(a, cols[ns0])];
      var stmts' := stmts[ns0 := next];
      PreStatementsPerNamespace(env, refs[1..], cols', stmts');
      forall ns | ns in cols && ns in stmts
        ensures Chain(env, OnNamespace(refs, ns), cols[ns], stmts[ns]) == Ok(PreStatementsFrom(env, refs, cols, stmts).value[ns])
      {
        if ns == ns0 {
          var rest := OnNamespace(refs[1..], ns);
          assert OnNamespace(refs, ns) == [a] + rest;
          assert ([a] + rest)[1..] == rest;
        }
      }
    }
  }

  /**
   * The gathered statements and columns agree on their namespaces: the
   * columns have every namespace the statements have, and `Default` besides.
   */
  lemma PreKeysAgree(env: Env, g: Graph, id: string)
    requires PreStatements(env, g, id).Ok? && PreColumns(g, id).Ok?
    ensures PreColumns(g, id).value.Keys == PreStatements(env, g, id).value.Keys + {"Default"}
  {
    AllParentColumnsContents(g, id);
    AllParentAsTableContents(g, id);
  }

  /** The annotations of the step's `afterActionAnnotations`; none without the key. */
  function AfterOf(step: Step): seq<Annotation>
  {
    match step.afterActionAnnotations
    case None => []
    case Some(refs) => AnnotationsOf(refs)
  }

  /** `post_calculate_column`: the step's after-annotations applied to its computed columns. */
  function PostColumns(g: Graph, id: string, cols: ModelColumns): (r: Result<ModelColumns>)
    ensures r.Ok? <==> id in g.data
    ensures r.Err? ==> r.IsFatal()
    ensures r.Ok? && g.data[id].raw.afterActionAnnotations.None? ==> r.value == cols
  {
    var node :- NodeById(g, id);
    Ok(ColumnChain(AfterOf(node.raw), cols))
  }

  /**
   * The result of a fold is the last step applied to the fold of the others,
   * so the expressions that survive are the last step's: every earlier one
   * is flushed on the way into it.
   */
  lemma {:induction false} ChainLastStep(anns: seq<Annotation>, mc: ModelColumns)
    requires anns != []
    ensures ColumnChain(anns, mc) == Annotated(anns[|anns| - 1], ColumnChain(anns[..|anns| - 1], mc))
  {
    ColumnChainIsFold(anns, mc);
    ColumnChainIsFold(anns[..|anns| - 1], mc);
    FoldStepsLast(anns, mc, Annotated);
  }

  /** An accepted filter or remap: a step that keeps the columns it is given. */
  predicate PassThrough(a: Annotation)
  {
    var kind := AnnotationConverter(a.nodeType);
    (kind == FilterOperation || kind == Remap) && Recognised(kind, a)
  }

  /** An accepted filter or remap step only flushes the columns. */
  lemma PassThroughStep(a: Annotation, mc: ModelColumns)
    requires PassThrough(a)
    ensures Annotated(a, mc) == Flushed(mc)
  {
    assert PerformColumns(AnnotationConverter(a.nodeType), a, Flushed(mc)) == Flushed(mc);
  }

  /** Accepted filters and remaps leave columns that are already flushed as they are. */
  lemma {:induction false} PassThroughChainFixed(anns: seq<Annotation>, m: ModelColumns)
    requires forall a :: a in anns ==> PassThrough(a)
    requires Flushed(m) == m
    ensures ColumnChain(anns, m) == m
    decreases |anns|
  {
    if anns != [] {
      PassThroughStep(anns[0], m);
      PassThroughChainFixed(anns[1..], m);
    }
  }

  /** A fold of accepted filters and remaps leaves the names and types and clears every expression. */
  lemma {:induction false} FiltersOnlyFlush(anns: seq<Annotation>, mc: ModelColumns)
    requires anns != []
    requires forall a :: a in anns ==> PassThrough(a)
    ensures ColumnChain(anns, mc) == Flushed(mc)
  {
    PassThroughStep(anns[0], mc);
    FlushIdempotent(mc);
    PassThroughChainFixed(anns[1..], Flushed(mc));
  }

  /** `post_generate_sql`: the after-annotations over the step's statement, then CTE `final`, with parent names as ref tags. */
  function PostSql(env: Env, g: Graph, id: string, cols: ModelColumns, generated: Query): (r: Result<Sql>)
    ensures r.Err? ==> r.IsFatal()
    ensures r.Ok? ==> id in g.data && ParentModelNames(g, id).Ok?
    ensures r.Ok? ==> Chain(env, AfterOf(g.data[id].raw), cols, generated).Ok?
    ensures r.Ok? ==> var stmts := Chain(env, AfterOf(g.data[id].raw), cols, generated).value;
      && r.value.statements == Cte("final", SelectFrom(Every, "", stmts))
      && r.value.dbtSql == Retagged(r.value.compiledSql, ParentModelNames(g, id).value, "model", "")
  {
    var node :- NodeById(g, id);
    var names :- ParentModelNames(g, id);
    var stmts :- Chain(env, AfterOf(node.raw), cols, generated);
    Ok(ModelReferenceSql(env, Cte("final", SelectFrom(Every, "", stmts)), names))
  }

  // ---------------------------------------------------------------------
  // The folds as the translator runs them

  /** The loop over annotations rebinding the columns. */
  method RunColumnChain(anns: seq<Annotation>, mc: ModelColumns) returns (r: ModelColumns)
    ensures r == ColumnChain(anns, mc)
  {
    r := mc;
    for i := 0 to |anns|
      invariant ColumnChain(anns, mc) == ColumnChain(anns[i..], r)
    {
      assert anns[i..][1..] == anns[i + 1..];
      var flushed := FlushValues(r);
      r := CalculateColumns(AnnotationConverter(anns[i].nodeType), anns[i], flushed);
    }
    assert anns[|anns|..] == [];
  }

  /** The loop over annotations rebinding the columns and the statements. */
  method RunChain(env: Env, anns: seq<Annotation>, mc: ModelColumns, stmts: Query) returns (r: Result<Query>)
    ensures r == Chain(env, anns, mc, stmts)
  {
    var cols := mc;
    var current := stmts;
    for i := 0 to |anns|
      invariant Chain(env, anns, mc, stmts) == Chain(env, anns[i..], cols, current)
    {
      assert anns[i..][1..] == anns[i + 1..];
      var kind := AnnotationConverter(anns[i].nodeType);
      var flushed := FlushValues(cols);
      cols := CalculateColumns(kind, anns[i], flushed);
      var next := GenerateStatements(env, kind, anns[i], flushed, current);
      if next.Err? {
        return Err(next.failure);
      }
      current := next.value;
    }
    assert anns[|anns|..] == [];
    r := Ok(current);
  }

  /** `pre_calculate_column`: the loop rewriting one namespace's entry per annotation. */
  method PreCalculateColumns(g: Graph, id: string) returns (r: Result<map<string, ModelColumns>>)
    ensures r == PreColumns(g, id)
  {
    var node :- NodeById(g, id);
    var cols :- AllParentColumns(g, id);
    if node.raw.beforeActionAnnotations.None? {
      return Ok(cols);
    }
    var refs := node.raw.beforeActionAnnotations.value;
    ghost var start := cols;
    for i := 0 to |refs|
      invariant FoldByNamespace(refs, start, Annotated) == FoldByNamespace(refs[i..], cols, Annotated)
    {
      assert refs[i..][1..] == refs[i + 1..];
      var ns := refs[i].namespace;
      if ns !in cols {
        return Err(MissingKey(ns));
      }
      var a := refs[i].annotation;
      var flushed := FlushValues(cols[ns]);
      var next := CalculateColumns(AnnotationConverter(a.nodeType), a, flushed);
      assert next == Annotated(a, cols[ns]);
      cols := cols[ns := next];
    }
    assert refs[|refs|..] == [];
    r := Ok(cols);
  }

  /** `post_calculate_column` */
  method PostCalculateColumns(g: Graph, id: string, calculated: ModelColumns) returns (r: Result<ModelColumns>)
    ensures r == PostColumns(g, id, calculated)
  {
    var node :- NodeById(g, id);
    var cols := RunColumnChain(AfterOf(node.raw), calculated);
    r := Ok(cols);
  }

  /** The loop over the parent tables of `pre_generate_sql`, filling a fresh map. */
  method SourceCteLoop(tables: map<string, Query>) returns (stmts: map<string, Query>)
    ensures stmts == SourceCtes(tables)
  {
    stmts := map[];
    var remaining := tables.Keys;
    while remaining != {}
      invariant remaining <= tables.Keys
      invariant stmts.Keys == tables.Keys - remaining
      invariant forall ns :: ns in stmts ==> stmts[ns] == SourceCte(ns, tables[ns])
      decreases |remaining|
    {
      var ns :| ns in remaining;
      stmts := stmts[ns := SourceCte(ns, tables[ns])];
      remaining := remaining - {ns};
    }
  }

  /** The loop over the before-annotations of `pre_generate_sql`, rewriting one namespace's entries per annotation. */
  method PreStatementsLoop(env: Env, refs: seq<AnnotationRef>, startCols: map<string, ModelColumns>, startStmts: map<string, Query>)
    returns (r: Result<map<string, Query>>)
    ensures r == PreStatementsFrom(env, refs, startCols, startStmts)
  {
    var cols, stmts := startCols, startStmts;
    for i := 0 to |refs|
      invariant PreStatementsFrom(env, refs, startCols, startStmts) == PreStatementsFrom(env, refs[i..], cols, stmts)
    {
      assert refs[i..][1..] == refs[i + 1..];
      var ns := refs[i].namespace;
      if ns !in cols || ns !in stmts {
        return Err(MissingKey(ns));
      }
      var a := refs[i].annotation;
      var kind := AnnotationConverter(a.nodeType);
      var flushed := FlushValues(cols[ns]);
      var nextCols := CalculateColumns(kind, a, flushed);
      cols := cols[ns := nextCols];
      var next := GenerateStatements(env, kind, a, flushed, stmts[ns]);
      if next.Err? {
        return Err(next.failure);
      }
      stmts := stmts[ns := next.value];
    }
    assert refs[|refs|..] == [];
    r := Ok(stmts);
  }

  /** `pre_generate_sql` */
  method PreGenerateSql(env: Env, g: Graph, id: string) returns (r: Result<map<string, Query>>)
    ensures r == PreStatements(env, g, id)
  {
    var node :- NodeById(g, id);
    var tables :- AllParentAsTable(g, id);
    var stmts := SourceCteLoop(tables);
    var cols :- AllParentColumns(g, id);
    if node.raw.beforeActionAnnotations.None? {
      return Ok(stmts);
    }
    r := PreStatementsLoop(env, node.raw.beforeActionAnnotations.value, cols, stmts);
  }

  /** `post_generate_sql` */
  method PostGenerateSql(env: Env, g: Graph, id: string, calculated: ModelColumns, generated: Query) returns (r: Result<Sql>)
    ensures r == PostSql(env, g, id, calculated, generated)
  {
    var node :- NodeById(g, id);
    var names :- ParentModelNames(g, id);
    var stmts :- RunChain(env, AfterOf(node.raw), calculated, generated);
    r := Ok(ModelReferenceSql(env, Cte("final", SelectFrom(Every, "", stmts)), names));
  }
}
