/**
 * The translation pipeline: the flow's steps become one graph, the graph's
 * nodes get unique model names, and the columns are computed generation by
 * generation from the roots down.
 */
module CoreServices {
  import opened Outcome
  import opened PyText
  import opened Flow
  import opened Columns
  import opened FlowGraph
  import opened Registry
  import opened Dbt
  import opened Steps
  import NodeMixins

  /** The message of the UnknownJsonFormatException raised for a flow without `nodes`. */
  const UnknownFormat := "変換に失敗しました。使用しているフローのバージョンが、変換ツールの対応済みバージョンかどうか確認してください。"

  // ---------------------------------------------------------------------
  // convert_to_graph

  /** The ids of the steps. */
  function StepIds(steps: seq<Step>): set<string>
    decreases |steps|
  {
    if steps == [] then {} else {steps[0].id} + StepIds(steps[1..])
  }

  /** The ids the steps point to. */
  function TargetIds(steps: seq<Step>): set<string>
    decreases |steps|
  {
    if steps == [] then {} else (set t | t in Targets(steps[0])) + TargetIds(steps[1..])
  }

  /** An id is a step id exactly when some step has it, and a target exactly when some step points to it. */
  lemma {:induction false} StepIdsMembers(steps: seq<Step>)
    ensures forall id :: id in StepIds(steps) <==> exists s :: s in steps && s.id == id
    ensures forall id :: id in TargetIds(steps) <==> exists s :: s in steps && id in Targets(s)
    decreases |steps|
  {
    if steps != [] {
      StepIdsMembers(steps[1..]);
      assert forall x :: x in steps <==> x == steps[0] || x in steps[1..];
    }
  }

  /** The loop of `convert_to_graph`: each step's graph, from its converter, merged onto `g` in turn. */
  function MergeSteps(g: Graph, steps: seq<Step>): (r: Result<Graph>)
    ensures r.Ok? <==> forall s :: s in steps ==> s.name.Some?
    ensures r.Err? ==> r == Err(MissingKey("name"))
    decreases |steps|
  {
    if steps == [] then Ok(g)
    else
      var sub :- StepGraph(NodeConverter(steps[0].nodeType), steps[0]);
      assert forall s :: s in steps ==> s == steps[0] || s in steps[1..];
      MergeSteps(Compose(g, sub), steps[1..])
  }

  /** `g` with the graph of step `s`, from its converter, merged in. */
  function Merged(g: Graph, s: Step): Graph
    requires s.name.Some?
  {
    Compose(g, StepGraph(NodeConverter(s.nodeType), s).value)
  }

  /** `convert_to_graph`: a flow without `nodes` is a format the translator does not know. */
  function ConvertToGraph(file: FlowFile): (r: Result<Graph>)
    ensures file.nodes.None? ==> r == Err(Fatal(UnknownFormat))
    ensures r.Ok? <==> file.nodes.Some? && forall s :: s in file.nodes.value ==> s.name.Some?
  {
    if file.nodes.None? then Err(Fatal(UnknownFormat))
    else MergeSteps(Empty(), file.nodes.value)
  }

  /** Node `node` is the one step `s` becomes under its converter. */
  predicate ConvertedFrom(node: Node, s: Step)
  {
    s.name.Some? && node == GraphNode(NodeConverter(s.nodeType), s)
  }

  /** Composing with a graph of one node and its edges adds the node and its targets as nodes. */
  lemma ComposeSingleNodes(g: Graph, h: Graph, node: Node)
    requires ValidGraph(g) && ValidGraph(h)
    requires h.data == map[node.id := node]
    requires Nodes(h) == {node.id} + (set t | t in Targets(node.raw))
    requires forall a, b :: IsEdge(h, a, b) <==> a == node.id && b in Targets(node.raw)
    ensures ValidGraph(Compose(g, h))
    ensures Nodes(Compose(g, h)) == Nodes(g) + {node.id} + (set t | t in Targets(node.raw))
  {
    ComposeValid(g, h);
  }

  /** Composing with a graph of one node and its edges adds the node's edges and no other. */
  lemma ComposeSingleEdges(g: Graph, h: Graph, node: Node)
    requires ValidGraph(g) && ValidGraph(h)
    requires h.data == map[node.id := node]
    requires Nodes(h) == {node.id} + (set t | t in Targets(node.raw))
    requires forall a, b :: IsEdge(h, a, b) <==> a == node.id && b in Targets(node.raw)
    ensures forall a, b :: IsEdge(Compose(g, h), a, b) <==> IsEdge(g, a, b) || (a == node.id && b in Targets(node.raw))
  {
    ComposeValid(g, h);
  }

  /** The data of a composition with a one-node graph is the node's update of `g`'s. */
  lemma ComposeSingleData(g: Graph, h: Graph, node: Node)
    requires h.data == map[node.id := node]
    ensures Compose(g, h).data == g.data[node.id := node]
  {
    var m := g.data;
    assert Compose(g, h).data == m + h.data;
    assert m + map[node.id := node] == m[node.id := node];
  }

  /** Merging one step's graph adds its node, with its data, and its edges. */
  lemma StepMerged(g: Graph, s: Step)
    requires ValidGraph(g) && s.name.Some?
    ensures var h := Merged(g, s);
      && ValidGraph(h)
      && Nodes(h) == Nodes(g) + {s.id} + (set t | t in Targets(s))
      && h.data == g.data[s.id := GraphNode(NodeConverter(s.nodeType), s)]
      && (forall a, b :: IsEdge(h, a, b) <==> IsEdge(g, a, b) || (a == s.id && b in Targets(s)))
  {
    var node := GraphNode(NodeConverter(s.nodeType), s);
    NodeMixins.StepGraphContents(node);
    ComposeSingleNodes(g, SingleNodeGraph(node), node);
    ComposeSingleEdges(g, SingleNodeGraph(node), node);
    ComposeSingleData(g, SingleNodeGraph(node), node);
  }

  /** Merging one step's graph gives data to the step's id. */
  lemma StepMergedKeys(g: Graph, s: Step)
    requires s.name.Some?
    ensures Merged(g, s).data.Keys == g.data.Keys + {s.id}
  {
    var node := GraphNode(NodeConverter(s.nodeType), s);
    NodeMixins.StepGraphContents(node);
    ComposeSingleData(g, SingleNodeGraph(node), node);
  }

  /** Merging one step's graph keeps the graph valid and adds the step and its targets as nodes. */
  lemma StepMergedNodes(g: Graph, s: Step)
    requires ValidGraph(g) && s.name.Some?
    ensures ValidGraph(Merged(g, s))
    ensures Nodes(Merged(g, s)) == Nodes(g) + {s.id} + (set t | t in Targets(s))
  {
    StepMerged(g, s);
  }

  /** The steps are the first one and the rest. */
  lemma StepsCons(steps: seq<Step>)
    requires steps != []
    ensures forall x :: x in steps <==> x == steps[0] || x in steps[1..]
  {
  }

  /** Merging a non-empty list of steps is merging the first step's graph, then the rest. */
  lemma MergeStepsCons(g: Graph, steps: seq<Step>)
    requires steps != [] && MergeSteps(g, steps).Ok?
    ensures steps[0].name.Some?
    ensures MergeSteps(g, steps) == MergeSteps(Merged(g, steps[0]), steps[1..])
  {
  }

  /** Merging the steps keeps the graph valid. */
  lemma {:induction false} MergeStepsValid(g: Graph, steps: seq<Step>)
    requires ValidGraph(g) && MergeSteps(g, steps).Ok?
    ensures ValidGraph(MergeSteps(g, steps).value)
    decreases |steps|
  {
    if steps != [] {
      MergeStepsCons(g, steps);
      StepMerged(g, steps[0]);
      MergeStepsValid(Merged(g, steps[0]), steps[1..]);
    }
  }

  /** Set algebra for one step of the merge: the first step's ids and targets, then the rest's. */
  lemma RegroupIds(r: set<string>, h: set<string>, g: set<string>, steps: seq<Step>)
    requires steps != []
    requires r == h + StepIds(steps[1..]) + TargetIds(steps[1..])
    requires h == g + {steps[0].id} + (set t | t in Targets(steps[0]))
    ensures r == g + StepIds(steps) + TargetIds(steps)
  {
  }

  /** Merging the steps adds every step and every target as a node. */
  lemma {:induction false} MergeStepsNodes(g: Graph, steps: seq<Step>)
    requires ValidGraph(g) && MergeSteps(g, steps).Ok?
    ensures Nodes(MergeSteps(g, steps).value) == Nodes(g) + StepIds(steps) + TargetIds(steps)
    decreases |steps|
  {
    if steps != [] {
      MergeStepsCons(g, steps);
      StepMergedNodes(g, steps[0]);
      MergeStepsNodes(Merged(g, steps[0]), steps[1..]);
      RegroupIds(Nodes(MergeSteps(Merged(g, steps[0]), steps[1..]).value), Nodes(Merged(g, steps[0])), Nodes(g), steps);
    }
  }

  /** Merging the steps gives data to every step id. */
  lemma {:induction false} MergeStepsKeys(g: Graph, steps: seq<Step>)
    requires MergeSteps(g, steps).Ok?
    ensures MergeSteps(g, steps).value.data.Keys == g.data.Keys + StepIds(steps)
    decreases |steps|
  {
    if steps != [] {
      MergeStepsCons(g, steps);
      StepMergedKeys(g, steps[0]);
      MergeStepsKeys(Merged(g, steps[0]), steps[1..]);
    }
  }

  /** A converted node's columns are still to be computed: initialised for an accepted step, unknown for a rejected one. */
  lemma ConvertedColumnsPending(file: FlowFile)
    requires ConvertToGraph(file).Ok?
    ensures var g := ConvertToGraph(file).value;
      forall id :: id in g.data ==> !g.data[id].modelColumns.IsApplicable()
  {
    MergeStepsData(Empty(), file.nodes.value);
  }

  /** After merging, a node keeps the data it had or holds what a step with its id converts to. */
  lemma {:induction false} MergeStepsData(g: Graph, steps: seq<Step>)
    requires ValidGraph(g) && MergeSteps(g, steps).Ok?
    ensures var r := MergeSteps(g, steps).value;
      forall id :: id in r.data ==> (id in g.data && r.data[id] == g.data[id]) ||
                                     (exists s :: s in steps && s.id == id && ConvertedFrom(r.data[id], s))
    decreases |steps|
  {
    if steps != [] {
      var s := steps[0];
      StepMerged(g, s);
      StepsCons(steps);
      var h := Merged(g, s);
      MergeStepsData(h, steps[1..]);
      var r := MergeSteps(g, steps).value;
      forall id | id in r.data
        ensures (id in g.data && r.data[id] == g.data[id]) || (exists x :: x in steps && x.id == id && ConvertedFrom(r.data[id], x))
      {
        if id in h.data && r.data[id] == h.data[id] && id == s.id {
          assert ConvertedFrom(r.data[id], s);
        }
      }
    }
  }

  /** Merging the steps adds exactly the edges from each step to its targets. */
  lemma {:induction false} MergeStepsEdges(g: Graph, steps: seq<Step>)
    requires ValidGraph(g) && MergeSteps(g, steps).Ok?
    ensures var r := MergeSteps(g, steps).value;
      forall a, b :: IsEdge(r, a, b) <==> IsEdge(g, a, b) || exists s :: s in steps && s.id == a && b in Targets(s)
    decreases |steps|
  {
    if steps != [] {
      StepMerged(g, steps[0]);
      StepsCons(steps);
      MergeStepsEdges(Merged(g, steps[0]), steps[1..]);
    }
  }

  /**
   * The graph of a flow has a node for every step and a node, without data,
   * for every id only pointed to; data exactly for the steps.
   */
  lemma ConvertToGraphNodes(file: FlowFile)
    requires ConvertToGraph(file).Ok?
    ensures var r := ConvertToGraph(file).value; var steps := file.nodes.value;
      && ValidGraph(r)
      && Nodes(r) == StepIds(steps) + TargetIds(steps)
      && r.data.Keys == StepIds(steps)
  {
    MergeStepsValid(Empty(), file.nodes.value);
    MergeStepsNodes(Empty(), file.nodes.value);
    MergeStepsKeys(Empty(), file.nodes.value);
  }

  /**
   * In the graph of a flow each node's data is what a step with its id
   * converts to under the converter its `nodeType` resolves to, and there is
   * an edge for every `nextNodes` entry and no other.
   */
  lemma ConvertToGraphData(file: FlowFile)
    requires ConvertToGraph(file).Ok?
    ensures var r := ConvertToGraph(file).value; var steps := file.nodes.value;
      && (forall id :: id in r.data ==> exists s :: s in steps && s.id == id && ConvertedFrom(r.data[id], s))
      && (forall a, b :: IsEdge(r, a, b) <==> exists s :: s in steps && s.id == a && b in Targets(s))
  {
    MergeStepsData(Empty(), file.nodes.value);
    MergeStepsEdges(Empty(), file.nodes.value);
  }

  /** `convert_to_graph`: the loop merging each step's fresh graph into the result. */
  method ConvertToGraphLoop(file: FlowFile) returns (r: Result<Dag>)
    ensures r.Ok? <==> ConvertToGraph(file).Ok?
    ensures r.Ok? ==> fresh(r.value) && r.value.Valid() && r.value.View() == ConvertToGraph(file).value
    ensures r.Err? ==> ConvertToGraph(file) == Err(r.failure)
  {
    if file.nodes.None? {
      return Err(Fatal(UnknownFormat));
    }
    var steps := file.nodes.value;
    var graph := new Dag();
    for i := 0 to |steps|
      invariant fresh(graph) && graph.Valid()
      invariant MergeSteps(Empty(), steps) == MergeSteps(graph.View(), steps[i..])
    {
      assert steps[i..][1..] == steps[i + 1..];
      RegistriesWellFormed();
      var kind := GetConverterByType(NodeRegistry, steps[i].nodeType);
      var sub :- GenerateGraph(kind, steps[i]);
      graph := graph.Merge(sub);
    }
    assert steps[|steps|..] == [];
    r := Ok(graph);
  }

  // ---------------------------------------------------------------------
  // calculate_columns

  /** `a` is `b` with perhaps other columns. */
  predicate SameButColumns(a: Node, b: Node)
  {
    a.id == b.id && a.name == b.name && a.nodeType == b.nodeType && a.raw == b.raw
      && a.modelName == b.modelName && a.isUnknown == b.isUnknown
  }

  /** `h` differs from `g` only in the columns of nodes whose columns `g` had not computed. */
  ghost predicate ColumnsOnly(g: Graph, h: Graph)
  {
    && h.order == g.order && h.parents == g.parents && h.data.Keys == g.data.Keys
    && (forall x :: x in g.data ==> SameButColumns(h.data[x], g.data[x]))
    && (forall x :: x in g.data && g.data[x].modelColumns.IsApplicable() ==> h.data[x] == g.data[x])
  }

  /** Changing only columns, twice, changes only columns. */
  lemma ColumnsOnlyTransitive(g: Graph, h: Graph, r: Graph)
    requires ColumnsOnly(g, h) && ColumnsOnly(h, r)
    ensures ColumnsOnly(g, r)
  {
  }

  /** One pass of the inner loop of `calculate_columns`: a node whose columns are computed is skipped, any other gets its converter's columns. */
  function UpdateColumns(env: Env, g: Graph, id: string): (r: Result<Graph>)
    requires ValidGraph(g)
    ensures r.Err? ==> r.IsFatal()
    ensures r.Ok? ==> (id in g.data && ValidGraph(r.value) && r.value.order == g.order && r.value.parents == g.parents
      && id in r.value.data)
    ensures r.Ok? ==> r.value.data == g.data[id := r.value.data[id]] && SameButColumns(r.value.data[id], g.data[id])
    ensures r.Ok? && g.data[id].modelColumns.IsApplicable() ==> r.value == g
    ensures r.Ok? && !g.data[id].modelColumns.IsApplicable() ==>
      Ok(r.value.data[id].modelColumns) == StepColumns(env, NodeConverter(g.data[id].nodeType), g, id)
  {
    var node :- NodeById(g, id);
    if node.modelColumns.IsApplicable() then Ok(g)
    else
      var cols :- StepColumns(env, NodeConverter(node.nodeType), g, id);
      var updated := node.CopyWithModelColumns(cols);
      WithNodeValid(g, updated);
      Ok(WithNode(g, updated))
  }

  /** A pass of the inner loop changes only columns. */
  lemma UpdateColumnsOnly(env: Env, g: Graph, id: string)
    requires ValidGraph(g) && UpdateColumns(env, g, id).Ok?
    ensures ColumnsOnly(g, UpdateColumns(env, g, id).value)
  {
    var r := UpdateColumns(env, g, id).value;
    assert r.data.Keys == g.data.Keys;
    forall x | x in g.data
      ensures SameButColumns(r.data[x], g.data[x])
      ensures g.data[x].modelColumns.IsApplicable() ==> r.data[x] == g.data[x]
    {
      if x != id {
        assert r.data[x] == g.data[x];
      }
    }
  }

  /** A node its converter rejects, and whose columns are not computed yet, gets unknown columns. */
  lemma UpdateRejected(env: Env, g: Graph, id: string)
    requires ValidGraph(g) && id in g.data && !g.data[id].modelColumns.IsApplicable()
    requires !Validates(NodeConverter(g.data[id].nodeType), g.data[id].raw)
    ensures UpdateColumns(env, g, id).Ok?
    ensures UpdateColumns(env, g, id).value.data[id].modelColumns == Unknown
  {
  }

  /** The inner loop of `calculate_columns`, over the ids of one generation in the order they are visited. */
  function UpdateAll(env: Env, g: Graph, ids: seq<string>): (r: Result<Graph>)
    requires ValidGraph(g)
    ensures r.Err? ==> r.IsFatal()
    ensures r.Ok? ==> ValidGraph(r.value) && ColumnsOnly(g, r.value)
    decreases |ids|
  {
    if ids == [] then Ok(g)
    else
      var h :- UpdateColumns(env, g, ids[0]);
      var r :- UpdateAll(env, h, ids[1..]);
      UpdateColumnsOnly(env, g, ids[0]);
      ColumnsOnlyTransitive(g, h, r);
      Ok(r)
  }

  /** The outer loop of `calculate_columns`, generation by generation; `visit` is the order a set of ids is iterated in. */
  function UpdateGenerations(env: Env, visit: set<string> -> seq<string>, g: Graph, gens: seq<set<string>>): (r: Result<Graph>)
    requires ValidGraph(g)
    ensures r.Err? ==> r.IsFatal()
    ensures r.Ok? ==> ValidGraph(r.value) && ColumnsOnly(g, r.value)
    decreases |gens|
  {
    if gens == [] then Ok(g)
    else
      var h :- UpdateAll(env, g, visit(gens[0]));
      var r :- UpdateGenerations(env, visit, h, gens[1..]);
      ColumnsOnlyTransitive(g, h, r);
      Ok(r)
  }

  /** No node of `ids` is a parent of another: the nodes of one generation do not feed one another. */
  ghost predicate Independent(g: Graph, ids: seq<string>)
  {
    forall u, v :: u in ids && v in ids ==> !IsEdge(g, u, v)
  }

  /** Independence depends on the edges alone, and holds of any part of the ids. */
  lemma IndependentTail(g: Graph, h: Graph, ids: seq<string>)
    requires Independent(g, ids) && h.parents == g.parents && ids != []
    ensures Independent(h, ids[1..])
  {
    forall u, v | u in ids[1..] && v in ids[1..]
      ensures !IsEdge(h, u, v)
    {
      assert u in ids && v in ids;
    }
  }

  /** `visit` iterates exactly the members of the set it is given. */
  ghost predicate VisitsAll(visit: set<string> -> seq<string>)
  {
    forall s: set<string>, x :: x in visit(s) <==> x in s
  }

  /**
   * `r` holds what `calculate_columns` gives node `x` of `g`: the same node
   * when `g` had computed its columns, else its converter's columns, read
   * over `r` itself.
   */
  ghost predicate ColumnsComputed(env: Env, g: Graph, r: Graph, x: string)
    requires x in g.data && x in r.data
  {
    if g.data[x].modelColumns.IsApplicable() then r.data[x] == g.data[x]
    else Ok(r.data[x].modelColumns) == StepColumns(env, NodeConverter(g.data[x].nodeType), r, x)
  }

  /** The inner loop leaves every node it does not visit as it was. */
  lemma {:induction false} UpdateAllElsewhere(env: Env, g: Graph, ids: seq<string>, x: string)
    requires ValidGraph(g) && UpdateAll(env, g, ids).Ok? && x !in ids && x in g.data
    ensures UpdateAll(env, g, ids).value.data[x] == g.data[x]
    decreases |ids|
  {
    if ids != [] {
      UpdateAllElsewhere(env, UpdateColumns(env, g, ids[0]).value, ids[1..], x);
    }
  }

  /** Over ids none of which feeds another, a visited node's parents keep their data, so what it reads is what it read when visited. */
  lemma UpdateAllSameInputs(env: Env, g: Graph, ids: seq<string>, x: string)
    requires ValidGraph(g) && UpdateAll(env, g, ids).Ok? && Independent(g, ids) && x in ids
    ensures SameInputs(g, UpdateAll(env, g, ids).value, x)
  {
    var r := UpdateAll(env, g, ids).value;
    if x in g.parents {
      forall p | p in g.parents[x] && p in g.data
        ensures r.data[p] == g.data[p]
      {
        assert IsEdge(g, p, x);
        UpdateAllElsewhere(env, g, ids, p);
      }
    }
  }

  /** The first pass of the inner loop, and the loop over the rest after it. */
  lemma UpdateAllHead(env: Env, g: Graph, ids: seq<string>)
    requires ValidGraph(g) && UpdateAll(env, g, ids).Ok? && ids != []
    ensures UpdateColumns(env, g, ids[0]).Ok?
    ensures var h := UpdateColumns(env, g, ids[0]).value;
      UpdateAll(env, h, ids[1..]).Ok? && UpdateAll(env, g, ids).value == UpdateAll(env, h, ids[1..]).value
  {
  }

  /**
   * Over ids none of which feeds another, each visited node whose columns
   * were not computed ends with its converter's columns over the final graph:
   * what the loop changes later is never read by what it computed earlier.
   */
  lemma {:induction false} UpdateAllComputes(env: Env, g: Graph, ids: seq<string>, x: string)
    requires ValidGraph(g) && UpdateAll(env, g, ids).Ok? && Independent(g, ids)
    requires x in ids && x in g.data && !g.data[x].modelColumns.IsApplicable()
    ensures var r := UpdateAll(env, g, ids).value;
      Ok(r.data[x].modelColumns) == StepColumns(env, NodeConverter(g.data[x].nodeType), r, x)
    decreases |ids|
  {
    UpdateAllHead(env, g, ids);
    var h := UpdateColumns(env, g, ids[0]).value;
    var rest := ids[1..];
    var r := UpdateAll(env, h, rest).value;
    IndependentTail(g, h, ids);
    if x != ids[0] || (x in rest && !h.data[x].modelColumns.IsApplicable()) {
      UpdateAllComputes(env, h, rest, x);
    } else {
      if x !in rest {
        UpdateAllElsewhere(env, h, rest, x);
      }
      UpdateAllSameInputs(env, g, ids, x);
      StepColumnsLocal(env, NodeConverter(g.data[x].nodeType), g, r, x);
    }
  }

  /** The first generation's inner loop, and the outer loop over the rest after it. */
  lemma UpdateGenerationsHead(env: Env, visit: set<string> -> seq<string>, g: Graph, gens: seq<set<string>>)
    requires ValidGraph(g) && UpdateGenerations(env, visit, g, gens).Ok? && gens != []
    ensures UpdateAll(env, g, visit(gens[0])).Ok?
    ensures var h := UpdateAll(env, g, visit(gens[0])).value;
      && UpdateGenerations(env, visit, h, gens[1..]).Ok?
      && UpdateGenerations(env, visit, g, gens).value == UpdateGenerations(env, visit, h, gens[1..]).value
  {
  }

  /** No id lies in two of `gens`. */
  ghost predicate Disjoint(gens: seq<set<string>>)
  {
    forall i, j :: 0 <= i < j < |gens| ==> gens[i] !! gens[j]
  }

  /** The later generations stay disjoint, and none holds a member of the first. */
  lemma DisjointTail(gens: seq<set<string>>)
    requires Disjoint(gens) && gens != []
    ensures Disjoint(gens[1..])
    ensures forall i, x :: 0 <= i < |gens[1..]| && x in gens[0] ==> x !in gens[1..][i]
  {
    forall i, x | 0 <= i < |gens[1..]| && x in gens[0]
      ensures x !in gens[1..][i]
    {
      assert gens[0] !! gens[i + 1];
    }
  }

  /** Forward edges depend on the edges alone, and stay forward among the later generations. */
  lemma ForwardTail(g: Graph, h: Graph, gens: seq<set<string>>)
    requires Forward(g, gens) && h.parents == g.parents && gens != []
    ensures Forward(h, gens[1..])
  {
    var later := gens[1..];
    forall i, j, u, v | 0 <= i < |later| && 0 <= j < |later| && u in later[i] && v in later[j] && IsEdge(h, u, v)
      ensures i < j
    {
      assert IsEdge(g, u, v) && u in gens[i + 1] && v in gens[j + 1];
    }
  }

  /** An id in none of `gens` is in none of the later ones. */
  lemma OutsideTail(gens: seq<set<string>>, x: string)
    requires gens != [] && forall k :: 0 <= k < |gens| ==> x !in gens[k]
    ensures forall k :: 0 <= k < |gens[1..]| ==> x !in gens[1..][k]
  {
    forall k | 0 <= k < |gens[1..]|
      ensures x !in gens[1..][k]
    {
      assert gens[1..][k] == gens[k + 1];
    }
  }

  /** The outer loop leaves every node of no generation as it was. */
  lemma {:induction false} UpdateGenerationsElsewhere(env: Env, visit: set<string> -> seq<string>, g: Graph,
      gens: seq<set<string>>, x: string)
    requires ValidGraph(g) && UpdateGenerations(env, visit, g, gens).Ok? && VisitsAll(visit)
    requires x in g.data && forall k :: 0 <= k < |gens| ==> x !in gens[k]
    ensures UpdateGenerations(env, visit, g, gens).value.data[x] == g.data[x]
    decreases |gens|
  {
    if gens != [] {
      UpdateGenerationsHead(env, visit, g, gens);
      UpdateAllElsewhere(env, g, visit(gens[0]), x);
      var h := UpdateAll(env, g, visit(gens[0])).value;
      OutsideTail(gens, x);
      UpdateGenerationsElsewhere(env, visit, h, gens[1..], x);
    }
  }

  /**
   * A node of the first generation gets its converter's columns from its
   * generation's inner loop, and the later generations change neither it
   * nor its parents.
   */
  lemma UpdateFirstGeneration(env: Env, visit: set<string> -> seq<string>, g: Graph, gens: seq<set<string>>, x: string)
    requires ValidGraph(g) && UpdateGenerations(env, visit, g, gens).Ok? && VisitsAll(visit)
    requires Forward(g, gens) && Disjoint(gens)
    requires gens != [] && x in gens[0] && x in g.data && !g.data[x].modelColumns.IsApplicable()
    ensures var r := UpdateGenerations(env, visit, g, gens).value;
      Ok(r.data[x].modelColumns) == StepColumns(env, NodeConverter(g.data[x].nodeType), r, x)
  {
    UpdateGenerationsHead(env, visit, g, gens);
    var ids := visit(gens[0]);
    var h := UpdateAll(env, g, ids).value;
    var later := gens[1..];
    var r := UpdateGenerations(env, visit, h, later).value;
    forall u, v | u in ids && v in ids
      ensures !IsEdge(g, u, v)
    {
      assert u in gens[0] && v in gens[0];
    }
    UpdateAllComputes(env, g, ids, x);
    DisjointTail(gens);
    UpdateGenerationsElsewhere(env, visit, h, later, x);
    if x in h.parents {
      forall p | p in h.parents[x] && p in h.data
        ensures r.data[p] == h.data[p]
      {
        assert IsEdge(g, p, x);
        forall i | 0 <= i < |later|
          ensures p !in later[i]
        {
          assert p in gens[i + 1] ==> i + 1 < 0;
        }
        UpdateGenerationsElsewhere(env, visit, h, later, p);
      }
    }
    StepColumnsLocal(env, NodeConverter(g.data[x].nodeType), h, r, x);
  }

  /**
   * Over disjoint generations whose every edge runs from an earlier one to a
   * later one, each node of generation `k` whose columns were not computed
   * ends with its converter's columns over the final graph.
   */
  lemma {:induction false} UpdateGenerationsComputes(env: Env, visit: set<string> -> seq<string>, g: Graph,
      gens: seq<set<string>>, k: nat, x: string)
    requires ValidGraph(g) && UpdateGenerations(env, visit, g, gens).Ok? && VisitsAll(visit)
    requires Forward(g, gens) && Disjoint(gens)
    requires k < |gens| && x in gens[k] && x in g.data && !g.data[x].modelColumns.IsApplicable()
    ensures var r := UpdateGenerations(env, visit, g, gens).value;
      Ok(r.data[x].modelColumns) == StepColumns(env, NodeConverter(g.data[x].nodeType), r, x)
    decreases |gens|
  {
    if k == 0 {
      UpdateFirstGeneration(env, visit, g, gens, x);
    } else {
      UpdateGenerationsHead(env, visit, g, gens);
      var ids := visit(gens[0]);
      var h := UpdateAll(env, g, ids).value;
      var later := gens[1..];
      assert gens[0] !! gens[k];
      UpdateAllElsewhere(env, g, ids, x);
      assert x in later[k - 1];
      DisjointTail(gens);
      ForwardTail(g, h, gens);
      UpdateGenerationsComputes(env, visit, h, later, k - 1, x);
    }
  }

  /**
   * The outer loop over the topological generations: every node holds what
   * `calculate_columns` gives it, whatever the order inside a generation.
   */
  lemma UpdateGenerationsEffect(env: Env, visit: set<string> -> seq<string>, g: Graph, gens: seq<set<string>>)
    requires ValidGraph(g) && IsGenerations(g, gens)
    ensures UpdateGenerations(env, visit, g, gens).Ok? && VisitsAll(visit) ==>
      forall x :: x in g.data ==> ColumnsComputed(env, g, UpdateGenerations(env, visit, g, gens).value, x)
  {
    if UpdateGenerations(env, visit, g, gens).Ok? && VisitsAll(visit) {
      var r := UpdateGenerations(env, visit, g, gens).value;
      forall x | x in g.data
        ensures ColumnsComputed(env, g, r, x)
      {
        assert x in g.order;
        var k :| 0 <= k < |gens| && x in gens[k];
        if !g.data[x].modelColumns.IsApplicable() {
          UpdateGenerationsComputes(env, visit, g, gens, k, x);
        }
      }
    }
  }

  /**
   * `calculate_columns`: the columns of every node not computed yet, in the
   * order of the topological generations. Only columns change; a graph with
   * a cycle, or a node without data, ends the run.
   */
  function CalculateColumns(env: Env, visit: set<string> -> seq<string>, g: Graph): (r: Result<Graph>)
    requires ValidGraph(g)
    ensures r.Err? ==> r.IsFatal()
    ensures TopologicalGenerations(g).Err? ==> r.Err?
    ensures r.Ok? ==> ValidGraph(r.value) && ColumnsOnly(g, r.value)
    ensures r.Ok? && VisitsAll(visit) ==> forall x :: x in g.data ==> ColumnsComputed(env, g, r.value, x)
  {
    var gens :- TopologicalGenerations(g);
    TopologicalGenerationsCorrect(g);
    UpdateGenerationsEffect(env, visit, g, gens);
    UpdateGenerations(env, visit, g, gens)
  }

  /** The inner loop of `calculate_columns`: each node of one generation, in the order visited, updated in place. */
  method UpdateGeneration(env: Env, graph: Dag, ids: seq<string>) returns (r: Result<()>)
    requires graph.Valid()
    modifies graph
    ensures graph.Valid()
    ensures r.Ok? <==> UpdateAll(env, old(graph.View()), ids).Ok?
    ensures r.Ok? ==> graph.View() == UpdateAll(env, old(graph.View()), ids).value
    ensures r.Err? ==> UpdateAll(env, old(graph.View()), ids) == Err(r.failure)
  {
    ghost var before := graph.View();
    for j := 0 to |ids|
      invariant graph.Valid()
      invariant UpdateAll(env, before, ids) == UpdateAll(env, graph.View(), ids[j..])
    {
      assert ids[j..][1..] == ids[j + 1..];
      var node :- graph.GetNodeById(ids[j]);
      if node.modelColumns.IsApplicable() {
        continue;
      }
      RegistriesWellFormed();
      var kind := GetConverterByType(NodeRegistry, node.nodeType);
      var cols :- StepColumns(env, kind, graph.View(), ids[j]);
      graph.AddNode(node.CopyWithModelColumns(cols));
    }
    assert ids[|ids|..] == [];
    r := Ok(());
  }

  /** `calculate_columns`: the generations from the roots down, each updated in place. */
  method CalculateColumnsLoop(env: Env, visit: set<string> -> seq<string>, graph: Dag) returns (r: Result<()>)
    requires graph.Valid()
    modifies graph
    ensures graph.Valid()
    ensures r.Ok? <==> CalculateColumns(env, visit, old(graph.View())).Ok?
    ensures r.Ok? ==> graph.View() == CalculateColumns(env, visit, old(graph.View())).value
    ensures r.Err? ==> CalculateColumns(env, visit, old(graph.View())) == Err(r.failure)
  {
    var gens :- graph.NodesPerGeneration();
    ghost var start := graph.View();
    for i := 0 to |gens|
      invariant graph.Valid()
      invariant UpdateGenerations(env, visit, start, gens) == UpdateGenerations(env, visit, graph.View(), gens[i..])
    {
      assert gens[i..][1..] == gens[i + 1..];
      var done :- UpdateGeneration(env, graph, visit(gens[i]));
    }
    assert gens[|gens|..] == [];
    r := Ok(());
  }

  // ---------------------------------------------------------------------
  // build_model_name

  /** `str(x).replace(" ", "").replace("/", "")` */
  function Cleaned(name: string): string
  {
    Replace(Replace(name, " ", ""), "/", "")
  }

  /** pandas' category code plus one: the position of `id` among the sorted ids of `group`, from 1. */
  function Rank(group: set<string>, id: string): nat
  {
    |set x | x in group && Less(x, id)| + 1
  }

  /** The model name of a node: the cleaned name, `_` and the rank, behind `<prefix>__` when there is a prefix. */
  function Numbered(prefix: string, base: string, rank: nat): string
  {
    var name := base + "_" + NatToString(rank);
    if prefix != "" then prefix + "__" + name else name
  }

  /** The ids whose names clean to the same text as `id`'s. */
  function Group(names: map<string, string>, id: string): set<string>
    requires id in names
  {
    set x | x in names && Cleaned(names[x]) == Cleaned(names[id])
  }

  /** The naming rule of `build_model_name`, numbering the ids of each cleaned name. */
  function ModelNames(prefix: string, names: map<string, string>): (r: map<string, string>)
    ensures r.Keys == names.Keys
  {
    map id | id in names :: Numbered(prefix, Cleaned(names[id]), Rank(Group(names, id), id))
  }

  /** In a group the ranks run from 1 to the group's size, a different one for every id. */
  lemma RanksInGroup(group: set<string>, a: string, b: string)
    requires a in group && b in group
    ensures 1 <= Rank(group, a) <= |group|
    ensures a != b ==> Rank(group, a) != Rank(group, b)
  {
    var below := set x | x in group && Less(x, a);
    LessIrreflexive(a);
    SubsetSmaller(below, group - {a});
    if a != b {
      LessTotal(a, b);
      if Less(a, b) {
        RankBelow(group, a, b);
      } else {
        RankBelow(group, b, a);
      }
    }
  }

  /** An id sorting before another ranks lower. */
  lemma RankBelow(group: set<string>, a: string, b: string)
    requires a in group && Less(a, b)
    ensures Rank(group, a) < Rank(group, b)
  {
    var belowA := set x | x in group && Less(x, a);
    var belowB := set x | x in group && Less(x, b);
    forall x | x in belowA ensures x in belowB - {a} {
      LessTransitive(x, a, b);
      LessIrreflexive(a);
    }
    SubsetSmaller(belowA, belowB - {a});
  }

  /** The number of digits `s` ends with. */
  function TrailingDigits(s: string): (r: nat)
    ensures r <= |s|
  {
    if s == [] || !IsDigit(s[|s| - 1]) then 0 else TrailingDigits(s[..|s| - 1]) + 1
  }

  /** `base + "_" + digits` ends with exactly its digits. */
  lemma {:induction false} TrailingDigitsOf(base: string, digits: string)
    requires forall j :: 0 <= j < |digits| ==> IsDigit(digits[j])
    ensures TrailingDigits(base + "_" + digits) == |digits|
    decreases |digits|
  {
    var s := base + "_" + digits;
    if digits != [] {
      var shorter := digits[..|digits| - 1];
      assert s[..|s| - 1] == base + "_" + shorter;
      TrailingDigitsOf(base, shorter);
    }
  }

  /** What follows the last `_` of `base + "_" + digits` is the digits. */
  lemma SplitAtLastUnderscore(a1: string, d1: string, a2: string, d2: string)
    requires forall j :: 0 <= j < |d1| ==> IsDigit(d1[j])
    requires forall j :: 0 <= j < |d2| ==> IsDigit(d2[j])
    requires a1 + "_" + d1 == a2 + "_" + d2
    ensures a1 == a2 && d1 == d2
  {
    var s := a1 + "_" + d1;
    TrailingDigitsOf(a1, d1);
    TrailingDigitsOf(a2, d2);
    assert a1 == s[..|a1|] == a2;
    assert d1 == s[|a1| + 1..] == d2;
  }

  /** Different cleaned names or ranks give different model names. */
  lemma NumberedInjective(prefix: string, b1: string, r1: nat, b2: string, r2: nat)
    requires Numbered(prefix, b1, r1) == Numbered(prefix, b2, r2)
    ensures b1 == b2 && r1 == r2
  {
    var n1 := b1 + "_" + NatToString(r1);
    var n2 := b2 + "_" + NatToString(r2);
    if prefix != "" {
      var p := prefix + "__";
      assert p + n1 == p + n2;
      assert n1 == (p + n1)[|p|..] == (p + n2)[|p|..] == n2;
    }
    SplitAtLastUnderscore(b1, NatToString(r1), b2, NatToString(r2));
    NatToStringInjective(r1, r2);
  }

  /** No two nodes get the same model name. */
  lemma ModelNamesDistinct(prefix: string, names: map<string, string>, a: string, b: string)
    requires a in names && b in names && a != b
    ensures ModelNames(prefix, names)[a] != ModelNames(prefix, names)[b]
  {
    if ModelNames(prefix, names)[a] == ModelNames(prefix, names)[b] {
      NumberedInjective(prefix, Cleaned(names[a]), Rank(Group(names, a), a), Cleaned(names[b]), Rank(Group(names, b), b));
      assert Group(names, a) == Group(names, b);
      RanksInGroup(Group(names, a), a, b);
      assert false;
    }
  }

  /** The ids whose raw names equal `id`'s: the grouping as written. */
  function GroupAsWritten(names: map<string, string>, id: string): set<string>
    requires id in names
  {
    set x | x in names && names[x] == names[id]
  }

  /** The naming rule as written: ids numbered within their raw name, then the name cleaned. */
  function ModelNamesAsWritten(prefix: string, names: map<string, string>): (r: map<string, string>)
    ensures r.Keys == names.Keys
  {
    map id | id in names :: Numbered(prefix, Cleaned(names[id]), Rank(GroupAsWritten(names, id), id))
  }

  /** An id alone in its group ranks first. */
  lemma RankAlone(id: string)
    ensures Rank({id}, id) == 1
  {
    LessIrreflexive(id);
    assert (set x | x in {id} && Less(x, id)) == {};
  }

  /** Cleaning `a b` and `ab` gives `ab` both times. */
  lemma CleanedExample()
    ensures Cleaned("a b") == "ab" && Cleaned("ab") == "ab"
  {
    assert Replace("a b", " ", "") == "ab";
    assert Replace("ab", " ", "") == "ab";
    assert Replace("ab", "/", "") == "ab";
  }

  /** As written, steps named `a b` and `ab` both become `ab_1`. */
  lemma AsWrittenCollides()
    ensures var names := map["n1" := "a b", "n2" := "ab"];
      ModelNamesAsWritten("", names)["n1"] == ModelNamesAsWritten("", names)["n2"] == "ab_1"
  {
    var names := map["n1" := "a b", "n2" := "ab"];
    CleanedExample();
    assert GroupAsWritten(names, "n1") == {"n1"};
    assert GroupAsWritten(names, "n2") == {"n2"};
    RankAlone("n1");
    RankAlone("n2");
    assert NatToString(1) == "1";
  }

  /** When no name holds a space or a `/`, the rule as written and the corrected one agree. */
  lemma ModelNamesAgreeOnCleanNames(prefix: string, names: map<string, string>)
    requires forall id :: id in names ==> forall j :: 0 <= j < |names[id]| ==> names[id][j] != ' ' && names[id][j] != '/'
    ensures ModelNamesAsWritten(prefix, names) == ModelNames(prefix, names)
  {
    forall id | id in names ensures Cleaned(names[id]) == names[id] {
      RemoveCharKeepsOthers(names[id], ' ');
      RemoveCharKeepsOthers(names[id], '/');
    }
    forall id | id in names ensures GroupAsWritten(names, id) == Group(names, id) {
    }
  }

  /** The first loop of `build_model_name`: the name of each node in `ids` added to `acc`; a key error at a node without data. */
  function NamesFrom(g: Graph, ids: seq<string>, acc: map<string, string>): (r: Result<map<string, string>>)
    ensures r.Err? ==> r.IsFatal()
    decreases |ids|
  {
    if ids == [] then Ok(acc)
    else
      var node :- NodeById(g, ids[0]);
      NamesFrom(g, ids[1..], acc[ids[0] := node.name])
  }

  lemma {:induction false} NamesFromContents(g: Graph, ids: seq<string>, acc: map<string, string>)
    ensures NamesFrom(g, ids, acc).Ok? <==> forall id :: id in ids ==> id in g.data
    ensures NamesFrom(g, ids, acc).Ok? ==> var m := NamesFrom(g, ids, acc).value;
      && m.Keys == acc.Keys + (set id | id in ids)
      && forall id :: id in m ==> m[id] == if id in ids then g.data[id].name else acc[id]
    decreases |ids|
  {
    if ids != [] {
      assert forall id :: id in ids <==> id == ids[0] || id in ids[1..];
      if ids[0] in g.data {
        NamesFromContents(g, ids[1..], acc[ids[0] := g.data[ids[0]].name]);
      }
    }
  }

  /** The names of the graph's nodes by id; a key error when a node has no data. */
  function NodeNames(g: Graph): (r: Result<map<string, string>>)
    ensures r.Ok? <==> Nodes(g) <= g.data.Keys
    ensures r.Err? ==> r.IsFatal()
    ensures r.Ok? ==> r.value.Keys == Nodes(g) && forall id :: id in r.value ==> r.value[id] == g.data[id].name
  {
    NamesFromContents(g, g.order, map[]);
    NamesFrom(g, g.order, map[])
  }

  /** `a` is `b` with perhaps another model name. */
  predicate SameButName(a: Node, b: Node)
  {
    a.id == b.id && a.name == b.name && a.nodeType == b.nodeType && a.raw == b.raw
      && a.modelColumns == b.modelColumns && a.isUnknown == b.isUnknown
  }

  /** Storing a node under an id that has data replaces the data and nothing else. */
  lemma ReplaceNode(g: Graph, node: Node)
    requires ValidGraph(g) && node.id in g.data
    ensures WithNode(g, node) == g.(data := g.data[node.id := node])
    ensures ValidGraph(WithNode(g, node))
  {
    WithNodeValid(g, node);
  }

  /** The second loop of `build_model_name`: each node in `ids` stored again with its model name. */
  function Rename(g: Graph, ids: seq<string>, model: map<string, string>): (r: Result<Graph>)
    requires ValidGraph(g)
    requires forall id :: id in ids ==> id in model
    ensures r.Err? ==> r.IsFatal()
    ensures r.Ok? ==> (ValidGraph(r.value) && r.value.order == g.order && r.value.parents == g.parents
      && r.value.data.Keys == g.data.Keys)
    decreases |ids|
  {
    if ids == [] then Ok(g)
    else
      var node :- NodeById(g, ids[0]);
      var renamed := node.CopyWithModelName(NameApplicable(model[ids[0]]));
      ReplaceNode(g, renamed);
      Rename(WithNode(g, renamed), ids[1..], model)
  }

  lemma {:induction false} RenameContents(g: Graph, ids: seq<string>, model: map<string, string>)
    requires ValidGraph(g) && forall id :: id in ids ==> id in model
    ensures Rename(g, ids, model).Ok? <==> forall id :: id in ids ==> id in g.data
    ensures Rename(g, ids, model).Ok? ==> var r := Rename(g, ids, model).value;
      forall id :: id in g.data ==>
        && SameButName(r.data[id], g.data[id])
        && r.data[id].modelName == if id in ids then NameApplicable(model[id]) else g.data[id].modelName
    decreases |ids|
  {
    if ids != [] {
      assert forall id :: id in ids <==> id == ids[0] || id in ids[1..];
      if ids[0] in g.data {
        var renamed := g.data[ids[0]].CopyWithModelName(NameApplicable(model[ids[0]]));
        ReplaceNode(g, renamed);
        RenameContents(WithNode(g, renamed), ids[1..], model);
      }
    }
  }

  /**
   * `build_model_name`: every node gets the model name the rule as written
   * gives it, and nothing else changes; a node without data is a key error,
   * and so is a graph without nodes, whose empty table has no `name` column
   * to group by.
   */
  function BuildModelName(prefix: string, g: Graph): (r: Result<Graph>)
    requires ValidGraph(g)
    ensures r.Ok? <==> g.order != [] && Nodes(g) <= g.data.Keys
    ensures g.order == [] ==> r == Err(MissingKey("name"))
    ensures r.Err? ==> r.IsFatal()
    ensures r.Ok? ==> (ValidGraph(r.value) && r.value.order == g.order && r.value.parents == g.parents
      && r.value.data.Keys == g.data.Keys)
    ensures r.Ok? ==> forall id :: id in g.data ==>
      && SameButName(r.value.data[id], g.data[id])
      && r.value.data[id].modelName == NameApplicable(ModelNamesAsWritten(prefix, NodeNames(g).value)[id])
  {
    var names :- NodeNames(g);
    if g.order == [] then Err(MissingKey("name"))
    else
      RenameContents(g, g.order, ModelNamesAsWritten(prefix, names));
      Rename(g, g.order, ModelNamesAsWritten(prefix, names))
  }

  /**
   * As written, two nodes share a model name only when their display names
   * differ but clean to the same text: nodes of equal names are numbered
   * apart, and different cleaned names never meet.
   */
  lemma BuiltNamesAsWritten(prefix: string, g: Graph, a: string, b: string)
    requires ValidGraph(g) && BuildModelName(prefix, g).Ok?
    requires a in g.data && b in g.data && a != b
    ensures var r := BuildModelName(prefix, g).value;
      r.data[a].modelName == r.data[b].modelName ==>
        g.data[a].name != g.data[b].name && Cleaned(g.data[a].name) == Cleaned(g.data[b].name)
  {
    var names := NodeNames(g).value;
    var m := ModelNamesAsWritten(prefix, names);
    if m[a] == m[b] {
      NumberedInjective(prefix, Cleaned(names[a]), Rank(GroupAsWritten(names, a), a),
                        Cleaned(names[b]), Rank(GroupAsWritten(names, b), b));
      if names[a] == names[b] {
        assert GroupAsWritten(names, a) == GroupAsWritten(names, b);
        RanksInGroup(GroupAsWritten(names, a), a, b);
        assert false;
      }
    }
  }

  /** `build_model_name` with the corrected rule, which numbers the nodes of each cleaned name. */
  function BuildModelNameCorrected(prefix: string, g: Graph): (r: Result<Graph>)
    requires ValidGraph(g)
    ensures r.Ok? <==> g.order != [] && Nodes(g) <= g.data.Keys
    ensures g.order == [] ==> r == Err(MissingKey("name"))
    ensures r.Ok? ==> ValidGraph(r.value) && r.value.data.Keys == g.data.Keys
    ensures r.Ok? ==> forall id :: id in g.data ==>
      && SameButName(r.value.data[id], g.data[id])
      && r.value.data[id].modelName == NameApplicable(ModelNames(prefix, NodeNames(g).value)[id])
  {
    var names :- NodeNames(g);
    if g.order == [] then Err(MissingKey("name"))
    else
      RenameContents(g, g.order, ModelNames(prefix, names));
      Rename(g, g.order, ModelNames(prefix, names))
  }

  /** With the corrected rule model names are unique: two nodes never share one. */
  lemma BuiltNamesDistinct(prefix: string, g: Graph, a: string, b: string)
    requires ValidGraph(g) && BuildModelNameCorrected(prefix, g).Ok?
    requires a in g.data && b in g.data && a != b
    ensures BuildModelNameCorrected(prefix, g).value.data[a].modelName != BuildModelNameCorrected(prefix, g).value.data[b].modelName
  {
    ModelNamesDistinct(prefix, NodeNames(g).value, a, b);
  }

  /** When no display name holds a space or a `/`, the pass as written is the corrected one, so its names are unique. */
  lemma BuildModelNameAgreesOnCleanNames(prefix: string, g: Graph)
    requires ValidGraph(g)
    requires forall id :: id in g.data ==> forall j :: 0 <= j < |g.data[id].name| ==> g.data[id].name[j] != ' ' && g.data[id].name[j] != '/'
    ensures BuildModelName(prefix, g) == BuildModelNameCorrected(prefix, g)
  {
    var names := NodeNames(g);
    if names.Ok? {
      ModelNamesAgreeOnCleanNames(prefix, names.value);
    }
  }

  /** The first loop of `build_model_name`: the name of every node, by id. */
  method ReadNames(graph: Dag) returns (r: Result<map<string, string>>)
    ensures r == NodeNames(graph.View())
  {
    var ids := graph.order;
    var names: map<string, string> := map[];
    for i := 0 to |ids|
      invariant NamesFrom(graph.View(), ids, map[]) == NamesFrom(graph.View(), ids[i..], names)
    {
      assert ids[i..][1..] == ids[i + 1..];
      var node :- graph.GetNodeById(ids[i]);
      names := names[ids[i] := node.name];
    }
    assert ids[|ids|..] == [];
    r := Ok(names);
  }

  /** The second loop of `build_model_name`: every node in `ids` stored again with its model name. */
  method RenameNodes(graph: Dag, ids: seq<string>, model: map<string, string>) returns (r: Result<()>)
    requires graph.Valid() && forall id :: id in ids ==> id in model
    modifies graph
    ensures graph.Valid()
    ensures r.Ok? <==> Rename(old(graph.View()), ids, model).Ok?
    ensures r.Ok? ==> graph.View() == Rename(old(graph.View()), ids, model).value
  {
    ghost var g := graph.View();
    for i := 0 to |ids|
      invariant graph.Valid()
      invariant Rename(g, ids, model) == Rename(graph.View(), ids[i..], model)
    {
      assert ids[i..][1..] == ids[i + 1..];
      var node :- graph.GetNodeById(ids[i]);
      graph.AddNode(node.CopyWithModelName(NameApplicable(model[ids[i]])));
    }
    assert ids[|ids|..] == [];
    r := Ok(());
  }

  /** `build_model_name`: read the names, number them, store every node again with its model name. */
  method BuildModelNameLoop(prefix: string, graph: Dag) returns (r: Result<()>)
    requires graph.Valid()
    modifies graph
    ensures graph.Valid()
    ensures r.Ok? <==> BuildModelName(prefix, old(graph.View())).Ok?
    ensures r.Ok? ==> graph.View() == BuildModelName(prefix, old(graph.View())).value
    ensures r.Err? ==> BuildModelName(prefix, old(graph.View())) == Err(r.failure)
  {
    var names :- ReadNames(graph);
    if graph.order == [] {
      return Err(MissingKey("name"));
    }
    r := RenameNodes(graph, graph.order, ModelNamesAsWritten(prefix, names));
  }

  // ---------------------------------------------------------------------
  // The whole translation

  /** `convert`: the graph of the flow, with model names, then columns. */
  function Translate(env: Env, visit: set<string> -> seq<string>, file: FlowFile): (r: Result<Graph>)
    ensures r.Err? ==> r.IsFatal()
    ensures r.Ok? ==> ValidGraph(r.value) && ConvertToGraph(file).Ok? && Nodes(r.value) == Nodes(ConvertToGraph(file).value)
    ensures r.Ok? ==> var g := ConvertToGraph(file).value;
      && NodeNames(g).Ok? && r.value.data.Keys == g.data.Keys
      && forall id :: id in g.data ==>
           && r.value.data[id].name == g.data[id].name
           && r.value.data[id].modelName == NameApplicable(ModelNamesAsWritten(env.prefix, NodeNames(g).value)[id])
    ensures r.Ok? && VisitsAll(visit) ==> forall id :: id in r.value.data ==>
      Ok(r.value.data[id].modelColumns) == StepColumns(env, NodeConverter(r.value.data[id].nodeType), r.value, id)
  {
    var graph :- ConvertToGraph(file);
    ConvertToGraphNodes(file);
    ConvertedColumnsPending(file);
    var named :- BuildModelName(env.prefix, graph);
    CalculateColumns(env, visit, named)
  }
}
