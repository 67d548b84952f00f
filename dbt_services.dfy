/**
 * The last stage of a run: every node's dbt records gathered in node order,
 * and the tally of how each step fared.
 */
module DbtServices {
  import opened Outcome
  import opened Columns
  import opened FlowGraph
  import opened Registry
  import opened Dbt
  import opened Steps

  // ---------------------------------------------------------------------
  // generate_dbt_models

  /** The loop of `generate_dbt_models` from `acc` on: each node's records, from its converter, merged on in turn. */
  function ModelsFrom(env: Env, g: Graph, ids: seq<string>, acc: DbtModels): (r: Result<DbtModels>)
    ensures r.Err? ==> r.IsFatal()
    decreases |ids|
  {
    if ids == [] then Ok(acc)
    else
      var node :- NodeById(g, ids[0]);
      var ms :- StepModels(env, NodeConverter(node.nodeType), g, ids[0]);
      ModelsFrom(env, g, ids[1..], MergeModels(acc, ms))
  }

  /** The records of one node: those its converter generates. */
  function NodeModels(env: Env, g: Graph, id: string): (r: Result<DbtModels>)
    ensures r.Err? ==> r.IsFatal()
    ensures id !in g.data ==> r.Err?
  {
    var node :- NodeById(g, id);
    StepModels(env, NodeConverter(node.nodeType), g, id)
  }

  /** The records of the nodes, one after the other: the reference the loop is measured against. */
  function Concatenated(env: Env, g: Graph, ids: seq<string>): (r: Result<DbtModels>)
    ensures r.Err? ==> r.IsFatal()
    decreases |ids|
  {
    if ids == [] then Ok(DbtModels([]))
    else
      var first :- NodeModels(env, g, ids[0]);
      var rest :- Concatenated(env, g, ids[1..]);
      Ok(DbtModels(first.models + rest.models))
  }

  /**
   * Folding from any accumulator gives the accumulator followed by the
   * concatenation of every node's records, in order; the fold fails exactly
   * when some node's records fail.
   */
  lemma {:induction false} ModelsFromConcatenates(env: Env, g: Graph, ids: seq<string>, acc: DbtModels)
    ensures ModelsFrom(env, g, ids, acc).Ok? <==> Concatenated(env, g, ids).Ok?
    ensures ModelsFrom(env, g, ids, acc).Ok? ==>
      ModelsFrom(env, g, ids, acc).value == MergeModels(acc, Concatenated(env, g, ids).value)
    decreases |ids|
  {
    if ids == [] {
      MergeMonoid(acc, acc, acc);
    } else if NodeModels(env, g, ids[0]).Ok? {
      var first := NodeModels(env, g, ids[0]).value;
      ModelsFromConcatenates(env, g, ids[1..], MergeModels(acc, first));
      if Concatenated(env, g, ids[1..]).Ok? {
        MergeMonoid(acc, first, Concatenated(env, g, ids[1..]).value);
      }
    }
  }

  /** `generate_dbt_models`: the records of every node, in node order. */
  function GenerateDbtModels(env: Env, g: Graph): (r: Result<DbtModels>)
    ensures r.Err? ==> r.IsFatal()
    ensures r.Ok? <==> Concatenated(env, g, g.order).Ok?
    ensures r.Ok? ==> r == Concatenated(env, g, g.order)
  {
    ModelsFromConcatenates(env, g, g.order, DbtModels([]));
    MergeMonoid(DbtModels([]), DbtModels([]), DbtModels([]));
    ModelsFrom(env, g, g.order, DbtModels([]))
  }

  /** The records of two runs of nodes are those of the first run, then those of the second. */
  lemma {:induction false} ConcatenatedAppend(env: Env, g: Graph, a: seq<string>, b: seq<string>)
    ensures Concatenated(env, g, a + b).Ok? <==> Concatenated(env, g, a).Ok? && Concatenated(env, g, b).Ok?
    ensures Concatenated(env, g, a + b).Ok? ==>
      Concatenated(env, g, a + b).value.models == Concatenated(env, g, a).value.models + Concatenated(env, g, b).value.models
    decreases |a|
  {
    if a == [] {
      assert a + b == b;
    } else {
      assert (a + b)[0] == a[0] && (a + b)[1..] == a[1..] + b;
      ConcatenatedAppend(env, g, a[1..], b);
      if NodeModels(env, g, a[0]).Ok? && Concatenated(env, g, a[1..]).Ok? && Concatenated(env, g, b).Ok? {
        var first := NodeModels(env, g, a[0]).value.models;
        assert first + (Concatenated(env, g, a[1..]).value.models + Concatenated(env, g, b).value.models)
          == (first + Concatenated(env, g, a[1..]).value.models) + Concatenated(env, g, b).value.models;
      }
    }
  }

  /** `generate_dbt_models`: the loop over the graph's nodes. */
  method GenerateDbtModelsLoop(env: Env, graph: Dag) returns (r: Result<DbtModels>)
    ensures r == GenerateDbtModels(env, graph.View())
  {
    ghost var g := graph.View();
    var ids := graph.order;
    var models := DbtModels([]);
    for i := 0 to |ids|
      invariant ModelsFrom(env, g, ids, DbtModels([])) == ModelsFrom(env, g, ids[i..], models)
    {
      assert ids[i..][1..] == ids[i + 1..];
      var node :- graph.GetNodeById(ids[i]);
      RegistriesWellFormed();
      var kind := GetConverterByType(NodeRegistry, node.nodeType);
      var ms :- StepModels(env, kind, graph.View(), ids[i]);
      models := MergeModels(models, ms);
    }
    assert ids[|ids|..] == [];
    r := Ok(models);
  }

  // ---------------------------------------------------------------------
  // print_results: the tally

  /** How a step fared. */
  datatype Status = Passed | Warning | Failed

  /** An unknown step failed; a known step with columns passed; a known step without them is a warning. */
  function StatusOf(node: Node): (r: Status)
    ensures r == Failed <==> node.isUnknown
    ensures r == Passed <==> !node.isUnknown && node.modelColumns.IsApplicable()
    ensures r == Warning <==> !node.isUnknown && !node.modelColumns.IsApplicable()
  {
    if node.isUnknown then Failed
    else if node.modelColumns.IsApplicable() then Passed
    else Warning
  }

  /** The three counters of `print_results`. */
  datatype Tally = Tally(passed: nat, warning: nat, failed: nat)

  function Total(t: Tally): nat
  {
    t.passed + t.warning + t.failed
  }

  /** One node counted under its status. */
  function Count(t: Tally, s: Status): (r: Tally)
    ensures Total(r) == Total(t) + 1
  {
    match s
    case Passed => t.(passed := t.passed + 1)
    case Warning => t.(warning := t.warning + 1)
    case Failed => t.(failed := t.failed + 1)
  }

  /** The counting loop of `print_results` from `t` on; a key error at a node without data. */
  function TallyFrom(g: Graph, ids: seq<string>, t: Tally): (r: Result<Tally>)
    ensures r.Err? ==> r.IsFatal()
    ensures r.Ok? <==> forall id :: id in ids ==> id in g.data
    decreases |ids|
  {
    if ids == [] then Ok(t)
    else
      var node :- NodeById(g, ids[0]);
      assert forall id :: id in ids ==> id == ids[0] || id in ids[1..];
      TallyFrom(g, ids[1..], Count(t, StatusOf(node)))
  }

  /** The number of the nodes in `ids` with status `s`. */
  function NumberWith(g: Graph, ids: seq<string>, s: Status): nat
    requires forall id :: id in ids ==> id in g.data
    decreases |ids|
  {
    if ids == [] then 0
    else (if StatusOf(g.data[ids[0]]) == s then 1 else 0) + NumberWith(g, ids[1..], s)
  }

  /**
   * Each counter ends as its start plus the number of nodes with its
   * status; every node is counted exactly once.
   */
  lemma {:induction false} TallyCounts(g: Graph, ids: seq<string>, t: Tally)
    requires forall id :: id in ids ==> id in g.data
    ensures var r := TallyFrom(g, ids, t).value;
      && r.passed == t.passed + NumberWith(g, ids, Passed)
      && r.warning == t.warning + NumberWith(g, ids, Warning)
      && r.failed == t.failed + NumberWith(g, ids, Failed)
      && Total(r) == Total(t) + |ids|
    decreases |ids|
  {
    if ids != [] {
      TallyCounts(g, ids[1..], Count(t, StatusOf(g.data[ids[0]])));
    }
  }

  /** No failure counted means no unknown step; no failure and no warning means every step passed. */
  lemma {:induction false} TallyClean(g: Graph, ids: seq<string>)
    requires forall id :: id in ids ==> id in g.data
    ensures NumberWith(g, ids, Failed) == 0 <==> forall id :: id in ids ==> !g.data[id].isUnknown
    ensures NumberWith(g, ids, Failed) == 0 && NumberWith(g, ids, Warning) == 0 <==>
      forall id :: id in ids ==> StatusOf(g.data[id]) == Passed
    decreases |ids|
  {
    if ids != [] {
      TallyClean(g, ids[1..]);
      assert forall id :: id in ids <==> id == ids[0] || id in ids[1..];
    }
  }

  /** The tally of `print_results` over the graph's nodes. */
  function TallyResults(g: Graph): (r: Result<Tally>)
    ensures r.Ok? <==> Nodes(g) <= g.data.Keys
    ensures r.Ok? ==> Total(r.value) == |g.order|
  {
    var r := TallyFrom(g, g.order, Tally(0, 0, 0));
    if r.Ok? then TallyCounts(g, g.order, Tally(0, 0, 0)); r else r
  }

  /** The counting loop of `print_results`. */
  method TallyResultsLoop(graph: Dag) returns (r: Result<Tally>)
    ensures r == TallyResults(graph.View())
  {
    ghost var g := graph.View();
    var ids := graph.order;
    var passed, warning, failed := 0, 0, 0;
    for i := 0 to |ids|
      invariant TallyFrom(g, ids, Tally(0, 0, 0)) == TallyFrom(g, ids[i..], Tally(passed, warning, failed))
    {
      assert ids[i..][1..] == ids[i + 1..];
      var node :- graph.GetNodeById(ids[i]);
      if node.isUnknown {
        failed := failed + 1;
      } else if node.modelColumns.IsApplicable() {
        passed := passed + 1;
      } else {
        warning := warning + 1;
      }
    }
    assert ids[|ids|..] == [];
    r := Ok(Tally(passed, warning, failed));
  }
}
