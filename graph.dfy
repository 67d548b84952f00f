/**
 * The flow graph: a directed graph of step ids, each id carrying its node.
 *
 * As a value, a graph lists its node ids in insertion order, maps ids to node
 * data (an id that is only an edge target has none yet), and lists for every
 * node its parents in the order the graph library reports predecessors: the
 * order in which the edges into the node were first added. `Dag` is the
 * mutable wrapper the translator updates in place.
 */
module FlowGraph {
  import opened Outcome
  import opened Flow
  import opened Columns
  import opened SqlAst

  datatype Graph = Graph(order: seq<string>, data: map<string, Node>, parents: map<string, seq<string>>)

  predicate Distinct(xs: seq<string>)
  {
    forall i, j :: 0 <= i < j < |xs| ==> xs[i] != xs[j]
  }

  function Nodes(g: Graph): set<string>
  {
    set x | x in g.order
  }

  predicate IsEdge(g: Graph, u: string, v: string)
  {
    v in g.parents && u in g.parents[v]
  }

  /** What every graph built by the operations below satisfies. */
  ghost predicate ValidGraph(g: Graph)
  {
    && Distinct(g.order)
    && (forall x :: x in g.parents <==> x in g.order)
    && (forall u, v :: IsEdge(g, u, v) ==> u in g.order)
    && (forall v :: v in g.parents ==> Distinct(g.parents[v]))
    && (forall x :: x in g.data ==> x in g.order && g.data[x].id == x)
  }

  /** The elements of `xs` that satisfy `keep`, in order. */
  function Keep(xs: seq<string>, keep: string -> bool): (r: seq<string>)
    ensures forall x :: x in r <==> x in xs && keep(x)
    ensures Distinct(xs) ==> Distinct(r)
  {
    if xs == [] then []
    else
      var rest := Keep(xs[1..], keep);
      assert forall x :: x in xs[1..] ==> x in xs;
      if keep(xs[0]) then
        assert Distinct(xs) ==> xs[0] !in xs[1..];
        [xs[0]] + rest
      else
        rest
  }

  /** Two duplicate-free sequences with no common element concatenate to a duplicate-free one. */
  lemma DistinctConcat(a: seq<string>, b: seq<string>)
    requires Distinct(a) && Distinct(b)
    requires forall x :: x in a ==> x !in b
    ensures Distinct(a + b)
  {
    forall i, j | 0 <= i < j < |a + b| ensures (a + b)[i] != (a + b)[j] {
      if j < |a| {
        assert (a + b)[i] == a[i] && (a + b)[j] == a[j];
      } else if i >= |a| {
        assert (a + b)[i] == b[i - |a|] && (a + b)[j] == b[j - |a|];
      } else {
        assert (a + b)[i] == a[i] && (a + b)[j] == b[j - |a|];
        assert a[i] in a;
      }
    }
  }

  function Empty(): (g: Graph)
    ensures ValidGraph(g) && Nodes(g) == {}
  {
    Graph([], map[], map[])
  }

  /** `add_node`: the id joins the graph if new; its data is replaced whatever it was. */
  function WithNode(g: Graph, node: Node): (r: Graph)
  {
    if node.id in g.parents then g.(data := g.data[node.id := node])
    else Graph(g.order + [node.id], g.data[node.id := node], g.parents[node.id := []])
  }

  /** An id joins the graph, without data, if it is new. */
  function WithId(g: Graph, x: string): Graph
  {
    if x in g.parents then g else Graph(g.order + [x], g.data, g.parents[x := []])
  }

  /** `add_edge`: both ends join the graph if new; `u` becomes the last parent of `v` if it was not one. */
  function WithEdge(g: Graph, u: string, v: string): (r: Graph)
  {
    var g1 := WithId(WithId(g, u), v);
    if u in g1.parents[v] then g1 else g1.(parents := g1.parents[v := g1.parents[v] + [u]])
  }

  function WithEdges(g: Graph, u: string, targets: seq<string>): Graph
    decreases |targets|
  {
    if targets == [] then g else WithEdges(WithEdge(g, u, targets[0]), u, targets[1..])
  }

  /** The ids a step's `nextNodes` point to; none when the key is absent. */
  function Targets(step: Step): (r: seq<string>)
    ensures step.nextNodes.None? ==> r == []
    ensures step.nextNodes.Some? ==> |r| == |step.nextNodes.value|
    ensures step.nextNodes.Some? ==> forall i :: 0 <= i < |r| ==> r[i] == step.nextNodes.value[i].nextNodeId
  {
    match step.nextNodes
    case None => []
    case Some(next) => seq(|next|, i requires 0 <= i < |next| => next[i].nextNodeId)
  }

  /** `add_node_with_edge`: the node, then one edge to each `nextNodeId` in order. */
  function WithNodeAndEdges(g: Graph, node: Node): Graph
  {
    WithEdges(WithNode(g, node), node.id, Targets(node.raw))
  }

  /** A graph of one node and its outgoing edges: what every converter's `generate_graph` returns. */
  function SingleNodeGraph(node: Node): Graph
  {
    WithNodeAndEdges(Empty(), node)
  }

  /**
   * `merge` (the graph library's compose): the nodes of `g`, then the new
   * nodes of `h`; `h`'s data wins; every edge of either. A node's parents are
   * those it has in `g`, in `g`'s node order, then its new parents from `h`,
   * in `h`'s node order.
   */
  function Compose(g: Graph, h: Graph): Graph
  {
    var order := g.order + Keep(h.order, x => x !in g.parents);
    Graph(order, g.data + h.data,
      map v | v in order :: Keep(g.order, u => IsEdge(g, u, v)) + Keep(h.order, u => IsEdge(h, u, v) && !IsEdge(g, u, v)))
  }

  // ---------------------------------------------------------------------
  // Properties of the constructions

  lemma WithNodeValid(g: Graph, node: Node)
    requires ValidGraph(g)
    ensures var r := WithNode(g, node);
      && ValidGraph(r)
      && Nodes(r) == Nodes(g) + {node.id}
      && r.data == g.data[node.id := node]
      && (forall u, v :: IsEdge(r, u, v) <==> IsEdge(g, u, v))
  {
    WithIdValid(g, node.id);
    var g1 := WithId(g, node.id);
    assert WithNode(g, node) == g1.(data := g.data[node.id := node]);
    WithDataValid(g1, g.data[node.id := node]);
  }

  lemma WithDataValid(g: Graph, data: map<string, Node>)
    requires ValidGraph(g)
    requires forall x :: x in data ==> x in g.order && data[x].id == x
    ensures ValidGraph(g.(data := data))
    ensures forall u, v :: IsEdge(g.(data := data), u, v) <==> IsEdge(g, u, v)
  {
    var r := g.(data := data);
    assert r.parents == g.parents && r.order == g.order;
    forall u, v | IsEdge(r, u, v) ensures u in r.order {
      assert IsEdge(g, u, v);
    }
  }

  lemma WithIdValid(g: Graph, x: string)
    requires ValidGraph(g)
    ensures var r := WithId(g, x);
      && ValidGraph(r)
      && Nodes(r) == Nodes(g) + {x}
      && r.data == g.data
      && (forall u, v :: IsEdge(r, u, v) <==> IsEdge(g, u, v))
  {
    if x !in g.parents {
      var r := WithId(g, x);
      assert x !in g.order;
      forall u, v ensures IsEdge(r, u, v) <==> IsEdge(g, u, v) {
        if v == x {
          assert !IsEdge(g, u, v);
        }
      }
      forall i, j | 0 <= i < j < |r.order| ensures r.order[i] != r.order[j] {
        if j == |g.order| {
          assert r.order[i] in g.order;
        }
      }
      assert Nodes(r) == Nodes(g) + {x};
    }
  }

  lemma WithEdgeValid(g: Graph, u: string, v: string)
    requires ValidGraph(g)
    ensures var r := WithEdge(g, u, v);
      && ValidGraph(r)
      && Nodes(r) == Nodes(g) + {u, v}
      && r.data == g.data
      && (forall a, b :: IsEdge(r, a, b) <==> IsEdge(g, a, b) || (a == u && b == v))
  {
    WithIdValid(g, u);
    var g0 := WithId(g, u);
    WithIdValid(g0, v);
    var g1 := WithId(g0, v);
    assert Nodes(g1) == Nodes(g) + {u, v};
    assert forall a, b :: IsEdge(g1, a, b) <==> IsEdge(g, a, b);
    assert u in g1.order && v in g1.parents;
    if u !in g1.parents[v] {
      AppendParentValid(g1, u, v);
      var r := g1.(parents := g1.parents[v := g1.parents[v] + [u]]);
      assert WithEdge(g, u, v) == r;
      assert Nodes(r) == Nodes(g1);
    } else {
      assert IsEdge(g1, u, v);
    }
  }

  /** Appending a new parent `u` to the parents of `v` adds the edge `u -> v` and nothing else. */
  lemma AppendParentValid(g: Graph, u: string, v: string)
    requires ValidGraph(g) && u in g.order && v in g.parents && u !in g.parents[v]
    ensures var r := g.(parents := g.parents[v := g.parents[v] + [u]]);
      && ValidGraph(r)
      && (forall a, b :: IsEdge(r, a, b) <==> IsEdge(g, a, b) || (a == u && b == v))
  {
    var r := g.(parents := g.parents[v := g.parents[v] + [u]]);
    forall a, b ensures IsEdge(r, a, b) <==> IsEdge(g, a, b) || (a == u && b == v) {
    }
    DistinctConcat(g.parents[v], [u]);
  }

  lemma WithEdgesValid(g: Graph, u: string, targets: seq<string>)
    requires ValidGraph(g) && u in g.parents
    ensures var r := WithEdges(g, u, targets);
      && ValidGraph(r)
      && Nodes(r) == Nodes(g) + (set t | t in targets)
      && r.data == g.data
      && (forall a, b :: IsEdge(r, a, b) <==> IsEdge(g, a, b) || (a == u && b in targets))
  {
    WithEdgesKeepsValid(g, u, targets);
    WithEdgesNodes(g, u, targets);
    WithEdgesEdges(g, u, targets);
  }

  lemma {:induction false} WithEdgesKeepsValid(g: Graph, u: string, targets: seq<string>)
    requires ValidGraph(g) && u in g.parents
    ensures ValidGraph(WithEdges(g, u, targets)) && WithEdges(g, u, targets).data == g.data
    decreases |targets|
  {
    if targets != [] {
      WithEdgeValid(g, u, targets[0]);
      WithEdgesKeepsValid(WithEdge(g, u, targets[0]), u, targets[1..]);
    }
  }

  lemma {:induction false} WithEdgesNodes(g: Graph, u: string, targets: seq<string>)
    requires ValidGraph(g) && u in g.parents
    ensures Nodes(WithEdges(g, u, targets)) == Nodes(g) + set t | t in targets
    decreases |targets|
  {
    if targets != [] {
      WithEdgeValid(g, u, targets[0]);
      WithEdgesNodes(WithEdge(g, u, targets[0]), u, targets[1..]);
      assert (set t | t in targets) == {targets[0]} + set t | t in targets[1..];
    }
  }

  lemma {:induction false} WithEdgesEdges(g: Graph, u: string, targets: seq<string>)
    requires ValidGraph(g) && u in g.parents
    ensures forall a, b :: IsEdge(WithEdges(g, u, targets), a, b) <==> IsEdge(g, a, b) || (a == u && b in targets)
    decreases |targets|
  {
    if targets != [] {
      var g1 := WithEdge(g, u, targets[0]);
      WithEdgeValid(g, u, targets[0]);
      WithEdgesEdges(g1, u, targets[1..]);
      forall a, b ensures IsEdge(WithEdges(g, u, targets), a, b) <==> IsEdge(g, a, b) || (a == u && b in targets) {
        if a == u && b in targets && b != targets[0] {
          assert b in targets[1..];
        }
      }
    }
  }

  /**
   * `add_node_with_edge`: the node's data is stored under its id (replacing
   * any earlier data), every `nextNodeId` becomes a node, and the edges are the
   * old ones plus one from the node to each `nextNodeId`.
   */
  lemma WithNodeAndEdgesValid(g: Graph, node: Node)
    requires ValidGraph(g)
    ensures var r := WithNodeAndEdges(g, node);
      && ValidGraph(r)
      && Nodes(r) == Nodes(g) + {node.id} + (set t | t in Targets(node.raw))
      && r.data == g.data[node.id := node]
      && (forall a, b :: IsEdge(r, a, b) <==> IsEdge(g, a, b) || (a == node.id && b in Targets(node.raw)))
  {
    WithNodeValid(g, node);
    var g1 := WithNode(g, node);
    assert node.id in g1.parents;
    assert Nodes(g1) == Nodes(g) + {node.id};
    WithEdgesValid(g1, node.id, Targets(node.raw));
    assert WithNodeAndEdges(g, node) == WithEdges(g1, node.id, Targets(node.raw));
  }

  /** `merge`: the union of both node sets and both edge sets, with the data of the second graph winning. */
  lemma ComposeValid(g: Graph, h: Graph)
    requires ValidGraph(g) && ValidGraph(h)
    ensures var r := Compose(g, h);
      && ValidGraph(r)
      && Nodes(r) == Nodes(g) + Nodes(h)
      && r.data == g.data + h.data
      && (forall u, v :: IsEdge(r, u, v) <==> IsEdge(g, u, v) || IsEdge(h, u, v))
  {
    ComposeNodes(g, h);
    ComposeParentsDistinct(g, h);
    ComposeEdges(g, h);
    ComposeClosed(g, h, Compose(g, h));
  }

  /** Edge sources and data keys of a composition are among its nodes. */
  lemma ComposeClosed(g: Graph, h: Graph, r: Graph)
    requires ValidGraph(g) && ValidGraph(h)
    requires Nodes(r) == Nodes(g) + Nodes(h) && r.data == g.data + h.data
    requires forall u, v :: IsEdge(r, u, v) <==> IsEdge(g, u, v) || IsEdge(h, u, v)
    ensures forall u, v :: IsEdge(r, u, v) ==> u in r.order
    ensures forall x :: x in r.data ==> x in r.order && r.data[x].id == x
  {
    forall u, v | IsEdge(r, u, v) ensures u in r.order {
      assert u in Nodes(g) + Nodes(h);
    }
    forall x | x in r.data ensures x in r.order && r.data[x].id == x {
      assert x in Nodes(g) + Nodes(h);
    }
  }

  lemma ComposeNodes(g: Graph, h: Graph)
    requires ValidGraph(g) && ValidGraph(h)
    ensures var r := Compose(g, h);
      && Distinct(r.order)
      && Nodes(r) == Nodes(g) + Nodes(h)
      && (forall x :: x in r.parents <==> x in r.order)
  {
    var added := Keep(h.order, x => x !in g.parents);
    assert Compose(g, h).order == g.order + added;
    DistinctConcat(g.order, added);
    forall x | x in Nodes(g) + Nodes(h) ensures x in g.order + added {
      if x !in g.order {
        assert x in added;
      }
    }
  }

  lemma ComposeParentsDistinct(g: Graph, h: Graph)
    requires ValidGraph(g) && ValidGraph(h)
    ensures var r := Compose(g, h);
      forall v :: v in r.parents ==> Distinct(r.parents[v])
  {
    var r := Compose(g, h);
    forall v | v in r.parents ensures Distinct(r.parents[v]) {
      var a := Keep(g.order, u => IsEdge(g, u, v));
      var b := Keep(h.order, u => IsEdge(h, u, v) && !IsEdge(g, u, v));
      assert r.parents[v] == a + b;
      DistinctConcat(a, b);
    }
  }

  lemma ComposeEdges(g: Graph, h: Graph)
    requires ValidGraph(g) && ValidGraph(h)
    ensures var r := Compose(g, h);
      forall u, v :: IsEdge(r, u, v) <==> IsEdge(g, u, v) || IsEdge(h, u, v)
  {
    ComposeNodes(g, h);
    forall u, v ensures IsEdge(Compose(g, h), u, v) <==> IsEdge(g, u, v) || IsEdge(h, u, v) {
      ComposeEdge(g, h, u, v);
    }
  }

  lemma ComposeEdge(g: Graph, h: Graph, u: string, v: string)
    requires ValidGraph(g) && ValidGraph(h)
    requires Nodes(Compose(g, h)) == Nodes(g) + Nodes(h)
    ensures IsEdge(Compose(g, h), u, v) <==> IsEdge(g, u, v) || IsEdge(h, u, v)
  {
    var r := Compose(g, h);
    if v in r.order {
      assert r.parents[v] == Keep(g.order, u => IsEdge(g, u, v)) + Keep(h.order, u => IsEdge(h, u, v) && !IsEdge(g, u, v));
      if IsEdge(g, u, v) {
        assert u in Keep(g.order, u => IsEdge(g, u, v));
      } else if IsEdge(h, u, v) {
        assert u in Keep(h.order, u => IsEdge(h, u, v) && !IsEdge(g, u, v));
      }
    } else {
      assert v !in Nodes(g) + Nodes(h);
    }
  }

  // ---------------------------------------------------------------------
  // Reading the graph

  /** `get_node_by_id`: the data stored under the id; a key error when there is none. */
  function NodeById(g: Graph, id: string): (r: Result<Node>)
    ensures r.Ok? <==> id in g.data
    ensures r.Err? ==> r.IsFatal()
  {
    if id in g.data then Ok(g.data[id]) else Err(Fatal("KeyError: 'data'"))
  }

  /** `get_parent_ids`: the predecessors, in the order the graph reports them; an error for an id not in the graph. */
  function ParentIds(g: Graph, id: string): (r: Result<seq<string>>)
    ensures r.Ok? <==> id in g.parents
    ensures r.Ok? ==> forall u :: u in r.value <==> IsEdge(g, u, id)
    ensures r.Err? ==> r.IsFatal()
  {
    if id in g.parents then Ok(g.parents[id]) else Err(Fatal("The node is not in the digraph."))
  }

  /** The name a parent is referred to by: its model name once built, else its display name. */
  function ReferenceName(node: Node): string
  {
    if node.modelName.IsApplicable() then node.modelName.Value() else node.name
  }

  function ModelNamesOf(g: Graph, ids: seq<string>): (r: Result<seq<string>>)
    ensures r.Ok? ==> |r.value| == |ids|
    ensures r.Ok? ==> forall i :: 0 <= i < |ids| ==> ids[i] in g.data && r.value[i] == ReferenceName(g.data[ids[i]])
    ensures r.Ok? <==> forall i :: 0 <= i < |ids| ==> ids[i] in g.data
    ensures r.Err? ==> r == Err(Fatal("KeyError: 'data'"))
  {
    if ids == [] then Ok([])
    else
      var node :- NodeById(g, ids[0]);
      var rest :- ModelNamesOf(g, ids[1..]);
      Ok([ReferenceName(node)] + rest)
  }

  /** `get_parent_model_names`: one name per parent, in parent order. */
  function ParentModelNames(g: Graph, id: string): Result<seq<string>>
  {
    var ids :- ParentIds(g, id);
    ModelNamesOf(g, ids)
  }

  /** The namespaces a parent's `nextNodes` lead into; a key error when it has no `nextNodes`. */
  function NextNamespaces(node: Node): (r: Result<seq<string>>)
    ensures r.Ok? <==> node.raw.nextNodes.Some?
    ensures r.Err? ==> r.IsFatal()
  {
    match node.raw.nextNodes
    case None => Err(Fatal("KeyError: 'nextNodes'"))
    case Some(next) => Ok(seq(|next|, i requires 0 <= i < |next| => next[i].nextNamespace))
  }

  /** Whether a node lists `namespace` among its `nextNodes`. */
  predicate Lists(node: Node, namespace: string)
  {
    NextNamespaces(node).Ok? && namespace in NextNamespaces(node).value
  }

  function FirstListing(g: Graph, ids: seq<string>, namespace: string): (r: Result<Node>)
    ensures r.Ok? ==> Lists(r.value, namespace)
    ensures r.Ok? ==> exists k :: (0 <= k < |ids| && ids[k] in g.data && r.value == g.data[ids[k]] &&
      forall j :: 0 <= j < k ==> ids[j] in g.data && !Lists(g.data[ids[j]], namespace))
    ensures r.Err? ==> r.IsFatal()
    ensures (forall k :: 0 <= k < |ids| ==> ids[k] in g.data && g.data[ids[k]].raw.nextNodes.Some?) ==>
      (r.Ok? <==> exists k :: 0 <= k < |ids| && Lists(g.data[ids[k]], namespace))
  {
    if ids == [] then Err(Fatal("No such namespace item exists."))
    else
      var node :- NodeById(g, ids[0]);
      var spaces :- NextNamespaces(node);
      if namespace in spaces then Ok(node) else FirstListing(g, ids[1..], namespace)
  }

  /** One step of the search: the head parent, when it has data and `nextNodes`, is found or skipped. */
  lemma FirstListingCons(g: Graph, ids: seq<string>, namespace: string)
    requires ids != [] && ids[0] in g.data && g.data[ids[0]].raw.nextNodes.Some?
    ensures FirstListing(g, ids, namespace) ==
      if Lists(g.data[ids[0]], namespace) then Ok(g.data[ids[0]]) else FirstListing(g, ids[1..], namespace)
  {
  }

  /** `get_parent_by_namespace`: the first parent whose `nextNodes` lead into `namespace`; an error when none does. */
  function ParentByNamespace(g: Graph, id: string, namespace: string): Result<Node>
  {
    var ids :- ParentIds(g, id);
    FirstListing(g, ids, namespace)
  }

  /** Every parent in `ids`, in turn, maps each namespace its `nextNodes` lead into to `entry` of that parent. */
  function Gather<V>(g: Graph, ids: seq<string>, acc: map<string, V>, entry: Node -> V): (r: Result<map<string, V>>)
    ensures r.Ok? ==> acc.Keys <= r.value.Keys
    ensures r.Err? ==> r.IsFatal()
    decreases |ids|
  {
    if ids == [] then Ok(acc)
    else
      var node :- NodeById(g, ids[0]);
      var spaces :- NextNamespaces(node);
      Gather(g, ids[1..], PutAll(acc, spaces, entry(node)), entry)
  }

  function PutAll<V>(acc: map<string, V>, keys: seq<string>, v: V): (r: map<string, V>)
    ensures r.Keys == acc.Keys + set k | k in keys
    ensures forall k :: k in r ==> r[k] == if k in keys then v else acc[k]
    decreases |keys|
  {
    if keys == [] then acc else PutAll(acc[keys[0] := v], keys[1..], v)
  }

  /** `get_all_parent_columns`: starts from `Default` ↦ unknown. */
  function AllParentColumns(g: Graph, id: string): (r: Result<map<string, ModelColumns>>)
    ensures r.Ok? ==> "Default" in r.value
    ensures r.Err? ==> r.IsFatal()
  {
    var ids :- ParentIds(g, id);
    Gather(g, ids, map["Default" := Unknown], (n: Node) => n.modelColumns)
  }

  /** `g` and `h` hold the same data, or none, under each id of `ids`. */
  ghost predicate SameData(g: Graph, h: Graph, ids: seq<string>)
  {
    forall p :: p in ids ==> (p in g.data <==> p in h.data) && (p in g.data ==> g.data[p] == h.data[p])
  }

  /**
   * `g` and `h` agree on all a step's column computation reads: the step
   * itself, the list of its parents and every parent's data.
   */
  ghost predicate SameInputs(g: Graph, h: Graph, id: string)
  {
    && (id in g.data <==> id in h.data)
    && (id in g.data ==> g.data[id].raw == h.data[id].raw)
    && (id in g.parents <==> id in h.parents)
    && (id in g.parents ==> g.parents[id] == h.parents[id] && SameData(g, h, g.parents[id]))
  }

  /** Gathering reads nothing but the gathered parents' data. */
  lemma {:induction false} GatherLocal<V>(g: Graph, h: Graph, ids: seq<string>, acc: map<string, V>, entry: Node -> V)
    requires SameData(g, h, ids)
    ensures Gather(g, ids, acc, entry) == Gather(h, ids, acc, entry)
    decreases |ids|
  {
    if ids != [] && ids[0] in g.data {
      var spaces := NextNamespaces(g.data[ids[0]]);
      if spaces.Ok? {
        GatherLocal(g, h, ids[1..], PutAll(acc, spaces.value, entry(g.data[ids[0]])), entry);
      }
    }
  }

  /** When the start map and every gathered parent give the same value, so does every namespace gathered. */
  lemma {:induction false} GatherConstant<V>(g: Graph, ids: seq<string>, acc: map<string, V>, entry: Node -> V, v: V)
    requires forall k :: k in acc ==> acc[k] == v
    requires forall p :: p in ids && p in g.data ==> entry(g.data[p]) == v
    ensures Gather(g, ids, acc, entry).Ok? ==> forall k :: k in Gather(g, ids, acc, entry).value ==> Gather(g, ids, acc, entry).value[k] == v
    decreases |ids|
  {
    if ids != [] && ids[0] in g.data {
      var spaces := NextNamespaces(g.data[ids[0]]);
      if spaces.Ok? {
        GatherConstant(g, ids[1..], PutAll(acc, spaces.value, entry(g.data[ids[0]])), entry, v);
      }
    }
  }

  /** A step's gathered parent columns depend on its parent list and its parents' data alone. */
  lemma AllParentColumnsLocal(g: Graph, h: Graph, id: string)
    requires SameInputs(g, h, id)
    ensures AllParentColumns(g, id) == AllParentColumns(h, id)
  {
    if id in g.parents {
      GatherLocal(g, h, g.parents[id], map["Default" := Unknown], (n: Node) => n.modelColumns);
    }
  }

  /** `get_all_parent_as_table`: starts from nothing. */
  function AllParentAsTable(g: Graph, id: string): (r: Result<map<string, Query>>)
    ensures r.Err? ==> r.IsFatal()
  {
    var ids :- ParentIds(g, id);
    Gather(g, ids, map[], (n: Node) => n.ToTable(""))
  }

  /** The namespaces the parents in `ids` lead into. */
  function Listed(g: Graph, ids: seq<string>): set<string>
  {
    set k, i | 0 <= i < |ids| && ids[i] in g.data && k in ListedBy(g.data[ids[i]]) :: k
  }

  function ListedBy(node: Node): set<string>
  {
    if NextNamespaces(node).Ok? then set k | k in NextNamespaces(node).value else {}
  }

  lemma ListedCons(g: Graph, ids: seq<string>)
    requires ids != [] && ids[0] in g.data
    ensures Listed(g, ids) == ListedBy(g.data[ids[0]]) + Listed(g, ids[1..])
  {
    forall k | k in Listed(g, ids) ensures k in ListedBy(g.data[ids[0]]) + Listed(g, ids[1..]) {
      var i :| 0 <= i < |ids| && ids[i] in g.data && k in ListedBy(g.data[ids[i]]);
      if i > 0 {
        assert ids[1..][i - 1] == ids[i];
      }
    }
    forall k | k in Listed(g, ids[1..]) ensures k in Listed(g, ids) {
      var i :| 0 <= i < |ids[1..]| && ids[1..][i] in g.data && k in ListedBy(g.data[ids[1..][i]]);
      assert ids[i + 1] == ids[1..][i];
    }
  }

  /**
   * What gathering gives: the start keys and every namespace a parent lists;
   * a namespace some parent lists maps to the entry of a parent listing it
   * (the last one); every other key keeps its start value.
   */
  ghost predicate Gathered<V>(g: Graph, ids: seq<string>, acc: map<string, V>, entry: Node -> V, m: map<string, V>)
  {
    && m.Keys == acc.Keys + Listed(g, ids)
    && (forall k :: k in m && k !in Listed(g, ids) ==> m[k] == acc[k])
    && GatheredLast(g, ids, entry, m)
  }

  ghost predicate GatheredLast<V>(g: Graph, ids: seq<string>, entry: Node -> V, m: map<string, V>)
  {
    forall k :: k in Listed(g, ids) ==>
      exists i :: 0 <= i < |ids| && ids[i] in g.data && k in ListedBy(g.data[ids[i]]) && k in m && m[k] == entry(g.data[ids[i]])
  }

  lemma {:induction false} GatherContents<V>(g: Graph, ids: seq<string>, acc: map<string, V>, entry: Node -> V)
    requires Gather(g, ids, acc, entry).Ok?
    ensures Gathered(g, ids, acc, entry, Gather(g, ids, acc, entry).value)
    decreases |ids|
  {
    if ids != [] {
      var node := g.data[ids[0]];
      var acc' := PutAll(acc, NextNamespaces(node).value, entry(node));
      GatherContents(g, ids[1..], acc', entry);
      var m := Gather(g, ids[1..], acc', entry).value;
      assert Gather(g, ids, acc, entry).value == m;
      ListedCons(g, ids);
      GatheredKeysCons(acc, acc', ListedBy(node), Listed(g, ids[1..]), m);
      GatheredLastCons(g, ids, acc', entry, m);
    }
  }

  /** The key and start-value clauses for one more parent, listing `first`. */
  lemma GatheredKeysCons<V>(acc: map<string, V>, acc': map<string, V>, first: set<string>, listed: set<string>, m: map<string, V>)
    requires acc'.Keys == acc.Keys + first
    requires forall k :: k in acc' && k !in first ==> acc'[k] == acc[k]
    requires m.Keys == acc'.Keys + listed
    requires forall k :: k in m && k !in listed ==> m[k] == acc'[k]
    ensures m.Keys == acc.Keys + (first + listed)
    ensures forall k :: k in m && k !in first + listed ==> m[k] == acc[k]
  {
  }

  /** The last-parent clause for one more parent. */
  lemma GatheredLastCons<V>(g: Graph, ids: seq<string>, acc': map<string, V>, entry: Node -> V, m: map<string, V>)
    requires ids != [] && ids[0] in g.data && NextNamespaces(g.data[ids[0]]).Ok?
    requires forall k :: k in ListedBy(g.data[ids[0]]) ==> k in acc' && acc'[k] == entry(g.data[ids[0]])
    requires forall k :: k in m && k !in Listed(g, ids[1..]) ==> k in acc' && m[k] == acc'[k]
    requires m.Keys == acc'.Keys + Listed(g, ids[1..])
    requires GatheredLast(g, ids[1..], entry, m)
    requires Listed(g, ids) == ListedBy(g.data[ids[0]]) + Listed(g, ids[1..])
    ensures GatheredLast(g, ids, entry, m)
  {
    forall k | k in Listed(g, ids)
      ensures exists i :: 0 <= i < |ids| && ids[i] in g.data && k in ListedBy(g.data[ids[i]]) && k in m && m[k] == entry(g.data[ids[i]])
    {
      if k in Listed(g, ids[1..]) {
        var i :| 0 <= i < |ids[1..]| && ids[1..][i] in g.data && k in ListedBy(g.data[ids[1..][i]])
          && k in m && m[k] == entry(g.data[ids[1..][i]]);
        assert ids[i + 1] == ids[1..][i];
      } else {
        assert 0 < |ids| && ids[0] in g.data && k in ListedBy(g.data[ids[0]]) && k in m;
      }
    }
  }

  /**
   * `get_all_parent_columns`: `Default` is always a key, unknown unless a
   * parent leads into it; every namespace a parent leads into maps to the
   * columns of a parent leading into it; there are no other keys.
   */
  lemma AllParentColumnsContents(g: Graph, id: string)
    requires AllParentColumns(g, id).Ok?
    ensures var m := AllParentColumns(g, id).value;
      && m.Keys == {"Default"} + Listed(g, g.parents[id])
      && ("Default" !in Listed(g, g.parents[id]) ==> m["Default"] == Unknown)
      && (forall k :: k in Listed(g, g.parents[id]) ==>
            exists p :: p in g.parents[id] && p in g.data && k in ListedBy(g.data[p]) && m[k] == g.data[p].modelColumns)
  {
    var ids := g.parents[id];
    GatherContents(g, ids, map["Default" := Unknown], (n: Node) => n.modelColumns);
  }

  /** `get_all_parent_as_table`: exactly the namespaces the parents lead into; no `Default` unless one does. */
  lemma AllParentAsTableContents(g: Graph, id: string)
    requires AllParentAsTable(g, id).Ok?
    ensures var m := AllParentAsTable(g, id).value;
      && m.Keys == Listed(g, g.parents[id])
      && (forall k :: k in m ==>
            exists p :: p in g.parents[id] && p in g.data && k in ListedBy(g.data[p]) && m[k] == g.data[p].ToTable(""))
  {
    var ids := g.parents[id];
    GatherContents(g, ids, map[], (n: Node) => n.ToTable(""));
  }

  // ---------------------------------------------------------------------
  // Generations

  /**
   * `nodes_per_generation` (topological generations): every node in exactly
   * one non-empty generation, every edge from an earlier generation to a
   * later one, and every node past the first generation with a parent in the
   * generation just before it.
   */
  ghost predicate IsGenerations(g: Graph, gens: seq<set<string>>)
  {
    && (forall i :: 0 <= i < |gens| ==> gens[i] != {})
    && (forall i, j :: 0 <= i < j < |gens| ==> gens[i] !! gens[j])
    && (forall x :: x in g.order <==> exists i :: 0 <= i < |gens| && x in gens[i])
    && (forall i, j, u, v :: 0 <= i < |gens| && 0 <= j < |gens| && u in gens[i] && v in gens[j] && IsEdge(g, u, v) ==> i < j)
    && (forall k {:trigger ParentsIn(g, gens[k], gens[k - 1])} :: 0 < k < |gens| ==> ParentsIn(g, gens[k], gens[k - 1]))
  }

  /** Every node of `layer` has a parent in `before`. */
  ghost predicate ParentsIn(g: Graph, layer: set<string>, before: set<string>)
  {
    forall v {:trigger g.parents[v]} :: v in layer ==> exists u :: u in before && IsEdge(g, u, v)
  }

  /** A non-empty set of nodes each of which has a parent in the set: the graph has a cycle. */
  ghost predicate Cyclic(g: Graph, nodes: set<string>)
  {
    && nodes != {}
    && (forall v {:trigger g.parents[v]} :: v in nodes ==> exists u :: u in nodes && IsEdge(g, u, v))
  }

  /** The nodes of `remaining` none of whose parents are still in `remaining`. */
  function Ready(g: Graph, remaining: set<string>): set<string>
  {
    set v | v in remaining && v in g.parents && forall p :: p in g.parents[v] ==> p !in remaining
  }

  /** Taking a non-empty part away leaves fewer nodes. */
  lemma Shrinks(remaining: set<string>, layer: set<string>)
    requires layer <= remaining && layer != {}
    ensures |remaining - layer| < |remaining|
  {
    var x :| x in layer;
    SubsetSmaller(remaining - layer, remaining - {x});
  }

  lemma {:induction false} SubsetSmaller(a: set<string>, b: set<string>)
    requires a <= b
    ensures |a| <= |b|
    decreases |b|
  {
    if a != {} {
      var x :| x in a;
      SubsetSmaller(a - {x}, b - {x});
    }
  }

  const CycleMessage := "NetworkXUnfeasible: Graph contains a cycle or graph changed during iteration"

  /**
   * The graph library's topological generations of the nodes in `remaining`:
   * peel off the nodes none of whose parents are left, again and again; when
   * nodes are left but none can be peeled, the library raises.
   */
  function Layers(g: Graph, remaining: set<string>): (r: Result<seq<set<string>>>)
    ensures r.Err? ==> r == Err(Fatal(CycleMessage))
    decreases |remaining|
  {
    if remaining == {} then Ok([])
    else
      var layer := Ready(g, remaining);
      if layer == {} then Err(Fatal(CycleMessage))
      else
        Shrinks(remaining, layer);
        var rest :- Layers(g, remaining - layer);
        Ok([layer] + rest)
  }

  /** `topological_generations` over the whole graph. */
  function TopologicalGenerations(g: Graph): Result<seq<set<string>>>
  {
    Layers(g, Nodes(g))
  }

  /** The first generation is what is ready; the rest are the generations of what is left. */
  lemma LayersFirst(g: Graph, remaining: set<string>)
    requires Layers(g, remaining).Ok? && remaining != {}
    ensures var r := Layers(g, remaining).value;
      && |r| > 0 && r[0] == Ready(g, remaining) && r[0] != {}
      && Layers(g, remaining - r[0]).Ok? && r[1..] == Layers(g, remaining - r[0]).value
  {
    var layer := Ready(g, remaining);
    var rest := Layers(g, remaining - layer);
    assert Layers(g, remaining) == Ok([layer] + rest.value);
    assert ([layer] + rest.value)[1..] == rest.value;
  }

  /** `gens` are non-empty, disjoint, and together exactly `nodes`. */
  ghost predicate Partition(gens: seq<set<string>>, nodes: set<string>)
  {
    && (forall i :: 0 <= i < |gens| ==> gens[i] != {})
    && (forall i, x :: 0 <= i < |gens| && x in gens[i] ==> x in nodes)
    && (forall i, j :: 0 <= i < j < |gens| ==> gens[i] !! gens[j])
    && (forall x :: x in nodes ==> exists i :: 0 <= i < |gens| && x in gens[i])
  }

  /** Every edge between two of `gens` goes from an earlier one to a later one. */
  ghost predicate Forward(g: Graph, gens: seq<set<string>>)
  {
    forall i, j, u, v :: 0 <= i < |gens| && 0 <= j < |gens| && u in gens[i] && v in gens[j] && IsEdge(g, u, v) ==> i < j
  }

  /** Every member of `gens` past the first has a parent in the one before. */
  ghost predicate Chain(g: Graph, gens: seq<set<string>>)
  {
    forall k {:trigger ParentsIn(g, gens[k], gens[k - 1])} :: 0 < k < |gens| ==> ParentsIn(g, gens[k], gens[k - 1])
  }

  lemma {:induction false} LayersPartition(g: Graph, remaining: set<string>)
    requires Layers(g, remaining).Ok?
    ensures Partition(Layers(g, remaining).value, remaining)
    decreases |remaining|
  {
    if remaining != {} {
      LayersFirst(g, remaining);
      var layer := Ready(g, remaining);
      Shrinks(remaining, layer);
      LayersPartition(g, remaining - layer);
      PartitionStep(remaining, layer, Layers(g, remaining - layer).value);
    }
  }

  lemma PartitionStep(remaining: set<string>, layer: set<string>, rest: seq<set<string>>)
    requires layer != {} && layer <= remaining && Partition(rest, remaining - layer)
    ensures Partition([layer] + rest, remaining)
  {
    var r := [layer] + rest;
    forall i | 0 < i < |r| ensures r[i] != {} {
      assert r[i] == rest[i - 1];
    }
    forall i, x | 0 < i < |r| && x in r[i] ensures x in remaining {
      assert r[i] == rest[i - 1];
      assert x in remaining - layer;
    }
    forall i, j | 0 <= i < j < |r| ensures r[i] !! r[j] {
      assert r[j] == rest[j - 1];
      if i > 0 {
        assert r[i] == rest[i - 1];
      }
    }
    forall x | x in remaining ensures exists i :: 0 <= i < |r| && x in r[i] {
      if x !in layer {
        assert x in remaining - layer;
        var i :| 0 <= i < |rest| && x in rest[i];
        assert x in r[i + 1];
      } else {
        assert x in r[0];
      }
    }
  }

  lemma {:induction false} LayersForward(g: Graph, remaining: set<string>)
    requires Layers(g, remaining).Ok?
    ensures Forward(g, Layers(g, remaining).value)
    decreases |remaining|
  {
    if remaining != {} {
      LayersFirst(g, remaining);
      LayersPartition(g, remaining);
      var layer := Ready(g, remaining);
      Shrinks(remaining, layer);
      LayersForward(g, remaining - layer);
      ForwardStep(g, remaining, Layers(g, remaining - layer).value);
    }
  }

  lemma ForwardStep(g: Graph, remaining: set<string>, rest: seq<set<string>>)
    requires Partition([Ready(g, remaining)] + rest, remaining) && Forward(g, rest)
    ensures Forward(g, [Ready(g, remaining)] + rest)
  {
    var r := [Ready(g, remaining)] + rest;
    forall i, j, u, v | 0 <= i < |r| && 0 <= j < |r| && u in r[i] && v in r[j] && IsEdge(g, u, v) ensures i < j {
      if j == 0 {
        assert false;
      } else if i > 0 {
        assert u in rest[i - 1] && v in rest[j - 1];
      }
    }
  }

  lemma {:induction false} LayersChained(g: Graph, remaining: set<string>)
    requires Layers(g, remaining).Ok?
    ensures Chain(g, Layers(g, remaining).value)
    decreases |remaining|
  {
    if remaining != {} {
      LayersFirst(g, remaining);
      var layer := Ready(g, remaining);
      Shrinks(remaining, layer);
      LayersChained(g, remaining - layer);
      var rest := Layers(g, remaining - layer).value;
      if rest != [] {
        LayersFirst(g, remaining - layer);
      }
      ChainStep(g, remaining, rest);
    }
  }

  lemma ChainStep(g: Graph, remaining: set<string>, rest: seq<set<string>>)
    requires rest != [] ==> rest[0] == Ready(g, remaining - Ready(g, remaining))
    requires Chain(g, rest)
    ensures Chain(g, [Ready(g, remaining)] + rest)
  {
    var layer := Ready(g, remaining);
    var r := [layer] + rest;
    forall k | 0 < k < |r| ensures ParentsIn(g, r[k], r[k - 1]) {
      if k == 1 {
        forall v | v in r[1] ensures exists u :: u in r[0] && IsEdge(g, u, v) {
          assert v in Ready(g, remaining - layer);
          assert v !in layer;
          var u :| u in g.parents[v] && u in remaining;
          assert IsEdge(g, u, v);
        }
      } else {
        var k' := k - 1;
        assert r[k] == rest[k'] && r[k - 1] == rest[k' - 1];
        assert ParentsIn(g, rest[k'], rest[k' - 1]);
      }
    }
  }

  /** The library raises only when some of the nodes left form a cycle. */
  lemma {:induction false} LayersStuck(g: Graph, remaining: set<string>)
    requires remaining <= g.parents.Keys && Layers(g, remaining).Err?
    ensures exists nodes :: Cyclic(g, nodes)
    decreases |remaining|
  {
    var layer := Ready(g, remaining);
    if layer == {} {
      StuckCyclic(g, remaining);
    } else {
      Shrinks(remaining, layer);
      LayersStuck(g, remaining - layer);
    }
  }

  /** Nodes left of which none is ready form a cycle. */
  lemma StuckCyclic(g: Graph, remaining: set<string>)
    requires remaining <= g.parents.Keys && remaining != {} && Ready(g, remaining) == {}
    ensures Cyclic(g, remaining)
  {
    forall v | v in remaining ensures exists u :: u in remaining && IsEdge(g, u, v) {
      assert v !in Ready(g, remaining);
      var u :| u in g.parents[v] && u in remaining;
    }
  }

  /**
   * `topological_generations`: when the library returns, the generations are
   * the topological generations of the graph; it raises only when the graph
   * has a cycle.
   */
  lemma TopologicalGenerationsCorrect(g: Graph)
    requires ValidGraph(g)
    ensures var r := TopologicalGenerations(g);
      && (r.Ok? ==> IsGenerations(g, r.value))
      && (r.Err? ==> exists nodes :: Cyclic(g, nodes))
  {
    if TopologicalGenerations(g).Ok? {
      var r := TopologicalGenerations(g).value;
      LayersPartition(g, Nodes(g));
      LayersForward(g, Nodes(g));
      LayersChained(g, Nodes(g));
      GenerationsFromParts(g, r);
    } else {
      assert Nodes(g) <= g.parents.Keys;
      LayersStuck(g, Nodes(g));
    }
  }

  lemma GenerationsFromParts(g: Graph, gens: seq<set<string>>)
    requires Partition(gens, Nodes(g)) && Forward(g, gens) && Chain(g, gens)
    ensures IsGenerations(g, gens)
  {
    forall x | x in g.order ensures exists i :: 0 <= i < |gens| && x in gens[i] {
      assert x in Nodes(g);
    }
    forall i, x | 0 <= i < |gens| && x in gens[i] ensures x in g.order {
      assert x in Nodes(g);
    }
  }

  /** The mutable graph the translator builds and updates. */
  class Dag {
    var order: seq<string>
    var data: map<string, Node>
    var parents: map<string, seq<string>>

    function View(): Graph
      reads this
    {
      Graph(order, data, parents)
    }

    ghost predicate Valid()
      reads this
    {
      ValidGraph(View())
    }

    constructor ()
      ensures Valid() && View() == Empty()
    {
      order := [];
      data := map[];
      parents := map[];
    }

    /** `add_node`: store the node under its id, replacing any earlier data. */
    method AddNode(node: Node)
      requires Valid()
      modifies this
      ensures Valid() && View() == WithNode(old(View()), node)
    {
      WithNodeValid(View(), node);
      if node.id !in parents {
        order := order + [node.id];
        parents := parents[node.id := []];
      }
      data := data[node.id := node];
    }

    /** `add_edge` */
    method AddEdge(u: string, v: string)
      requires Valid()
      modifies this
      ensures Valid() && View() == WithEdge(old(View()), u, v)
    {
      WithEdgeValid(View(), u, v);
      if u !in parents {
        order := order + [u];
        parents := parents[u := []];
      }
      if v !in parents {
        order := order + [v];
        parents := parents[v := []];
      }
      if u !in parents[v] {
        parents := parents[v := parents[v] + [u]];
      }
    }

    /** `add_node_with_edge`: store the node, then add an edge to each `nextNodeId` in turn. */
    method AddNodeWithEdge(node: Node)
      requires Valid()
      modifies this
      ensures Valid() && View() == WithNodeAndEdges(old(View()), node)
    {
      AddNode(node);
      var targets := Targets(node.raw);
      WithNodeValid(old(View()), node);
      for i := 0 to |targets|
        invariant Valid() && node.id in parents
        invariant WithEdges(View(), node.id, targets[i..]) == WithNodeAndEdges(old(View()), node)
      {
        assert targets[i..][1..] == targets[i + 1..];
        WithEdgeValid(View(), node.id, targets[i]);
        AddEdge(node.id, targets[i]);
      }
      assert targets[|targets|..] == [];
    }

    /** `merge`: a new graph composed of this one and `sub`; neither is changed. */
    method Merge(sub: Dag) returns (r: Dag)
      requires Valid() && sub.Valid()
      ensures fresh(r) && r.Valid() && r.View() == Compose(View(), sub.View())
    {
      ComposeValid(View(), sub.View());
      var g := Compose(View(), sub.View());
      r := new Dag();
      r.order, r.data, r.parents := g.order, g.data, g.parents;
    }

    /** `get_parent_ids` */
    method GetParentIds(id: string) returns (r: Result<seq<string>>)
      ensures r == ParentIds(View(), id)
    {
      if id in parents {
        r := Ok(parents[id]);
      } else {
        r := Err(Fatal("The node is not in the digraph."));
      }
    }

    /** `get_parent_model_names`: the loop over the parents, appending a name for each. */
    method GetParentModelNames(id: string) returns (r: Result<seq<string>>)
      ensures r == ParentModelNames(View(), id)
    {
      var ids :- GetParentIds(id);
      var result: seq<string> := [];
      for i := 0 to |ids|
        invariant |result| == i
        invariant forall k :: 0 <= k < i ==> ids[k] in data && result[k] == ReferenceName(data[ids[k]])
      {
        if ids[i] !in data {
          return Err(Fatal("KeyError: 'data'"));
        }
        result := result + [ReferenceName(data[ids[i]])];
      }
      assert ModelNamesOf(View(), ids).Ok?;
      assert result == ModelNamesOf(View(), ids).value;
      r := Ok(result);
    }

    /** `get_parent_by_namespace`: the nested loop over parents and their `nextNodes`. */
    method GetParentByNamespace(id: string, namespace: string) returns (r: Result<Node>)
      ensures r == ParentByNamespace(View(), id, namespace)
    {
      var ids :- GetParentIds(id);
      for i := 0 to |ids|
        invariant FirstListing(View(), ids, namespace) == FirstListing(View(), ids[i..], namespace)
      {
        assert ids[i..][1..] == ids[i + 1..];
        if ids[i] !in data {
          return Err(Fatal("KeyError: 'data'"));
        }
        var node := data[ids[i]];
        if node.raw.nextNodes.None? {
          return Err(Fatal("KeyError: 'nextNodes'"));
        }
        FirstListingCons(View(), ids[i..], namespace);
        var next := node.raw.nextNodes.value;
        for j := 0 to |next|
          invariant forall k :: 0 <= k < j ==> next[k].nextNamespace != namespace
        {
          if next[j].nextNamespace == namespace {
            assert namespace in NextNamespaces(node).value by {
              assert NextNamespaces(node).value[j] == namespace;
            }
            return Ok(node);
          }
        }
        assert namespace !in NextNamespaces(node).value;
      }
      assert ids[|ids|..] == [];
      r := Err(Fatal("No such namespace item exists."));
    }

    /** The nested loop shared by `get_all_parent_columns` and `get_all_parent_as_table`. */
    method GatherLoop<V>(ids: seq<string>, start: map<string, V>, entry: Node -> V) returns (r: Result<map<string, V>>)
      ensures r == Gather(View(), ids, start, entry)
    {
      var result := start;
      for i := 0 to |ids|
        invariant Gather(View(), ids, start, entry) == Gather(View(), ids[i..], result, entry)
      {
        assert ids[i..][1..] == ids[i + 1..];
        if ids[i] !in data {
          return Err(Fatal("KeyError: 'data'"));
        }
        var node := data[ids[i]];
        if node.raw.nextNodes.None? {
          return Err(Fatal("KeyError: 'nextNodes'"));
        }
        var spaces := NextNamespaces(node).value;
        ghost var before := result;
        for j := 0 to |spaces|
          invariant PutAll(before, spaces, entry(node)) == PutAll(result, spaces[j..], entry(node))
        {
          assert spaces[j..][1..] == spaces[j + 1..];
          result := result[spaces[j] := entry(node)];
        }
        assert spaces[|spaces|..] == [];
      }
      assert ids[|ids|..] == [];
      r := Ok(result);
    }

    /** `get_all_parent_columns` */
    method GetAllParentColumns(id: string) returns (r: Result<map<string, ModelColumns>>)
      ensures r == AllParentColumns(View(), id)
    {
      var ids :- GetParentIds(id);
      r := GatherLoop(ids, map["Default" := Unknown], (n: Node) => n.modelColumns);
    }

    /** `get_all_parent_as_table` */
    method GetAllParentAsTable(id: string) returns (r: Result<map<string, Query>>)
      ensures r == AllParentAsTable(View(), id)
    {
      var ids :- GetParentIds(id);
      r := GatherLoop(ids, map[], (n: Node) => n.ToTable(""));
    }

    /** `get_node_by_id` */
    method GetNodeById(id: string) returns (r: Result<Node>)
      ensures r == NodeById(View(), id)
    {
      if id in data {
        r := Ok(data[id]);
      } else {
        r := Err(Fatal("KeyError: 'data'"));
      }
    }

    /** `nodes_per_generation`: the graph library's topological generations of the current graph. */
    method NodesPerGeneration() returns (r: Result<seq<set<string>>>)
      ensures r == TopologicalGenerations(View())
    {
      r := TopologicalGenerations(View());
    }
  }
}