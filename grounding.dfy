/** `ground_graph` (code/convert.py:17-74): registers every endpoint of the input edges,
    doubles each undirected edge into two directed ones tagged with the `assoc` feature,
    allocates one synthetic start node, and builds one query graph per label whose edges
    are that label's seed edges followed by the structural edges. */
module Grounding {
  import opened Sequences
  import opened Registry

  /** An input edge `(node1, node2, weight)`; the weight is never used. */
  datatype RawEdge = RawEdge(node1: string, node2: string, weight: string)

  /** A grounded directed edge `(src, dst, feature-index list)`. */
  datatype Edge = Edge(src: nat, dst: nat, feats: seq<nat>)

  /** One record of the list `ground_graph` returns. */
  datatype QueryGraph = QueryGraph(
    query: string,
    posNodes: seq<nat>,
    negNodes: seq<nat>,
    nodeCount: nat,
    edges: seq<Edge>,
    features: seq<string>,
    nodeDoc: map<nat, string>)

  /** The fixed, 1-indexed feature vocabulary every query graph starts with. */
  const FEATURES: seq<string> := [
    "seed",
    "assoc",
    "id(trueLoop)",
    "id(trueLoopRestart)",
    "fixedWeight",
    "id(restart)",
    "id(alphaBooster)"
  ]

  /** The index of `seed` in FEATURES, carried by every seed edge. */
  const SEED_FEATURE: nat := 1

  /** The index of `assoc` in FEATURES, carried by every structural edge. */
  const ASSOC_FEATURE: nat := 2

  /** The endpoint names in the order the registration loop looks at them. */
  function Endpoints(es: seq<RawEdge>): (r: seq<string>)
    ensures |r| == 2 * |es|
  {
    if es == [] then []
    else Endpoints(es[..|es| - 1]) + [es[|es| - 1].node1, es[|es| - 1].node2]
  }

  /** The distinct node names of the input edges. */
  ghost function Names(es: seq<RawEdge>): set<string> {
    Elements(Endpoints(es))
  }

  /** Every feature index on every edge names an entry of the 1-indexed vocabulary. */
  ghost predicate FeaturesInRange(g: QueryGraph) {
    forall i, j :: 0 <= i < |g.edges| && 0 <= j < |g.edges[i].feats| ==>
      1 <= g.edges[i].feats[j] <= |g.features|
  }

  lemma NamesPrefix(es: seq<RawEdge>)
    requires es != []
    ensures Names(es) == Names(es[..|es| - 1]) + {es[|es| - 1].node1, es[|es| - 1].node2}
  {
  }

  /** The structural edges: both directions of every input edge, in input order. */
  function StructuralEdges(es: seq<RawEdge>, nodes: map<string, nat>): seq<Edge>
    requires Names(es) <= nodes.Keys
  {
    if es == [] then []
    else
      var e := es[|es| - 1];
      NamesPrefix(es);
      StructuralEdges(es[..|es| - 1], nodes)
        + [Edge(nodes[e.node1], nodes[e.node2], [ASSOC_FEATURE])]
        + [Edge(nodes[e.node2], nodes[e.node1], [ASSOC_FEATURE])]
  }

  /** The edges from `start` to every node, in `order`, whose seed label is `lbl`. */
  function SeedEdges(order: seq<string>, seeds: map<string, string>, lbl: string,
                     start: nat, nodes: map<string, nat>): seq<Edge>
    requires Elements(order) <= nodes.Keys
  {
    if order == [] then []
    else
      var n := order[|order| - 1];
      assert n in Elements(order);
      SeedEdges(order[..|order| - 1], seeds, lbl, start, nodes)
        + (if n in seeds && seeds[n] == lbl then [Edge(start, nodes[n], [SEED_FEATURE])] else [])
  }

  /** The registered names seeded with `lbl`. */
  ghost function SeedTargets(names: set<string>, seeds: map<string, string>, lbl: string): set<string> {
    set n | n in names && n in seeds && seeds[n] == lbl
  }

  /** The query graph `ground_graph` builds for `lbl`; `order` is the order in which
      iterating the dict `nodes` yields its keys. */
  function GraphFor(es: seq<RawEdge>, seeds: map<string, string>, order: seq<string>,
                    lbl: string): QueryGraph
    requires Elements(order) <= Names(es)
  {
    var r := RegisterAll(Endpoints(es));
    RegisterAllKeys(Endpoints(es));
    QueryGraph(lbl, [r.last + 1], [], |r.nodes|,
      SeedEdges(order, seeds, lbl, r.last + 1, r.nodes) + StructuralEdges(es, r.nodes),
      FEATURES, r.doc)
  }

  /** The list `ground_graph` returns: one graph per label, in label order. */
  function Ground(es: seq<RawEdge>, seeds: map<string, string>, labels: seq<string>,
                  order: seq<string>): seq<QueryGraph>
    requires Elements(order) <= Names(es)
  {
    seq(|labels|, k requires 0 <= k < |labels| => GraphFor(es, seeds, order, labels[k]))
  }

  /** Structural edges built with one id map stay the same under any map that keeps
      those ids. */
  lemma {:induction false} StructuralStable(es: seq<RawEdge>, m: map<string, nat>, m': map<string, nat>)
    requires Names(es) <= m.Keys
    requires forall n :: n in m ==> n in m' && m'[n] == m[n]
    ensures StructuralEdges(es, m) == StructuralEdges(es, m')
  {
    if es != [] {
      NamesPrefix(es);
      StructuralStable(es[..|es| - 1], m, m');
    }
  }

  /** One more input edge registers its two endpoints, first `node1`, then `node2`. */
  lemma RegisterStep(es: seq<RawEdge>, i: nat)
    requires i < |es|
    ensures RegisterAll(Endpoints(es[..i + 1]))
      == Register(Register(RegisterAll(Endpoints(es[..i])), es[i].node1), es[i].node2)
    ensures Names(es[..i + 1]) == Names(es[..i]) + {es[i].node1, es[i].node2}
  {
    var p := es[..i + 1];
    assert p[..|p| - 1] == es[..i];
    var s := Endpoints(es[..i]);
    assert Endpoints(p) == s + [es[i].node1, es[i].node2];
    assert (s + [es[i].node1, es[i].node2])[..|s| + 1] == s + [es[i].node1];
    assert (s + [es[i].node1])[..|s|] == s;
    NamesPrefix(p);
  }

  lemma StructuralStep(es: seq<RawEdge>, i: nat, nodes: map<string, nat>)
    requires i < |es| && Names(es[..i + 1]) <= nodes.Keys
    ensures Names(es[..i]) <= nodes.Keys
    ensures StructuralEdges(es[..i + 1], nodes) == StructuralEdges(es[..i], nodes)
      + [Edge(nodes[es[i].node1], nodes[es[i].node2], [ASSOC_FEATURE])]
      + [Edge(nodes[es[i].node2], nodes[es[i].node1], [ASSOC_FEATURE])]
  {
    assert es[..i + 1][..i] == es[..i];
    NamesPrefix(es[..i + 1]);
  }

  /** One pass of the registration loop: registering input edge i's two endpoints and
      appending its two directed edges extends the registry and structural list of the
      first i edges to those of the first i + 1. */
  lemma RegisterEdgeStep(es: seq<RawEdge>, i: nat, before: Registry, edges: seq<Edge>)
    requires i < |es|
    requires before == RegisterAll(Endpoints(es[..i]))
    requires Names(es[..i]) <= before.nodes.Keys
    requires edges == StructuralEdges(es[..i], before.nodes)
    ensures var after := Register(Register(before, es[i].node1), es[i].node2);
      && after == RegisterAll(Endpoints(es[..i + 1]))
      && Names(es[..i + 1]) <= after.nodes.Keys
      && es[i].node1 in after.nodes && es[i].node2 in after.nodes
      && edges + [Edge(after.nodes[es[i].node1], after.nodes[es[i].node2], [ASSOC_FEATURE])]
               + [Edge(after.nodes[es[i].node2], after.nodes[es[i].node1], [ASSOC_FEATURE])]
         == StructuralEdges(es[..i + 1], after.nodes)
  {
    var mid := Register(before, es[i].node1);
    var after := Register(mid, es[i].node2);
    RegisterExtends(before, es[i].node1);
    RegisterExtends(mid, es[i].node2);
    RegisterStep(es, i);
    StructuralStable(es[..i], before.nodes, after.nodes);
    StructuralStep(es, i, after.nodes);
  }

  /** `if name not in nodes: nodes[name] = fresh(); node_doc[nodes[name]] = name`. */
  method RegisterName(name: string, nodes: map<string, nat>, nodeDoc: map<nat, string>, counter: FreshCounter)
    returns (nodes': map<string, nat>, nodeDoc': map<nat, string>)
    modifies counter
    ensures Registry(nodes', nodeDoc', counter.last) == Register(Registry(nodes, nodeDoc, old(counter.last)), name)
  {
    nodes', nodeDoc' := nodes, nodeDoc;
    if name !in nodes {
      var id := counter.Fresh();
      nodes' := nodes[name := id];
      nodeDoc' := nodeDoc[id := name];
    }
  }

  /** The registration loop of `ground_graph`: every endpoint gets an id from `counter`
      on first sighting, and every input edge yields its two directed edges. */
  method RegisterEdges(graphEdges: seq<RawEdge>, counter: FreshCounter)
    returns (nodes: map<string, nat>, nodeDoc: map<nat, string>, edges: seq<Edge>)
    requires counter.last == 0
    modifies counter
    ensures Registry(nodes, nodeDoc, counter.last) == RegisterAll(Endpoints(graphEdges))
    ensures Names(graphEdges) <= nodes.Keys
    ensures edges == StructuralEdges(graphEdges, nodes)
  {
    edges := [];
    nodes := map[];
    nodeDoc := map[];
    for i := 0 to |graphEdges|
      invariant Registry(nodes, nodeDoc, counter.last) == RegisterAll(Endpoints(graphEdges[..i]))
      invariant Names(graphEdges[..i]) <= nodes.Keys
      invariant edges == StructuralEdges(graphEdges[..i], nodes)
    {
      var e := graphEdges[i];
      ghost var before := Registry(nodes, nodeDoc, counter.last);
      nodes, nodeDoc := RegisterName(e.node1, nodes, nodeDoc, counter);
      nodes, nodeDoc := RegisterName(e.node2, nodes, nodeDoc, counter);
      RegisterEdgeStep(graphEdges, i, before, edges);
      var n1 := nodes[e.node1];
      var n2 := nodes[e.node2];
      edges := edges + [Edge(n1, n2, [ASSOC_FEATURE])];
      edges := edges + [Edge(n2, n1, [ASSOC_FEATURE])];
    }
    assert graphEdges[..|graphEdges|] == graphEdges;
  }

  /** The inner loop of `ground_graph` for one label: a seed edge from `start` to each
      node, in iteration order, whose seed is `lbl`. */
  method CollectSeedEdges(nodeOrder: seq<string>, seeds: map<string, string>, lbl: string,
                          start: nat, nodes: map<string, nat>)
    returns (seedEdges: seq<Edge>)
    requires Elements(nodeOrder) <= nodes.Keys
    ensures seedEdges == SeedEdges(nodeOrder, seeds, lbl, start, nodes)
  {
    seedEdges := [];
    for k := 0 to |nodeOrder|
      invariant seedEdges == SeedEdges(nodeOrder[..k], seeds, lbl, start, nodes)
    {
      var node := nodeOrder[k];
      assert nodeOrder[..k + 1][..k] == nodeOrder[..k];
      if node in seeds && seeds[node] == lbl {
        seedEdges := seedEdges + [Edge(start, nodes[node], [SEED_FEATURE])];
      }
    }
    assert nodeOrder[..|nodeOrder|] == nodeOrder;
  }

  /** The record the label loop appends is `GraphFor` of its label, once `nodes`,
      `node_doc`, the start node and the two edge lists are those of the specification. */
  lemma GraphForParts(es: seq<RawEdge>, seeds: map<string, string>, order: seq<string>, lbl: string,
                      nodes: map<string, nat>, nodeDoc: map<nat, string>, start: nat,
                      seedEdges: seq<Edge>, edges: seq<Edge>)
    requires Elements(order) <= Names(es)
    requires var r := RegisterAll(Endpoints(es)); nodes == r.nodes && nodeDoc == r.doc && start == r.last + 1
    requires Names(es) <= nodes.Keys
    requires edges == StructuralEdges(es, nodes)
    requires seedEdges == SeedEdges(order, seeds, lbl, start, nodes)
    ensures QueryGraph(lbl, [start], [], |nodes|, seedEdges + edges, FEATURES, nodeDoc)
      == GraphFor(es, seeds, order, lbl)
  {
  }

  /** The label loop of `ground_graph`: one graph per label, each sharing the node
      count, the structural edges and the reverse map. */
  method BuildGraphs(graphEdges: seq<RawEdge>, seeds: map<string, string>, labels: seq<string>,
                     nodeOrder: seq<string>, nodes: map<string, nat>, nodeDoc: map<nat, string>,
                     start: nat, edges: seq<Edge>)
    returns (graphs: seq<QueryGraph>)
    requires Elements(nodeOrder) <= Names(graphEdges)
    requires var r := RegisterAll(Endpoints(graphEdges));
      nodes == r.nodes && nodeDoc == r.doc && start == r.last + 1
    requires Names(graphEdges) <= nodes.Keys
    requires edges == StructuralEdges(graphEdges, nodes)
    ensures graphs == Ground(graphEdges, seeds, labels, nodeOrder)
  {
    graphs := [];
    for j := 0 to |labels|
      invariant |graphs| == j
      invariant forall k :: 0 <= k < j ==> graphs[k] == GraphFor(graphEdges, seeds, nodeOrder, labels[k])
    {
      var lbl := labels[j];
      var seedEdges := CollectSeedEdges(nodeOrder, seeds, lbl, start, nodes);
      GraphForParts(graphEdges, seeds, nodeOrder, lbl, nodes, nodeDoc, start, seedEdges, edges);
      var g := QueryGraph(lbl, [start], [], |nodes|, seedEdges + edges, FEATURES, nodeDoc);
      ghost var before := graphs;
      graphs := graphs + [g];
      assert forall k :: 0 <= k < j ==> graphs[k] == before[k];
      assert graphs[j] == GraphFor(graphEdges, seeds, nodeOrder, labels[j]);
    }
  }

  /** `ground_graph`, statement by statement. */
  method GroundGraph(graphEdges: seq<RawEdge>, seeds: map<string, string>, labels: seq<string>,
                     nodeOrder: seq<string>)
    returns (graphs: seq<QueryGraph>)
    requires IsOrderOf(nodeOrder, Names(graphEdges))
    ensures graphs == Ground(graphEdges, seeds, labels, nodeOrder)
  {
    var counter := new FreshCounter();
    var nodes, nodeDoc, edges := RegisterEdges(graphEdges, counter);
    var start := counter.Fresh();
    graphs := BuildGraphs(graphEdges, seeds, labels, nodeOrder, nodes, nodeDoc, start, edges);
  }

  // ----- What a grounded graph holds -----

  /** The ids the registry gives the input's node names. */
  ghost function Ids(es: seq<RawEdge>): map<string, nat> {
    RegisterAll(Endpoints(es)).nodes
  }

  /** The synthetic start node: the id the counter hands out after registration. */
  ghost function Start(es: seq<RawEdge>): nat {
    RegisterAll(Endpoints(es)).last + 1
  }

  /** Entry 2i of the endpoint list is input edge i's first node, entry 2i+1 its second. */
  lemma {:induction false} EndpointsAt(es: seq<RawEdge>)
    ensures forall i :: 0 <= i < |es| ==>
      Endpoints(es)[2 * i] == es[i].node1 && Endpoints(es)[2 * i + 1] == es[i].node2
    ensures forall i :: 0 <= i < |es| ==> es[i].node1 in Names(es) && es[i].node2 in Names(es)
  {
    if es != [] {
      var p := es[..|es| - 1];
      EndpointsAt(p);
      forall i | 0 <= i < |es|
        ensures Endpoints(es)[2 * i] == es[i].node1 && Endpoints(es)[2 * i + 1] == es[i].node2
      {
        if i < |p| {
          assert es[i] == p[i];
        }
      }
      forall i | 0 <= i < |es| ensures es[i].node1 in Names(es) && es[i].node2 in Names(es) {
        assert Endpoints(es)[2 * i] == es[i].node1;
        assert Endpoints(es)[2 * i + 1] == es[i].node2;
      }
    }
  }

  /** The structural edge list has exactly two entries per input edge: entry 2i is
      input edge i forwards and entry 2i+1 is it backwards, both tagged `assoc`. */
  lemma {:induction false} StructuralEdgesAt(es: seq<RawEdge>, nodes: map<string, nat>)
    requires Names(es) <= nodes.Keys
    ensures |StructuralEdges(es, nodes)| == 2 * |es|
    ensures forall i :: 0 <= i < |es| ==>
      && es[i].node1 in nodes && es[i].node2 in nodes
      && StructuralEdges(es, nodes)[2 * i] == Edge(nodes[es[i].node1], nodes[es[i].node2], [ASSOC_FEATURE])
      && StructuralEdges(es, nodes)[2 * i + 1] == Edge(nodes[es[i].node2], nodes[es[i].node1], [ASSOC_FEATURE])
  {
    EndpointsAt(es);
    if es != [] {
      var p := es[..|es| - 1];
      NamesPrefix(es);
      StructuralEdgesAt(p, nodes);
      forall i | 0 <= i < |es|
        ensures StructuralEdges(es, nodes)[2 * i] == Edge(nodes[es[i].node1], nodes[es[i].node2], [ASSOC_FEATURE])
        ensures StructuralEdges(es, nodes)[2 * i + 1] == Edge(nodes[es[i].node2], nodes[es[i].node1], [ASSOC_FEATURE])
      {
        if i < |p| {
          assert es[i] == p[i];
        }
      }
    }
  }

  /** The seed edges for `lbl` are exactly the edges from `start` to the id of each node,
      among those iterated, that is seeded with `lbl`. */
  lemma {:induction false} SeedEdgesExact(order: seq<string>, seeds: map<string, string>, lbl: string,
                                          start: nat, nodes: map<string, nat>)
    requires Elements(order) <= nodes.Keys
    ensures forall e :: e in SeedEdges(order, seeds, lbl, start, nodes) <==>
      exists n :: n in SeedTargets(Elements(order), seeds, lbl) && n in nodes
        && e == Edge(start, nodes[n], [SEED_FEATURE])
  {
    if order != [] {
      var p := order[..|order| - 1];
      var x := order[|order| - 1];
      assert Elements(p) <= Elements(order);
      SeedEdgesExact(p, seeds, lbl, start, nodes);
      SeedTargetsStep(order, seeds, lbl);
    }
  }

  /** Adding one node to the iteration adds it to the seeded set when it is seeded with `lbl`. */
  lemma SeedTargetsStep(order: seq<string>, seeds: map<string, string>, lbl: string)
    requires order != []
    ensures var x := order[|order| - 1];
      SeedTargets(Elements(order), seeds, lbl)
        == SeedTargets(Elements(order[..|order| - 1]), seeds, lbl) + (if x in seeds && seeds[x] == lbl then {x} else {})
  {
    assert order == order[..|order| - 1] + [order[|order| - 1]];
    assert Elements(order) == Elements(order[..|order| - 1]) + {order[|order| - 1]};
  }

  /** Over a duplicate-free iteration order there is one seed edge per seeded node. */
  lemma {:induction false} SeedEdgesCount(order: seq<string>, seeds: map<string, string>, lbl: string,
                                          start: nat, nodes: map<string, nat>)
    requires Elements(order) <= nodes.Keys && Distinct(order)
    ensures |SeedEdges(order, seeds, lbl, start, nodes)| == |SeedTargets(Elements(order), seeds, lbl)|
  {
    if order != [] {
      var p := order[..|order| - 1];
      var x := order[|order| - 1];
      DistinctPrefix(order);
      SeedTargetsStep(order, seeds, lbl);
      assert Elements(p) <= Elements(order);
      SeedEdgesCount(p, seeds, lbl, start, nodes);
      assert x !in SeedTargets(Elements(p), seeds, lbl);
    }
  }

  /** Every seed edge leaves `start`, carries only the `seed` feature and enters a
      node id the map hands out. */
  lemma {:induction false} SeedEdgesShape(order: seq<string>, seeds: map<string, string>, lbl: string,
                                          start: nat, nodes: map<string, nat>)
    requires Elements(order) <= nodes.Keys
    ensures forall i :: 0 <= i < |SeedEdges(order, seeds, lbl, start, nodes)| ==>
      var e := SeedEdges(order, seeds, lbl, start, nodes)[i];
      e.src == start && e.feats == [SEED_FEATURE] && e.dst in nodes.Values
  {
    if order != [] {
      var p := order[..|order| - 1];
      assert Elements(p) <= Elements(order);
      SeedEdgesShape(p, seeds, lbl, start, nodes);
    }
  }

  /** The start node is one past the last registered id: `start_node = len(nodes) + 1`,
      above every node id, and not a key of `node_doc`. */
  lemma StartNodeFresh(es: seq<RawEdge>)
    ensures Start(es) == |Names(es)| + 1
    ensures Ids(es).Keys == Names(es)
    ensures forall n :: n in Ids(es) ==> 1 <= Ids(es)[n] < Start(es)
    ensures Start(es) !in RegisterAll(Endpoints(es)).doc
  {
    RegisterAllFacts(Endpoints(es));
    FirstSightingsDistinct(Endpoints(es));
    DistinctCard(FirstSightings(Endpoints(es)));
  }

  /** The header of each query graph: the label as query, the start node as sole positive
      node, no negative nodes, the number of registered nodes, the fixed 7-entry
      vocabulary, and the registry's reverse map, which is the exact inverse of the ids. */
  lemma GraphForHeader(es: seq<RawEdge>, seeds: map<string, string>, order: seq<string>, lbl: string)
    requires Elements(order) <= Names(es)
    ensures var g := GraphFor(es, seeds, order, lbl);
      && g.query == lbl
      && g.posNodes == [Start(es)]
      && g.negNodes == []
      && g.nodeCount == |Names(es)| && Start(es) == g.nodeCount + 1
      && g.features == FEATURES && |g.features| == 7
      && (forall k :: k in g.nodeDoc <==> 1 <= k <= g.nodeCount)
      && (forall n :: n in Ids(es) ==> Ids(es)[n] in g.nodeDoc && g.nodeDoc[Ids(es)[n]] == n)
      && (forall k :: k in g.nodeDoc ==> g.nodeDoc[k] in Ids(es) && Ids(es)[g.nodeDoc[k]] == k)
  {
    StartNodeFresh(es);
    RegisterAllFacts(Endpoints(es));
  }

  /** The edges of the graph for `lbl`: first one seed edge per node seeded with `lbl`
      (start to that node, feature `seed`), then the structural list unchanged, so that
      there are (number of such nodes) + 2 * (number of input edges) in all. */
  lemma GraphForEdges(es: seq<RawEdge>, seeds: map<string, string>, order: seq<string>, lbl: string)
    requires IsOrderOf(order, Names(es))
    ensures var g := GraphFor(es, seeds, order, lbl);
      var m := |SeedTargets(Names(es), seeds, lbl)|;
      && Ids(es).Keys == Names(es)
      && |g.edges| == m + 2 * |es|
      && g.edges[m..] == StructuralEdges(es, Ids(es))
      && (forall e :: e in g.edges[..m] <==>
           exists n :: n in SeedTargets(Names(es), seeds, lbl) && n in Ids(es)
             && e == Edge(Start(es), Ids(es)[n], [SEED_FEATURE]))
  {
    RegisterAllFacts(Endpoints(es));
    var ids := Ids(es);
    var se := SeedEdges(order, seeds, lbl, Start(es), ids);
    SeedEdgesCount(order, seeds, lbl, Start(es), ids);
    SeedEdgesExact(order, seeds, lbl, Start(es), ids);
    StructuralEdgesAt(es, ids);
    var g := GraphFor(es, seeds, order, lbl);
    assert g.edges == se + StructuralEdges(es, ids);
    assert g.edges[..|se|] == se;
    assert g.edges[|se|..] == StructuralEdges(es, ids);
  }

  /** The structural edges carry only `assoc` and join registered ids. */
  lemma StructuralEdgesShape(es: seq<RawEdge>, nodes: map<string, nat>)
    requires Names(es) <= nodes.Keys
    ensures forall i :: 0 <= i < |StructuralEdges(es, nodes)| ==>
      var e := StructuralEdges(es, nodes)[i];
      e.feats == [ASSOC_FEATURE] && e.src in nodes.Values && e.dst in nodes.Values
  {
    StructuralEdgesAt(es, nodes);
    var st := StructuralEdges(es, nodes);
    forall i | 0 <= i < |st|
      ensures st[i].feats == [ASSOC_FEATURE] && st[i].src in nodes.Values && st[i].dst in nodes.Values
    {
      var k := i / 2;
      assert i == 2 * k || i == 2 * k + 1;
    }
  }

  /** Every feature index of a freshly grounded graph (`seed` = 1, `assoc` = 2) is an
      entry of its vocabulary, and every edge joins registered ids or the start node. */
  lemma GraphForFeaturesInRange(es: seq<RawEdge>, seeds: map<string, string>, order: seq<string>, lbl: string)
    requires Elements(order) <= Names(es)
    ensures FeaturesInRange(GraphFor(es, seeds, order, lbl))
    ensures forall e :: e in GraphFor(es, seeds, order, lbl).edges ==>
      1 <= e.src <= Start(es) && 1 <= e.dst <= Start(es)
  {
    StartNodeFresh(es);
    var ids := Ids(es);
    var se := SeedEdges(order, seeds, lbl, Start(es), ids);
    var st := StructuralEdges(es, ids);
    SeedEdgesShape(order, seeds, lbl, Start(es), ids);
    StructuralEdgesShape(es, ids);
    var g := GraphFor(es, seeds, order, lbl);
    assert g.edges == se + st;
    assert forall v :: v in ids.Values ==> 1 <= v < Start(es);
    forall i | 0 <= i < |g.edges|
      ensures g.edges[i].feats == [SEED_FEATURE] || g.edges[i].feats == [ASSOC_FEATURE]
      ensures 1 <= g.edges[i].src <= Start(es) && 1 <= g.edges[i].dst <= Start(es)
    {
      if i < |se| {
        assert g.edges[i] == se[i];
      } else {
        assert g.edges[i] == st[i - |se|];
      }
    }
  }

  /** `ground_graph` returns one graph per label, the k-th for the k-th label, each with
      its feature indices inside its vocabulary. */
  lemma GroundFeaturesInRange(es: seq<RawEdge>, seeds: map<string, string>, labels: seq<string>,
                              order: seq<string>)
    requires Elements(order) <= Names(es)
    ensures |Ground(es, seeds, labels, order)| == |labels|
    ensures forall k :: 0 <= k < |labels| ==>
      Ground(es, seeds, labels, order)[k].query == labels[k]
      && FeaturesInRange(Ground(es, seeds, labels, order)[k])
  {
    forall k | 0 <= k < |labels|
      ensures FeaturesInRange(Ground(es, seeds, labels, order)[k])
    {
      GraphForFeaturesInRange(es, seeds, order, labels[k]);
    }
  }

  /** With no input edges nothing is registered, even the seeded names: every graph has
      node count 0, start node 1 and no edges at all. */
  lemma NoEdges(seeds: map<string, string>, lbl: string)
    ensures Elements<string>([]) <= Names([])
    ensures GraphFor([], seeds, [], lbl) == QueryGraph(lbl, [1], [], 0, [], FEATURES, map[])
  {
    assert Endpoints([]) == [];
  }

  /** The worked example's registry: a=1, b=2, c=3. */
  lemma WorkedRegistry()
    ensures Endpoints([RawEdge("a", "b", "1"), RawEdge("b", "c", "1")]) == ["a", "b", "b", "c"]
    ensures RegisterAll(["a", "b", "b", "c"])
      == Registry(map["a" := 1, "b" := 2, "c" := 3], map[1 := "a", 2 := "b", 3 := "c"], 3)
  {
    var es := [RawEdge("a", "b", "1"), RawEdge("b", "c", "1")];
    assert es[..1] == [RawEdge("a", "b", "1")];
    assert es[..1][..0] == [];
    var names := ["a", "b", "b", "c"];
    assert names[..3] == ["a", "b", "b"];
    assert names[..3][..2] == ["a", "b"];
    assert names[..3][..2][..1] == ["a"];
    assert ["a"][..0] == [];
    assert RegisterAll(["a"]) == Registry(map["a" := 1], map[1 := "a"], 1);
    assert RegisterAll(["a", "b"]) == Registry(map["a" := 1, "b" := 2], map[1 := "a", 2 := "b"], 2);
    assert RegisterAll(["a", "b", "b"]) == Registry(map["a" := 1, "b" := 2], map[1 := "a", 2 := "b"], 2);
  }

  /** The worked example's structural edges. */
  lemma WorkedStructural()
    ensures var es := [RawEdge("a", "b", "1"), RawEdge("b", "c", "1")];
      Names(es) <= map["a" := 1, "b" := 2, "c" := 3].Keys &&
      StructuralEdges(es, map["a" := 1, "b" := 2, "c" := 3])
        == [Edge(1, 2, [2]), Edge(2, 1, [2]), Edge(2, 3, [2]), Edge(3, 2, [2])]
  {
    var es := [RawEdge("a", "b", "1"), RawEdge("b", "c", "1")];
    WorkedRegistry();
    assert es[..1] == [RawEdge("a", "b", "1")];
    assert es[..1][..0] == [];
    var ids := map["a" := 1, "b" := 2, "c" := 3];
    assert StructuralEdges(es[..1], ids) == [Edge(1, 2, [2]), Edge(2, 1, [2])];
  }

  /** The worked example's seed edges for both labels. */
  lemma WorkedSeeds()
    ensures var order := ["a", "b", "c"];
      var ids := map["a" := 1, "b" := 2, "c" := 3];
      var seeds := map["a" := "X", "c" := "Y"];
      Elements(order) <= ids.Keys &&
      SeedEdges(order, seeds, "X", 4, ids) == [Edge(4, 1, [1])] &&
      SeedEdges(order, seeds, "Y", 4, ids) == [Edge(4, 3, [1])]
  {
    var order := ["a", "b", "c"];
    var ids := map["a" := 1, "b" := 2, "c" := 3];
    var seeds := map["a" := "X", "c" := "Y"];
    assert order[..2] == ["a", "b"];
    assert order[..2][..1] == ["a"];
    assert order[..2][..1][..0] == [];
    assert SeedEdges(["a"], seeds, "X", 4, ids) == [Edge(4, 1, [1])];
    assert SeedEdges(["a", "b"], seeds, "X", 4, ids) == [Edge(4, 1, [1])];
    assert SeedEdges(["a"], seeds, "Y", 4, ids) == [];
    assert SeedEdges(["a", "b"], seeds, "Y", 4, ids) == [];
  }

  /** The worked example's two query graphs. */
  lemma WorkedGraphs()
    ensures
      var es := [RawEdge("a", "b", "1"), RawEdge("b", "c", "1")];
      var seeds := map["a" := "X", "c" := "Y"];
      var structural := [Edge(1, 2, [2]), Edge(2, 1, [2]), Edge(2, 3, [2]), Edge(3, 2, [2])];
      var doc := map[1 := "a", 2 := "b", 3 := "c"];
      Elements(["a", "b", "c"]) <= Names(es) &&
      GraphFor(es, seeds, ["a", "b", "c"], "X")
        == QueryGraph("X", [4], [], 3, [Edge(4, 1, [1])] + structural, FEATURES, doc) &&
      GraphFor(es, seeds, ["a", "b", "c"], "Y")
        == QueryGraph("Y", [4], [], 3, [Edge(4, 3, [1])] + structural, FEATURES, doc)
  {
    WorkedRegistry();
    WorkedStructural();
    WorkedSeeds();
  }

  /** The worked example: edges a-b and b-c with seeds a:X and c:Y give a=1, b=2, c=3,
      start=4; each graph has one seed edge and the four structural edges. */
  lemma WorkedExample()
    ensures
      var es := [RawEdge("a", "b", "1"), RawEdge("b", "c", "1")];
      var seeds := map["a" := "X", "c" := "Y"];
      var structural := [Edge(1, 2, [2]), Edge(2, 1, [2]), Edge(2, 3, [2]), Edge(3, 2, [2])];
      var doc := map[1 := "a", 2 := "b", 3 := "c"];
      Elements(["a", "b", "c"]) <= Names(es) &&
      Ground(es, seeds, ["X", "Y"], ["a", "b", "c"]) == [
        QueryGraph("X", [4], [], 3, [Edge(4, 1, [1])] + structural, FEATURES, doc),
        QueryGraph("Y", [4], [], 3, [Edge(4, 3, [1])] + structural, FEATURES, doc)]
  {
    var es := [RawEdge("a", "b", "1"), RawEdge("b", "c", "1")];
    var seeds := map["a" := "X", "c" := "Y"];
    var order := ["a", "b", "c"];
    WorkedGraphs();
    var gs := Ground(es, seeds, ["X", "Y"], order);
    assert |gs| == 2;
    assert gs[0] == GraphFor(es, seeds, order, "X");
    assert gs[1] == GraphFor(es, seeds, order, "Y");
  }
}
