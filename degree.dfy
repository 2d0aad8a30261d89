/** `add_degree_feature` (code/convert.py:77-95): counts each node's in- and out-degree
    over a graph's edges, appends one `inDeg(u,d)` descriptor per destination and then
    one `outDeg(u,d)` descriptor per source to the 1-indexed vocabulary, and appends to
    every edge's feature list the index of its destination's in-degree descriptor
    followed by that of its source's out-degree descriptor. */
module DegreeFeature {
  import opened Sequences
  import opened Text
  import opened Grounding

  /** Number of edges leaving `u`. */
  function OutDegree(edges: seq<Edge>, u: nat): nat {
    if edges == [] then 0
    else OutDegree(edges[..|edges| - 1], u) + (if edges[|edges| - 1].src == u then 1 else 0)
  }

  /** Number of edges entering `v`. */
  function InDegree(edges: seq<Edge>, v: nat): nat {
    if edges == [] then 0
    else InDegree(edges[..|edges| - 1], v) + (if edges[|edges| - 1].dst == v then 1 else 0)
  }

  /** The keys of the `out_deg` Counter: every node some edge leaves. */
  ghost function Sources(edges: seq<Edge>): set<nat> {
    set e | e in edges :: e.src
  }

  /** The keys of the `in_deg` Counter: every node some edge enters. */
  ghost function Destinations(edges: seq<Edge>): set<nat> {
    set e | e in edges :: e.dst
  }

  /** A Counter lookup: a missing key counts 0. */
  function Tally(counter: map<nat, nat>, k: nat): nat {
    if k in counter then counter[k] else 0
  }

  /** `'inDeg({0},{1})'.format(u, d)`. */
  function InDescriptor(u: nat, d: nat): string {
    "inDeg(" + NatToString(u) + "," + NatToString(d) + ")"
  }

  /** `'outDeg({0},{1})'.format(u, d)`. */
  function OutDescriptor(u: nat, d: nat): string {
    "outDeg(" + NatToString(u) + "," + NatToString(d) + ")"
  }

  /** The in-degree descriptors appended, one per node of `order`. */
  function InDescriptors(order: seq<nat>, edges: seq<Edge>): (r: seq<string>)
    ensures |r| == |order|
  {
    if order == [] then []
    else
      var u := order[|order| - 1];
      InDescriptors(order[..|order| - 1], edges) + [InDescriptor(u, InDegree(edges, u))]
  }

  /** The out-degree descriptors appended, one per node of `order`. */
  function OutDescriptors(order: seq<nat>, edges: seq<Edge>): (r: seq<string>)
    ensures |r| == |order|
  {
    if order == [] then []
    else
      var u := order[|order| - 1];
      OutDescriptors(order[..|order| - 1], edges) + [OutDescriptor(u, OutDegree(edges, u))]
  }

  /** `in_feat_map` / `out_feat_map`: the vocabulary length right after appending each
      node's descriptor, when the vocabulary had `base` entries before. */
  function Positions(order: seq<nat>, base: nat): map<nat, nat> {
    if order == [] then map[]
    else Positions(order[..|order| - 1], base)[order[|order| - 1] := base + |order|]
  }

  /** Every edge with the index of its destination's in-degree descriptor and then that
      of its source's out-degree descriptor appended to its feature list. */
  function AugmentEdges(edges: seq<Edge>, inMap: map<nat, nat>, outMap: map<nat, nat>): seq<Edge>
    requires forall i :: 0 <= i < |edges| ==> edges[i].dst in inMap && edges[i].src in outMap
  {
    seq(|edges|, i requires 0 <= i < |edges| =>
      Edge(edges[i].src, edges[i].dst, edges[i].feats + [inMap[edges[i].dst], outMap[edges[i].src]]))
  }

  lemma {:induction false} PositionsKeys(order: seq<nat>, base: nat)
    ensures Positions(order, base).Keys == Elements(order)
  {
    if order != [] {
      var p := order[..|order| - 1];
      assert order == p + [order[|order| - 1]];
      assert Elements(order) == Elements(p) + {order[|order| - 1]};
      PositionsKeys(p, base);
    }
  }

  lemma EndpointsInDomain(edges: seq<Edge>)
    ensures forall i :: 0 <= i < |edges| ==> edges[i].dst in Destinations(edges) && edges[i].src in Sources(edges)
  {
    forall i | 0 <= i < |edges|
      ensures edges[i].dst in Destinations(edges) && edges[i].src in Sources(edges)
    {
      assert edges[i] in edges;
    }
  }

  /** Every destination has a recorded in-degree index and every source an out-degree one. */
  lemma AugmentDomain(edges: seq<Edge>, inOrder: seq<nat>, outOrder: seq<nat>, base: nat)
    requires Elements(inOrder) == Destinations(edges) && Elements(outOrder) == Sources(edges)
    ensures forall i :: 0 <= i < |edges| ==>
      edges[i].dst in Positions(inOrder, base) && edges[i].src in Positions(outOrder, base + |inOrder|)
  {
    PositionsKeys(inOrder, base);
    PositionsKeys(outOrder, base + |inOrder|);
    EndpointsInDomain(edges);
  }

  /** What `add_degree_feature` makes of `g`, when iterating `in_deg` yields `inOrder`
      and iterating `out_deg` yields `outOrder`. */
  function DegreeAugmented(g: QueryGraph, inOrder: seq<nat>, outOrder: seq<nat>): QueryGraph
    requires IsOrderOf(inOrder, Destinations(g.edges)) && IsOrderOf(outOrder, Sources(g.edges))
  {
    var base := |g.features|;
    AugmentDomain(g.edges, inOrder, outOrder, base);
    g.(features := g.features + InDescriptors(inOrder, g.edges) + OutDescriptors(outOrder, g.edges),
       edges := AugmentEdges(g.edges, Positions(inOrder, base), Positions(outOrder, base + |inOrder|)))
  }

  /** One more edge adds one to its source's out-degree and its destination's in-degree. */
  lemma DegreeStep(edges: seq<Edge>, i: nat)
    requires i < |edges|
    ensures Destinations(edges[..i + 1]) == Destinations(edges[..i]) + {edges[i].dst}
    ensures Sources(edges[..i + 1]) == Sources(edges[..i]) + {edges[i].src}
    ensures forall v :: InDegree(edges[..i + 1], v) == InDegree(edges[..i], v) + (if edges[i].dst == v then 1 else 0)
    ensures forall u :: OutDegree(edges[..i + 1], u) == OutDegree(edges[..i], u) + (if edges[i].src == u then 1 else 0)
  {
    assert edges[..i + 1] == edges[..i] + [edges[i]];
    assert edges[..i + 1][..i] == edges[..i];
  }

  /** A graph is `DegreeAugmented(g, ...)` when it is `g` with the two descriptor blocks
      appended to the vocabulary and the recorded indices appended to the edges. */
  lemma DegreeAugmentedParts(g: QueryGraph, inOrder: seq<nat>, outOrder: seq<nat>, features: seq<string>,
                             inFeatMap: map<nat, nat>, outFeatMap: map<nat, nat>, newEdges: seq<Edge>)
    requires IsOrderOf(inOrder, Destinations(g.edges)) && IsOrderOf(outOrder, Sources(g.edges))
    requires features == g.features + InDescriptors(inOrder, g.edges) + OutDescriptors(outOrder, g.edges)
    requires inFeatMap == Positions(inOrder, |g.features|)
    requires outFeatMap == Positions(outOrder, |g.features| + |inOrder|)
    requires forall i :: 0 <= i < |g.edges| ==> g.edges[i].dst in inFeatMap && g.edges[i].src in outFeatMap
    requires newEdges == AugmentEdges(g.edges, inFeatMap, outFeatMap)
    ensures g.(features := features, edges := newEdges) == DegreeAugmented(g, inOrder, outOrder)
  {
    var r := DegreeAugmented(g, inOrder, outOrder);
    assert r.features == features;
    assert r.edges == newEdges;
  }

  /** The counting loop: `out_deg[u] += 1; in_deg[v] += 1` for every edge `(u, v, _)`. */
  method CountDegrees(edges: seq<Edge>) returns (inDeg: map<nat, nat>, outDeg: map<nat, nat>)
    ensures inDeg.Keys == Destinations(edges) && outDeg.Keys == Sources(edges)
    ensures forall v :: v in inDeg ==> inDeg[v] == InDegree(edges, v)
    ensures forall u :: u in outDeg ==> outDeg[u] == OutDegree(edges, u)
  {
    inDeg := map[];
    outDeg := map[];
    for i := 0 to |edges|
      invariant inDeg.Keys == Destinations(edges[..i])
      invariant outDeg.Keys == Sources(edges[..i])
      invariant forall v :: Tally(inDeg, v) == InDegree(edges[..i], v)
      invariant forall u :: Tally(outDeg, u) == OutDegree(edges[..i], u)
    {
      var e := edges[i];
      ghost var inBefore, outBefore := inDeg, outDeg;
      outDeg := outDeg[e.src := Tally(outDeg, e.src) + 1];
      inDeg := inDeg[e.dst := Tally(inDeg, e.dst) + 1];
      DegreeStep(edges, i);
      forall v ensures Tally(inDeg, v) == InDegree(edges[..i + 1], v) {
        assert Tally(inBefore, v) == InDegree(edges[..i], v);
      }
      forall u ensures Tally(outDeg, u) == OutDegree(edges[..i + 1], u) {
        assert Tally(outBefore, u) == OutDegree(edges[..i], u);
      }
    }
    assert edges[..|edges|] == edges;
    forall v | v in inDeg ensures inDeg[v] == InDegree(edges, v) {
      assert Tally(inDeg, v) == InDegree(edges, v);
    }
    forall u | u in outDeg ensures outDeg[u] == OutDegree(edges, u) {
      assert Tally(outDeg, u) == OutDegree(edges, u);
    }
  }

  /** The loop over `in_deg.items()`: append each node's in-degree descriptor and record
      the vocabulary length reached. */
  method AppendInDescriptors(features: seq<string>, order: seq<nat>, inDeg: map<nat, nat>,
                             ghost edges: seq<Edge>)
    returns (features': seq<string>, inFeatMap: map<nat, nat>)
    requires Elements(order) <= inDeg.Keys
    requires forall v :: v in inDeg ==> inDeg[v] == InDegree(edges, v)
    ensures features' == features + InDescriptors(order, edges)
    ensures inFeatMap == Positions(order, |features|)
  {
    features' := features;
    inFeatMap := map[];
    for k := 0 to |order|
      invariant features' == features + InDescriptors(order[..k], edges)
      invariant inFeatMap == Positions(order[..k], |features|)
    {
      var u := order[k];
      assert u in Elements(order);
      assert order[..k + 1][..k] == order[..k];
      features' := features' + [InDescriptor(u, inDeg[u])];
      inFeatMap := inFeatMap[u := |features'|];
    }
    assert order[..|order|] == order;
  }

  /** The loop over `out_deg.items()`: append each node's out-degree descriptor and record
      the vocabulary length reached. */
  method AppendOutDescriptors(features: seq<string>, order: seq<nat>, outDeg: map<nat, nat>,
                              ghost edges: seq<Edge>)
    returns (features': seq<string>, outFeatMap: map<nat, nat>)
    requires Elements(order) <= outDeg.Keys
    requires forall u :: u in outDeg ==> outDeg[u] == OutDegree(edges, u)
    ensures features' == features + OutDescriptors(order, edges)
    ensures outFeatMap == Positions(order, |features|)
  {
    features' := features;
    outFeatMap := map[];
    for k := 0 to |order|
      invariant features' == features + OutDescriptors(order[..k], edges)
      invariant outFeatMap == Positions(order[..k], |features|)
    {
      var u := order[k];
      assert u in Elements(order);
      assert order[..k + 1][..k] == order[..k];
      features' := features' + [OutDescriptor(u, outDeg[u])];
      outFeatMap := outFeatMap[u := |features'|];
    }
    assert order[..|order|] == order;
  }

  /** The final loop: `f.append(in_feat_map[v]); f.append(out_feat_map[u])` for every
      edge `(u, v, f)`. */
  method AppendDegreeIndices(edges: seq<Edge>, inFeatMap: map<nat, nat>, outFeatMap: map<nat, nat>)
    returns (newEdges: seq<Edge>)
    requires forall i :: 0 <= i < |edges| ==> edges[i].dst in inFeatMap && edges[i].src in outFeatMap
    ensures newEdges == AugmentEdges(edges, inFeatMap, outFeatMap)
  {
    newEdges := [];
    for i := 0 to |edges|
      invariant |newEdges| == i
      invariant forall j :: 0 <= j < i ==> newEdges[j] == AugmentEdges(edges, inFeatMap, outFeatMap)[j]
    {
      var e := edges[i];
      newEdges := newEdges + [Edge(e.src, e.dst, e.feats + [inFeatMap[e.dst], outFeatMap[e.src]])];
    }
  }

  /** `add_degree_feature`, statement by statement. */
  method AddDegreeFeature(g: QueryGraph, inOrder: seq<nat>, outOrder: seq<nat>) returns (r: QueryGraph)
    requires IsOrderOf(inOrder, Destinations(g.edges)) && IsOrderOf(outOrder, Sources(g.edges))
    ensures r == DegreeAugmented(g, inOrder, outOrder)
  {
    var inDeg, outDeg := CountDegrees(g.edges);
    var features, inFeatMap := AppendInDescriptors(g.features, inOrder, inDeg, g.edges);
    ghost var base := |g.features|;
    assert features == g.features + InDescriptors(inOrder, g.edges);
    assert |features| == base + |inOrder|;
    var outFeatMap;
    features, outFeatMap := AppendOutDescriptors(features, outOrder, outDeg, g.edges);
    assert features == g.features + InDescriptors(inOrder, g.edges) + OutDescriptors(outOrder, g.edges);
    AugmentDomain(g.edges, inOrder, outOrder, base);
    var newEdges := AppendDegreeIndices(g.edges, inFeatMap, outFeatMap);
    DegreeAugmentedParts(g, inOrder, outOrder, features, inFeatMap, outFeatMap, newEdges);
    r := g.(features := features, edges := newEdges);
  }

  // ----- What the augmented graph holds -----

  /** A node is a key of the in-degree Counter exactly when some edge enters it, and of
      the out-degree Counter exactly when some edge leaves it. */
  lemma {:induction false} DegreePositive(edges: seq<Edge>)
    ensures forall v :: v in Destinations(edges) <==> InDegree(edges, v) > 0
    ensures forall u :: u in Sources(edges) <==> OutDegree(edges, u) > 0
  {
    if edges != [] {
      var p := edges[..|edges| - 1];
      DegreePositive(p);
      assert edges == p + [edges[|edges| - 1]];
      assert Destinations(edges) == Destinations(p) + {edges[|edges| - 1].dst};
      assert Sources(edges) == Sources(p) + {edges[|edges| - 1].src};
    }
  }

  /** Each recorded index lies in the block appended for `order` and points back at the
      node it was recorded for. */
  lemma {:induction false} PositionsAt(order: seq<nat>, base: nat)
    requires Distinct(order)
    ensures forall x :: x in Positions(order, base) ==>
      base < Positions(order, base)[x] <= base + |order| && order[Positions(order, base)[x] - base - 1] == x
  {
    if order != [] {
      var p := order[..|order| - 1];
      var last := order[|order| - 1];
      DistinctPrefix(order);
      PositionsAt(p, base);
      PositionsKeys(p, base);
      forall x | x in Positions(order, base)
        ensures base < Positions(order, base)[x] <= base + |order|
        ensures order[Positions(order, base)[x] - base - 1] == x
      {
        if x != last {
          var k := Positions(p, base)[x];
          assert Positions(order, base)[x] == k;
          assert order[k - base - 1] == p[k - base - 1];
        }
      }
    }
  }

  /** The k-th in-degree descriptor is that of the k-th node of the order. */
  lemma {:induction false} InDescriptorsAt(order: seq<nat>, edges: seq<Edge>)
    ensures forall k :: 0 <= k < |order| ==>
      InDescriptors(order, edges)[k] == InDescriptor(order[k], InDegree(edges, order[k]))
  {
    if order != [] {
      var p := order[..|order| - 1];
      InDescriptorsAt(p, edges);
      forall k | 0 <= k < |p| ensures order[k] == p[k] { }
    }
  }

  /** The k-th out-degree descriptor is that of the k-th node of the order. */
  lemma {:induction false} OutDescriptorsAt(order: seq<nat>, edges: seq<Edge>)
    ensures forall k :: 0 <= k < |order| ==>
      OutDescriptors(order, edges)[k] == OutDescriptor(order[k], OutDegree(edges, order[k]))
  {
    if order != [] {
      var p := order[..|order| - 1];
      OutDescriptorsAt(p, edges);
      forall k | 0 <= k < |p| ensures order[k] == p[k] { }
    }
  }

  /** The new vocabulary: the old entries unchanged, then one in-degree descriptor per
      destination, then one out-degree descriptor per source, each carrying its node's
      degree over the graph's edges; nothing else about the graph changes. */
  lemma DegreeVocabulary(g: QueryGraph, inOrder: seq<nat>, outOrder: seq<nat>)
    requires IsOrderOf(inOrder, Destinations(g.edges)) && IsOrderOf(outOrder, Sources(g.edges))
    ensures var r := DegreeAugmented(g, inOrder, outOrder);
      var b := |g.features|;
      && |r.features| == b + |Destinations(g.edges)| + |Sources(g.edges)|
      && r.features[..b] == g.features
      && (forall k :: 0 <= k < |inOrder| ==>
            r.features[b + k] == InDescriptor(inOrder[k], InDegree(g.edges, inOrder[k])))
      && (forall k :: 0 <= k < |outOrder| ==>
            r.features[b + |inOrder| + k] == OutDescriptor(outOrder[k], OutDegree(g.edges, outOrder[k])))
      && r.(features := g.features, edges := g.edges) == g
  {
    DistinctCard(inOrder);
    DistinctCard(outOrder);
    InDescriptorsAt(inOrder, g.edges);
    OutDescriptorsAt(outOrder, g.edges);
  }

  /** The index recorded for `v` in a block appended after `pre` points into that block,
      at the slot of `v` in the order. */
  lemma PositionInBlock<T>(pre: seq<T>, order: seq<nat>, block: seq<T>, post: seq<T>, v: nat)
    requires Distinct(order) && |block| == |order| && v in Positions(order, |pre|)
    ensures var a := Positions(order, |pre|)[v];
      && |pre| < a <= |pre| + |order| && order[a - |pre| - 1] == v
      && (pre + block + post)[a - 1] == block[a - |pre| - 1]
  {
    PositionsAt(order, |pre|);
  }

  /** The index recorded for a destination `v` lies in the in-degree block and names
      `v`'s in-degree descriptor, whatever follows the block. */
  lemma InIndexResolves(pre: seq<string>, inOrder: seq<nat>, post: seq<string>, edges: seq<Edge>, v: nat)
    requires Distinct(inOrder) && v in Positions(inOrder, |pre|)
    ensures var a := Positions(inOrder, |pre|)[v];
      var fs := pre + InDescriptors(inOrder, edges) + post;
      && |pre| < a <= |pre| + |inOrder| && fs[a - 1] == InDescriptor(v, InDegree(edges, v))
  {
    var ins := InDescriptors(inOrder, edges);
    PositionInBlock(pre, inOrder, ins, post, v);
    InDescriptorsAt(inOrder, edges);
  }

  /** The index recorded for a source `u` lies in the out-degree block and names `u`'s
      out-degree descriptor. */
  lemma OutIndexResolves(pre: seq<string>, outOrder: seq<nat>, edges: seq<Edge>, u: nat)
    requires Distinct(outOrder) && u in Positions(outOrder, |pre|)
    ensures var c := Positions(outOrder, |pre|)[u];
      var fs := pre + OutDescriptors(outOrder, edges);
      && |pre| < c <= |pre| + |outOrder| && fs[c - 1] == OutDescriptor(u, OutDegree(edges, u))
  {
    var outs := OutDescriptors(outOrder, edges);
    PositionInBlock(pre, outOrder, outs, [], u);
    assert pre + outs + [] == pre + outs;
    OutDescriptorsAt(outOrder, edges);
  }

  /** Edge `i` of the augmented graph: same endpoints, the old feature list, then the
      recorded in-degree index of its destination and out-degree index of its source. */
  lemma DegreeEdgeAt(g: QueryGraph, inOrder: seq<nat>, outOrder: seq<nat>, i: nat)
    requires IsOrderOf(inOrder, Destinations(g.edges)) && IsOrderOf(outOrder, Sources(g.edges))
    requires i < |g.edges|
    ensures var r := DegreeAugmented(g, inOrder, outOrder);
      var e := g.edges[i];
      var n := |e.feats|;
      && |r.edges| == |g.edges|
      && r.edges[i].src == e.src && r.edges[i].dst == e.dst
      && |r.edges[i].feats| == n + 2 && r.edges[i].feats[..n] == e.feats
      && |g.features| < r.edges[i].feats[n] <= |g.features| + |inOrder|
      && |g.features| + |inOrder| < r.edges[i].feats[n + 1] <= |r.features|
      && r.features[r.edges[i].feats[n] - 1] == InDescriptor(e.dst, InDegree(g.edges, e.dst))
      && r.features[r.edges[i].feats[n + 1] - 1] == OutDescriptor(e.src, OutDegree(g.edges, e.src))
  {
    var b := |g.features|;
    var ins := InDescriptors(inOrder, g.edges);
    var outs := OutDescriptors(outOrder, g.edges);
    var inMap := Positions(inOrder, b);
    var outMap := Positions(outOrder, b + |inOrder|);
    var e := g.edges[i];
    AugmentDomain(g.edges, inOrder, outOrder, b);
    var edges' := AugmentEdges(g.edges, inMap, outMap);
    var fs := g.features + ins + outs;
    assert DegreeAugmented(g, inOrder, outOrder) == g.(features := fs, edges := edges');
    assert edges'[i] == Edge(e.src, e.dst, e.feats + [inMap[e.dst], outMap[e.src]]);
    InIndexResolves(g.features, inOrder, outs, g.edges, e.dst);
    OutIndexResolves(g.features + ins, outOrder, g.edges, e.src);
  }

  /** Every edge keeps its endpoints and position and gains exactly two feature indices:
      first one that resolves to `inDeg(v, d)` with `d` the in-degree of its destination
      `v`, then one that resolves to `outDeg(u, d')` with `d'` the out-degree of its
      source `u`, both counted over the same edge list. */
  lemma DegreeEdges(g: QueryGraph, inOrder: seq<nat>, outOrder: seq<nat>)
    requires IsOrderOf(inOrder, Destinations(g.edges)) && IsOrderOf(outOrder, Sources(g.edges))
    ensures var r := DegreeAugmented(g, inOrder, outOrder);
      && |r.edges| == |g.edges|
      && forall i :: 0 <= i < |g.edges| ==>
        var n := |g.edges[i].feats|;
        && r.edges[i].src == g.edges[i].src && r.edges[i].dst == g.edges[i].dst
        && |r.edges[i].feats| == n + 2 && r.edges[i].feats[..n] == g.edges[i].feats
        && |g.features| < r.edges[i].feats[n] <= |g.features| + |inOrder|
        && |g.features| + |inOrder| < r.edges[i].feats[n + 1] <= |r.features|
        && r.features[r.edges[i].feats[n] - 1] == InDescriptor(g.edges[i].dst, InDegree(g.edges, g.edges[i].dst))
        && r.features[r.edges[i].feats[n + 1] - 1] == OutDescriptor(g.edges[i].src, OutDegree(g.edges, g.edges[i].src))
  {
    forall i | 0 <= i < |g.edges| {
      DegreeEdgeAt(g, inOrder, outOrder, i);
    }
  }

  /** Augmenting keeps every feature index inside the (grown) vocabulary. */
  lemma DegreeFeaturesInRange(g: QueryGraph, inOrder: seq<nat>, outOrder: seq<nat>)
    requires IsOrderOf(inOrder, Destinations(g.edges)) && IsOrderOf(outOrder, Sources(g.edges))
    requires FeaturesInRange(g)
    ensures FeaturesInRange(DegreeAugmented(g, inOrder, outOrder))
  {
    var r := DegreeAugmented(g, inOrder, outOrder);
    assert |r.features| >= |g.features|;
    assert |r.edges| == |g.edges|;
    forall i, j | 0 <= i < |r.edges| && 0 <= j < |r.edges[i].feats|
      ensures 1 <= r.edges[i].feats[j] <= |r.features|
    {
      DegreeEdgeAt(g, inOrder, outOrder, i);
      var n := |g.edges[i].feats|;
      if j < n {
        assert r.edges[i].feats[j] == r.edges[i].feats[..n][j] == g.edges[i].feats[j];
      }
    }
  }

  /** One edge 1 -> 2 tagged `assoc`: node 2 gets `inDeg(2,1)` at index 8 and node 1
      gets `outDeg(1,1)` at index 9, and the edge's feature list becomes [2, 8, 9]. */
  lemma DegreeExample()
    ensures
      var g := QueryGraph("X", [3], [], 2, [Edge(1, 2, [ASSOC_FEATURE])], FEATURES, map[]);
      IsOrderOf([2], Destinations(g.edges)) && IsOrderOf([1], Sources(g.edges)) &&
      DegreeAugmented(g, [2], [1])
        == g.(features := FEATURES + ["inDeg(2,1)", "outDeg(1,1)"], edges := [Edge(1, 2, [2, 8, 9])])
  {
    var edges := [Edge(1, 2, [ASSOC_FEATURE])];
    assert edges[..0] == [];
    assert Destinations(edges) == {2} && Sources(edges) == {1};
    assert Elements([2]) == {2} && Elements([1]) == {1};
    assert [2][..0] == [] && [1][..0] == [];
    assert InDegree(edges, 2) == 1 && OutDegree(edges, 1) == 1;
    assert NatToString(1) == "1" && NatToString(2) == "2";
    assert InDescriptor(2, 1) == "inDeg(" + "2" + "," + "1" + ")" == "inDeg(2,1)";
    assert OutDescriptor(1, 1) == "outDeg(" + "1" + "," + "1" + ")" == "outDeg(1,1)";
    assert InDescriptors([2], edges) == InDescriptors([], edges) + [InDescriptor(2, 1)];
    assert OutDescriptors([1], edges) == OutDescriptors([], edges) + [OutDescriptor(1, 1)];
    assert Positions([2], 7) == map[2 := 8];
    assert Positions([1], 8) == map[1 := 9];
    var g := QueryGraph("X", [3], [], 2, edges, FEATURES, map[]);
    var r := DegreeAugmented(g, [2], [1]);
    assert r.features == FEATURES + ["inDeg(2,1)"] + ["outDeg(1,1)"];
    assert AugmentEdges(edges, map[2 := 8], map[1 := 9])[0] == Edge(1, 2, [2, 8, 9]);
    assert r.edges == [Edge(1, 2, [2, 8, 9])];
  }
}
