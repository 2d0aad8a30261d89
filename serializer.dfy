/** The grounded-line format (code/convert.py:140-150): each query graph becomes one
    tab-separated line, and the `.grounded` text is those lines one after another.

    The partner of the writer is `ParseLine`, a reader for the same format; the round
    trip `ParseLine(Line(g))` recovers every printed field of `g`. */
module Serializer {
  import opened Sequences
  import opened Text
  import opened Grounding
  import opened DegreeFeature

  datatype Option<T> = None | Some(value: T)

  /** `'{0}->{1}:{2}'.format(n1, n2, ','.join(str(i) for i in f))`: it reads back as the
      edge and holds no tab or newline, so it stays one field of one line. */
  function EdgeSegment(e: Edge): (r: string)
    ensures ParseEdge(r) == Some(e)
    ensures Free(r, '\t') && Free(r, '\n')
  {
    var r := NatToString(e.src) + "->" + NatToString(e.dst) + ":" + Join(',', NatStrings(e.feats));
    ParseEdgeSegment(e, r);
    SegmentFree(e, r, '\t');
    SegmentFree(e, r, '\n');
    r
  }

  /** One segment per edge, in edge order: the i-th reads back as the i-th edge, and none
      holds a tab or a newline. */
  function Segments(edges: seq<Edge>): (r: seq<string>)
    ensures |r| == |edges|
    ensures forall i :: 0 <= i < |edges| ==> r[i] == EdgeSegment(edges[i])
    ensures forall i :: 0 <= i < |edges| ==> ParseEdge(r[i]) == Some(edges[i])
    ensures AllFree(r, '\t') && AllFree(r, '\n')
  {
    seq(|edges|, i requires 0 <= i < |edges| => EdgeSegment(edges[i]))
  }

  /** The seven fields before the edge segments: query, the query vector `1`, the
      positive ids, the negative ids, the node count, the edge count and the vocabulary. */
  function Header(g: QueryGraph): (h: seq<string>)
    ensures |h| == 7
  {
    [ g.query,
      Join(',', ["1"]),
      Join(',', NatStrings(g.posNodes)),
      Join(',', NatStrings(g.negNodes)),
      NatToString(g.nodeCount),
      NatToString(|g.edges|),
      Join(':', g.features) ]
  }

  /** The line without its newline: the header fields and then the tab-joined segments
      as the eighth field. */
  function Body(g: QueryGraph): string {
    Join('\t', Header(g) + [Join('\t', Segments(g.edges))])
  }

  /** The line written for `g`. */
  function Line(g: QueryGraph): string {
    Body(g) + "\n"
  }

  /** The text of the `.grounded` file: every graph's line in order. */
  function GroundedText(graphs: seq<QueryGraph>): string {
    if graphs == [] then "" else Line(graphs[0]) + GroundedText(graphs[1..])
  }

  // ----- Reading a line back -----

  /** Every field a grounded line carries. */
  datatype Record = Record(query: string, queryVec: seq<nat>, posNodes: seq<nat>, negNodes: seq<nat>,
                           nodeCount: nat, edgeCount: nat, features: seq<string>, edges: seq<Edge>)

  /** What the line for `g` should read back as. */
  function RecordOf(g: QueryGraph): Record {
    Record(g.query, [1], g.posNodes, g.negNodes, g.nodeCount, |g.edges|, g.features, g.edges)
  }

  /** Reads `src->dst:f1,...,fk`. */
  function ParseEdge(seg: string): Option<Edge> {
    var parts := Split(seg, ':');
    if |parts| != 2 then None
    else
      var ends := Split(parts[0], '-');
      if |ends| != 2 || ends[1] == [] || ends[1][0] != '>' then None
      else Some(Edge(ParseNat(ends[0]), ParseNat(ends[1][1..]), ParseNats(parts[1])))
  }

  function ParseEdges(segs: seq<string>): (r: Option<seq<Edge>>)
    ensures r.Some? ==> |r.value| == |segs|
  {
    if segs == [] then Some([])
    else match (ParseEdge(segs[0]), ParseEdges(segs[1..]))
      case (Some(e), Some(es)) => Some([e] + es)
      case _ => None
  }

  /** The `:`-joined vocabulary read back; the empty field is the empty vocabulary. */
  function ParseFeatures(s: string): seq<string> {
    if s == "" then [] else Split(s, ':')
  }

  /** Reads one grounded line, newline included. The eighth field onwards are the edge
      segments; a lone empty eighth field means there are none. */
  function ParseLine(line: string): Option<Record> {
    if line == [] || line[|line| - 1] != '\n' then None
    else
      var fs := Split(line[..|line| - 1], '\t');
      if |fs| < 8 then None
      else
        var segs := if fs[7..] == [""] then [] else fs[7..];
        match ParseEdges(segs)
        case None => None
        case Some(es) =>
          Some(Record(fs[0], ParseNats(fs[1]), ParseNats(fs[2]), ParseNats(fs[3]),
                      ParseNat(fs[4]), ParseNat(fs[5]), ParseFeatures(fs[6]), es))
  }

  // ----- When the format can be read back -----

  /** A vocabulary entry that survives the `:`-join and the line format. */
  ghost predicate PrintableFeature(f: string) {
    |f| >= 1 && Free(f, ':') && Free(f, '\t') && Free(f, '\n')
  }

  /** The free-text parts of `g` hold none of the format's separators. */
  ghost predicate Printable(g: QueryGraph) {
    && Free(g.query, '\t') && Free(g.query, '\n')
    && forall i :: 0 <= i < |g.features| ==> PrintableFeature(g.features[i])
  }

  lemma FreeConcat(a: string, b: string, c: char)
    requires Free(a, c) && Free(b, c)
    ensures Free(a + b, c)
  {
    forall i | 0 <= i < |a + b| ensures (a + b)[i] != c {
      if i >= |a| {
        assert (a + b)[i] == b[i - |a|];
      }
    }
  }

  /** A comma-joined list of numbers holds no character other than digits and commas. */
  lemma NumberListFree(xs: seq<nat>, c: char)
    requires !('0' <= c <= '9') && c != ','
    ensures Free(Join(',', NatStrings(xs)), c)
  {
    NatStringsFree(xs, c);
    JoinFree(',', NatStrings(xs), c);
  }

  /** A segment holds digits, `-`, `>`, `:` and `,` only. */
  lemma SegmentFree(e: Edge, s: string, c: char)
    requires s == NatToString(e.src) + "->" + NatToString(e.dst) + ":" + Join(',', NatStrings(e.feats))
    requires !('0' <= c <= '9') && c != '-' && c != '>' && c != ':' && c != ','
    ensures Free(s, c)
  {
    DigitsFree(NatToString(e.src), c);
    DigitsFree(NatToString(e.dst), c);
    NumberListFree(e.feats, c);
    FreeConcat(NatToString(e.src), "->", c);
    FreeConcat(NatToString(e.src) + "->", NatToString(e.dst), c);
    FreeConcat(NatToString(e.src) + "->" + NatToString(e.dst), ":", c);
    FreeConcat(NatToString(e.src) + "->" + NatToString(e.dst) + ":", Join(',', NatStrings(e.feats)), c);
  }

  /** Every header field of a printable graph is free of tabs and newlines. */
  lemma HeaderFree(g: QueryGraph, c: char)
    requires Printable(g) && (c == '\t' || c == '\n')
    ensures AllFree(Header(g), c)
  {
    var h := Header(g);
    NumberListFree([1], c);
    assert NatStrings([1]) == ["1"];
    NumberListFree(g.posNodes, c);
    NumberListFree(g.negNodes, c);
    DigitsFree(NatToString(g.nodeCount), c);
    DigitsFree(NatToString(|g.edges|), c);
    JoinFree(':', g.features, c);
    forall i | 0 <= i < 7 ensures Free(h[i], c) {
    }
  }

  /** The header fields and the edge segments of a printable graph hold no tab. */
  lemma FieldsTabFree(g: QueryGraph)
    requires Printable(g)
    ensures AllFree(Header(g) + Segments(g.edges), '\t')
  {
    var h := Header(g);
    var segs := Segments(g.edges);
    HeaderFree(g, '\t');
    forall i | 0 <= i < |h + segs| ensures Free((h + segs)[i], '\t') {
      if i < 7 {
        assert (h + segs)[i] == h[i];
      } else {
        assert (h + segs)[i] == segs[i - 7];
      }
    }
  }

  /** The line of a printable graph splits on tabs into its seven header fields and then
      one field per edge segment; with no edges the eighth field is empty. */
  lemma BodyFields(g: QueryGraph)
    requires Printable(g)
    ensures Split(Body(g), '\t') == Header(g) + (if g.edges == [] then [""] else Segments(g.edges))
  {
    var h := Header(g);
    var segs := Segments(g.edges);
    if g.edges == [] {
      HeaderFree(g, '\t');
      assert Join('\t', segs) == "";
      assert AllFree(h + [""], '\t') by {
        forall i | 0 <= i < 8 ensures Free((h + [""])[i], '\t') {
          if i < 7 {
            assert (h + [""])[i] == h[i];
          }
        }
      }
      SplitJoin(h + [""], '\t');
    } else {
      FieldsTabFree(g);
      JoinFlatten('\t', h, segs);
      SplitJoin(h + segs, '\t');
    }
  }

  /** The body of a printable graph's line holds no newline. */
  lemma BodyOneLine(g: QueryGraph)
    requires Printable(g)
    ensures Free(Body(g), '\n')
  {
    var h := Header(g);
    HeaderFree(g, '\n');
    JoinFree('\t', Segments(g.edges), '\n');
    assert AllFree(h + [Join('\t', Segments(g.edges))], '\n') by {
      forall i | 0 <= i < 8 ensures Free((h + [Join('\t', Segments(g.edges))])[i], '\n') {
        if i < 7 {
          assert (h + [Join('\t', Segments(g.edges))])[i] == h[i];
        }
      }
    }
    JoinFree('\t', h + [Join('\t', Segments(g.edges))], '\n');
  }

  /** The first line body in front of the lines of the remaining graphs. */
  lemma LinesCons(graphs: seq<QueryGraph>, lines: seq<string>, rest: seq<string>)
    requires graphs != [] && lines == [Body(graphs[0])] + rest
    requires |rest| == |graphs| && rest[|graphs| - 1] == ""
    requires forall i :: 0 <= i < |graphs| - 1 ==> rest[i] == Body(graphs[1..][i])
    ensures |lines| == |graphs| + 1 && lines[|graphs|] == ""
    ensures forall i :: 0 <= i < |graphs| ==> lines[i] == Body(graphs[i])
  {
    forall i | 0 < i < |graphs| ensures lines[i] == Body(graphs[i]) {
      assert lines[i] == rest[i - 1] && graphs[i] == graphs[1..][i - 1];
    }
  }

  /** Splitting the grounded text at newlines gives one line body per graph, in order,
      and the empty remainder after the final newline. */
  lemma {:induction false} GroundedTextLines(graphs: seq<QueryGraph>)
    requires forall i :: 0 <= i < |graphs| ==> Printable(graphs[i])
    ensures var lines := Split(GroundedText(graphs), '\n');
      && |lines| == |graphs| + 1 && lines[|graphs|] == ""
      && forall i :: 0 <= i < |graphs| ==> lines[i] == Body(graphs[i])
  {
    if graphs != [] {
      var g := graphs[0];
      BodyOneLine(g);
      GroundedTextLines(graphs[1..]);
      SplitAtSeparator(Body(g), GroundedText(graphs[1..]), '\n');
      assert GroundedText(graphs) == Body(g) + ['\n'] + GroundedText(graphs[1..]);
      LinesCons(graphs, Split(GroundedText(graphs), '\n'), Split(GroundedText(graphs[1..]), '\n'));
    }
  }

  /** A segment whose parts hold no separator splits at its `:` into the endpoint pair
      and the feature list, and the pair splits at its `-` into the source and `>dst`. */
  lemma SplitSegment(a: string, b: string, c: string)
    requires Free(a, ':') && Free(b, ':') && Free(c, ':') && Free(a, '-') && Free(b, '-')
    ensures Split(a + "->" + b + ":" + c, ':') == [a + "->" + b, c]
    ensures Split(a + "->" + b, '-') == [a, ">" + b]
  {
    FreeConcat(a, "->", ':');
    FreeConcat(a + "->", b, ':');
    assert a + "->" + b + ":" + c == (a + "->" + b) + [':'] + c;
    SplitAtSeparator(a + "->" + b, c, ':');
    SplitFreePrefix(c, "", ':');
    assert c + "" == c;
    FreeConcat(">", b, '-');
    assert a + "->" + b == a + ['-'] + (">" + b);
    SplitAtSeparator(a, ">" + b, '-');
    SplitFreePrefix(">" + b, "", '-');
    assert (">" + b) + "" == ">" + b;
  }

  /** The formatted segment `src->dst:f1,...` reads back as its edge. */
  lemma ParseEdgeSegment(e: Edge, s: string)
    requires s == NatToString(e.src) + "->" + NatToString(e.dst) + ":" + Join(',', NatStrings(e.feats))
    ensures ParseEdge(s) == Some(e)
  {
    var a := NatToString(e.src);
    var b := NatToString(e.dst);
    var c := Join(',', NatStrings(e.feats));
    DigitsFree(a, ':');
    DigitsFree(b, ':');
    DigitsFree(a, '-');
    DigitsFree(b, '-');
    NumberListFree(e.feats, ':');
    SplitSegment(a, b, c);
    assert (">" + b)[1..] == b;
    ParseNatToString(e.src);
    ParseNatToString(e.dst);
    ParseNatsJoin(e.feats);
  }

  lemma {:induction false} ParseSegments(edges: seq<Edge>)
    ensures ParseEdges(Segments(edges)) == Some(edges)
  {
    if edges != [] {
      assert Segments(edges)[1..] == Segments(edges[1..]);
      ParseSegments(edges[1..]);
      assert [edges[0]] + edges[1..] == edges;
    }
  }

  /** The vocabulary field reads back as the vocabulary. */
  lemma ParseVocabulary(features: seq<string>)
    requires forall i :: 0 <= i < |features| ==> PrintableFeature(features[i])
    ensures ParseFeatures(Join(':', features)) == features
  {
    if features != [] {
      JoinNonEmpty(':', features);
      SplitJoin(features, ':');
    }
  }

  /** A printed line ends in its newline, and its tab-separated fields are the header
      and then the edge segments, or one empty field when there are no edges. */
  lemma LineSplit(g: QueryGraph)
    requires Printable(g)
    ensures var line := Line(g); line != [] && line[|line| - 1] == '\n'
    ensures var fs := Split(Line(g)[..|Line(g)| - 1], '\t');
      && |fs| >= 8 && fs[..7] == Header(g)
      && (g.edges == [] ==> fs[7..] == [""])
      && (g.edges != [] ==> fs[7..] == Segments(g.edges) && fs[7..] != [""])
  {
    var line := Line(g);
    assert line[..|line| - 1] == Body(g);
    BodyFields(g);
    var fs := Split(Body(g), '\t');
    if g.edges != [] {
      assert fs[7..] == Segments(g.edges);
      assert Segments(g.edges)[0] != "" by {
        assert |EdgeSegment(g.edges[0])| >= 1;
      }
    }
  }

  /** Round trip: the line written for a printable graph reads back as every field it
      prints — the query, the query vector `[1]`, the positive and negative ids, the node
      count, the edge count, the vocabulary and the edges with their feature lists. */
  lemma ParseLineRoundTrip(g: QueryGraph)
    requires Printable(g)
    ensures ParseLine(Line(g)) == Some(RecordOf(g))
  {
    LineSplit(g);
    var line := Line(g);
    var fs := Split(line[..|line| - 1], '\t');
    var h := Header(g);
    assert fs[0] == h[0] && fs[1] == h[1] && fs[2] == h[2] && fs[3] == h[3];
    assert fs[4] == h[4] && fs[5] == h[5] && fs[6] == h[6];
    ParseSegments(g.edges);
    ParseNatsJoin([1]);
    assert NatStrings([1]) == ["1"];
    ParseNatsJoin(g.posNodes);
    ParseNatsJoin(g.negNodes);
    ParseNatToString(g.nodeCount);
    ParseNatToString(|g.edges|);
    ParseVocabulary(g.features);
  }

  /** The edge-count field of a printed line is the number of edge segments after it. */
  lemma EdgeCountMatchesSegments(g: QueryGraph)
    requires Printable(g)
    ensures ParseLine(Line(g)).Some?
    ensures ParseLine(Line(g)).value.edgeCount == |ParseLine(Line(g)).value.edges|
  {
    ParseLineRoundTrip(g);
  }

  /** On a printed line, every feature index of every edge segment is a 1-based index
      into the vocabulary field of the same line, when it was one in the graph. */
  lemma LineFeatureIndices(g: QueryGraph)
    requires Printable(g) && FeaturesInRange(g)
    ensures ParseLine(Line(g)).Some?
    ensures var rec := ParseLine(Line(g)).value;
      forall i, j :: 0 <= i < |rec.edges| && 0 <= j < |rec.edges[i].feats| ==>
        1 <= rec.edges[i].feats[j] <= |rec.features|
  {
    ParseLineRoundTrip(g);
  }

  // ----- The graphs the converter prints can be read back -----

  /** The seven built-in vocabulary entries are printable. */
  lemma BuiltinFeaturesPrintable()
    ensures forall i :: 0 <= i < |FEATURES| ==> PrintableFeature(FEATURES[i])
  {
  }

  /** A degree descriptor holds letters, digits, parentheses and a comma only. */
  lemma DescriptorsPrintable(u: nat, d: nat)
    ensures PrintableFeature(InDescriptor(u, d)) && PrintableFeature(OutDescriptor(u, d))
  {
    forall c | c == ':' || c == '\t' || c == '\n'
      ensures Free(InDescriptor(u, d), c) && Free(OutDescriptor(u, d), c)
    {
      DigitsFree(NatToString(u), c);
      DigitsFree(NatToString(d), c);
      FreeConcat("inDeg(", NatToString(u), c);
      FreeConcat("inDeg(" + NatToString(u), ",", c);
      FreeConcat("inDeg(" + NatToString(u) + ",", NatToString(d), c);
      FreeConcat("inDeg(" + NatToString(u) + "," + NatToString(d), ")", c);
      FreeConcat("outDeg(", NatToString(u), c);
      FreeConcat("outDeg(" + NatToString(u), ",", c);
      FreeConcat("outDeg(" + NatToString(u) + ",", NatToString(d), c);
      FreeConcat("outDeg(" + NatToString(u) + "," + NatToString(d), ")", c);
    }
  }

  /** Every graph `ground_graph` builds prints as a line that reads back, provided no
      label holds a tab or a newline. */
  lemma GroundPrintable(es: seq<RawEdge>, seeds: map<string, string>, labels: seq<string>, order: seq<string>)
    requires Elements(order) <= Names(es)
    requires forall k :: 0 <= k < |labels| ==> Free(labels[k], '\t') && Free(labels[k], '\n')
    ensures forall k :: 0 <= k < |labels| ==> Printable(Ground(es, seeds, labels, order)[k])
  {
    BuiltinFeaturesPrintable();
    forall k | 0 <= k < |labels| ensures Printable(Ground(es, seeds, labels, order)[k]) {
      GraphForHeader(es, seeds, order, labels[k]);
    }
  }

  /** `add_degree_feature` keeps a graph printable: it only appends descriptors. */
  lemma DegreePrintable(g: QueryGraph, inOrder: seq<nat>, outOrder: seq<nat>)
    requires IsOrderOf(inOrder, Destinations(g.edges)) && IsOrderOf(outOrder, Sources(g.edges))
    requires Printable(g)
    ensures Printable(DegreeAugmented(g, inOrder, outOrder))
  {
    var r := DegreeAugmented(g, inOrder, outOrder);
    var b := |g.features|;
    DegreeVocabulary(g, inOrder, outOrder);
    forall i | 0 <= i < |r.features| ensures PrintableFeature(r.features[i]) {
      if i < b {
        assert r.features[i] == r.features[..b][i];
      } else if i < b + |inOrder| {
        DescriptorsPrintable(inOrder[i - b], InDegree(g.edges, inOrder[i - b]));
        assert r.features[b + (i - b)] == InDescriptor(inOrder[i - b], InDegree(g.edges, inOrder[i - b]));
      } else {
        var k := i - b - |inOrder|;
        DescriptorsPrintable(outOrder[k], OutDegree(g.edges, outOrder[k]));
        assert r.features[b + |inOrder| + k] == OutDescriptor(outOrder[k], OutDegree(g.edges, outOrder[k]));
      }
    }
  }

  /** The example line's fields joined by tabs, one separator at a time. */
  lemma ExampleJoin()
    ensures Join('\t', ["X", "1", "4", "", "3", "1", "seed", "4->1:1"])
      == "X" + "\t" + ("1" + "\t" + ("4" + "\t" + ("" + "\t" + ("3" + "\t" + ("1" + "\t" + ("seed" + "\t" + "4->1:1"))))))
  {
    var f6 := ["seed"] + ["4->1:1"];
    var f5 := ["1"] + f6;
    var f4 := ["3"] + f5;
    var f3 := [""] + f4;
    var f2 := ["4"] + f3;
    var f1 := ["1"] + f2;
    JoinCons('\t', "seed", ["4->1:1"]);
    JoinCons('\t', "1", f6);
    JoinCons('\t', "3", f5);
    JoinCons('\t', "", f4);
    JoinCons('\t', "4", f3);
    JoinCons('\t', "1", f2);
    JoinCons('\t', "X", f1);
    assert ["X"] + f1 == ["X", "1", "4", "", "3", "1", "seed", "4->1:1"];
  }

  /** The example's one edge prints as the field `4->1:1`. */
  lemma ExampleSegment()
    ensures Join('\t', Segments([Edge(4, 1, [SEED_FEATURE])])) == "4->1:1"
  {
    assert NatToString(1) == "1" && NatToString(4) == "4";
    assert NatStrings([1]) == ["1"];
    assert Join(',', ["1"]) == "1";
    assert EdgeSegment(Edge(4, 1, [1])) == "4" + "->" + "1" + ":" + "1" == "4->1:1";
    assert Segments([Edge(4, 1, [SEED_FEATURE])]) == ["4->1:1"];
  }

  /** The example's seven header fields. */
  lemma ExampleHeader()
    ensures Header(QueryGraph("X", [4], [], 3, [Edge(4, 1, [SEED_FEATURE])], ["seed"], map[]))
      == ["X", "1", "4", "", "3", "1", "seed"]
  {
    assert NatToString(1) == "1" && NatToString(3) == "3" && NatToString(4) == "4";
    assert NatStrings([4]) == ["4"] && NatStrings([]) == [];
    assert Join(',', ["1"]) == "1" && Join(',', ["4"]) == "4" && Join(',', []) == "";
    assert Join(':', ["seed"]) == "seed";
  }

  /** The line for a graph with one seed edge 4 -> 1 and a one-entry vocabulary; the
      empty negative-id list prints as an empty field between two tabs. */
  lemma LineExample()
    ensures Line(QueryGraph("X", [4], [], 3, [Edge(4, 1, [SEED_FEATURE])], ["seed"], map[]))
      == "X" + "\t" + ("1" + "\t" + ("4" + "\t" + ("" + "\t" + ("3" + "\t" + ("1" + "\t" + ("seed" + "\t" + "4->1:1")))))) + "\n"
  {
    var g := QueryGraph("X", [4], [], 3, [Edge(4, 1, [SEED_FEATURE])], ["seed"], map[]);
    ExampleSegment();
    ExampleHeader();
    assert Header(g) + [Join('\t', Segments(g.edges))] == ["X", "1", "4", "", "3", "1", "seed", "4->1:1"];
    ExampleJoin();
  }
}
