# JuntoProPPR grounding, modelled in Dafny

JuntoProPPR converts a label-propagation graph (weighted undirected edges between
named nodes, plus a seed label for some nodes) into "grounded" query graphs in the
ProPPR edge format. This project models the grounding core of `code/convert.py` and
proves what it promises:

- **`ground_graph`** (module `Grounding`, with the id allocator in `Registry`).
  - A closure counter (`Registry.FreshCounter`) hands out ids 1, 2, 3, … to each node
    name the first time it is seen.
  - `node_doc` is the reverse map from id to name.
  - Every input edge becomes two directed edges, each tagged with feature 2 (`assoc`).
  - One start node is allocated after registration.
  - Each label gets one query graph: its seed edges (start → node, feature 1 = `seed`),
    then the structural edges, plus the 7-entry vocabulary.
  - `Grounding.GroundGraph` is the method, written loop by loop. It is proved equal to
    the specification function `Grounding.Ground`, and the lemmas about `Ground` and
    `GraphFor` state the properties.
- **`add_degree_feature`** (module `DegreeFeature`).
  - Counts in- and out-degrees over the edge list.
  - Appends one `inDeg(u,d)` descriptor per destination, then one `outDeg(u,d)` per
    source, to the 1-indexed vocabulary.
  - Pushes the index of the edge's destination in-degree descriptor, then the index of
    its source out-degree descriptor, onto every edge's feature list.
  - `DegreeFeature.AddDegreeFeature` is the method.
  - `DegreeFeature.DegreeAugmented` is its specification.
- **The grounded-line serialiser** (module `Serializer`, string primitives in `Text`).
  - Each graph becomes one tab-separated line with these fields: query, `1`, the
    positive ids, the negative ids, the node count, the edge count, the `:`-joined
    vocabulary, then one `src->dst:f1,f2,…` segment per edge.
  - The partner of the writer is a reader, `Serializer.ParseLine`. A round-trip lemma
    shows that every printed field reads back.

Python dicts, sets and `Counter`s have no fixed iteration order. Where the converter
iterates one, the model takes the order as a parameter and requires only that it lists
each key exactly once (`Sequences.IsOrderOf`):

- `nodeOrder` for `for node in nodes`;
- `inOrder` and `outOrder` for `in_deg.items()` and `out_deg.items()`.

Every property below holds for every such order.

Three consequences of the code worth stating:

- `ground_graph` does not deduplicate: a repeated input edge yields its two structural
  edges again (`Grounding.StructuralEdgesAt`).
- Seeded names that appear in no edge are never registered, so with no edges the node
  count is 0, the start node is 1 and there are no seed edges (`Grounding.NoEdges`).
- `grounded_graph[0]` (code/convert.py:158) fails when there are no labels. That lookup
  is not part of this model (see below).

## Model

| member | source | states |
|---|---|---|
| Registry.FreshCounter.constructor | code/convert.py:18-19 | a new counter starts at 0 |
| Registry.FreshCounter.Fresh | code/convert.py:20-22 | each call adds one to the counter and returns the new value, so successive calls give 1, 2, 3, … |
| Registry.Register | code/convert.py:44-49 | the registry after one `if name not in nodes` block: a known name leaves it unchanged, a new name takes id last+1 in `nodes` and `node_doc` (definition; its properties are `RegisterExtends` and `RegisterKeepsDense`) |
| Registry.RegisterAll | code/convert.py:43-49 | the registry after registering the endpoint names in loop order (definition; its properties are `RegisterAllFacts`, `FirstSightingIds`, `RegisterAllPrefix` and `RegistryIds`) |
| Registry.RegisterKeepsDense | code/convert.py:44-49 | registering one name keeps the ids exactly 1..last with `node_doc` the inverse of `nodes`; a new name gets last+1, a known name changes nothing, and no existing id moves |
| Registry.RegisterAllFacts | code/convert.py:43-49 | after the loop the registered names are exactly the endpoint names, the ids are exactly 1..N with `node_doc` the inverse of `nodes`, and the k-th distinct name in order of first sighting has id k+1 |
| Registry.FirstSightingIds | code/convert.py:43-49 | the k-th distinct name, in order of first sighting, is registered with id k+1 |
| Registry.RegisterAllPrefix | code/convert.py:43-49 | an id assigned part-way through the loop is never changed by later edges |
| Registry.FirstSightingsDistinct | code/convert.py:44-49 | each name is registered once |
| Registry.RegistryIds | code/convert.py:43-49 | distinct names get distinct ids, every id lies in 1..N, and N = `len(nodes)` = the number of distinct names |
| Grounding.Endpoints | code/convert.py:43 | the loop sees two names per input edge |
| Grounding.StructuralEdges | code/convert.py:43-53 | `edges` after the loop: for each input edge in order, (n1, n2, [2]) then (n2, n1, [2]) (definition; its properties are `StructuralEdgesAt` and `StructuralEdgesShape`) |
| Grounding.SeedEdges | code/convert.py:58-61 | `seed_edges` for one label: (start, id, [1]) for each iterated name seeded with the label, in iteration order (definition; its properties are `SeedEdgesExact`, `SeedEdgesCount` and `SeedEdgesShape`) |
| Grounding.GraphFor | code/convert.py:57-72 | the dict appended for one label (definition; its properties are `GraphForHeader`, `GraphForEdges` and `GraphForFeaturesInRange`) |
| Grounding.Ground | code/convert.py:17-74 | the list `ground_graph` returns: `GraphFor` of each label in label order (definition; `GroundGraph` is proved equal to it and `GroundFeaturesInRange` states its properties) |
| Grounding.EndpointsAt | code/convert.py:43-49 | the names looked at for input edge i are its `node1` then its `node2`, and both get registered |
| Grounding.StructuralEdgesAt | code/convert.py:43-53 | the structural edge list has exactly 2·|edges| entries; entry 2i is (id(node1), id(node2), [2]) and entry 2i+1 is (id(node2), id(node1), [2]) |
| Grounding.StructuralEdgesShape | code/convert.py:52-53 | every structural edge carries only feature 2 and joins two registered ids |
| Grounding.RegisterName | code/convert.py:44-49 | one `if name not in nodes` block: the new maps and counter are exactly those of registering the name, so a known name changes nothing and a new one takes the next fresh id |
| Grounding.RegisterEdgeStep | code/convert.py:43-53 | one pass of the registration loop turns the registry and structural edges of the first i input edges into those of the first i+1, with both endpoints registered |
| Grounding.RegisterEdges | code/convert.py:43-53 | the registration loop leaves `nodes`, `node_doc` and the counter equal to registering the endpoints in order, and builds exactly the structural edges |
| Grounding.CollectSeedEdges | code/convert.py:58-61 | the inner loop builds exactly the seed edges of the label, in node-iteration order |
| Grounding.BuildGraphs | code/convert.py:57-72 | the label loop appends, for each label in order, exactly the graph `GraphFor` describes: query = label, `[start]` positive, no negatives, the node count, seed edges before structural edges, the seven built-in features and `node_doc` |
| Grounding.GroundGraph | code/convert.py:17-74 | `ground_graph` returns exactly `Ground`: one graph per label, built from the registry, the start node and the structural edges |
| Grounding.SeedEdgesExact | code/convert.py:58-61 | an edge is a seed edge of label L if and only if it is (start, id(n), [1]) for a registered name n with `seeds[n] == L` |
| Grounding.SeedEdgesCount | code/convert.py:58-61 | there is exactly one seed edge per registered name seeded with L |
| Grounding.SeedEdgesShape | code/convert.py:58-61 | every seed edge leaves the start node, carries only feature 1 and enters a registered id |
| Grounding.StartNodeFresh | code/convert.py:43-55 | `start_node = len(nodes) + 1`: above every node id and not a key of `node_doc` |
| Grounding.GraphForHeader | code/convert.py:63-72 | each graph has query = label, `pos_nodes == [start_node]`, `neg_nodes == []`, `node_count == len(nodes)`, the 7-entry vocabulary, and a `node_doc` that is the exact inverse of the ids over 1..node_count |
| Grounding.GraphForEdges | code/convert.py:57-69 | a graph's edges are its seed edges followed by the unchanged structural list; the prefix holds exactly the seed edges of its label, and the count is (seeded names) + 2·|edges| |
| Grounding.GraphForFeaturesInRange | code/convert.py:33-72 | every feature index of a grounded graph names a vocabulary entry, and every edge joins ids in 1..start_node |
| Grounding.GroundFeaturesInRange | code/convert.py:57-74 | there is one graph per label, the k-th for the k-th label, and each has its feature indices in range |
| Grounding.NoEdges | code/convert.py:43-72 | with no input edges every graph has node count 0, start node 1 and no edges |
| Grounding.WorkedExample | code/convert.py:17-74 | edges a–b and b–c with seeds a:X and c:Y give a=1, b=2, c=3, start=4, and two graphs of five edges each |
| DegreeFeature.InDescriptor | code/convert.py:86 | the text `inDeg(u,d)` (definition; `InDescriptorsAt` and `DescriptorsPrintable` state its use and its characters) |
| DegreeFeature.OutDescriptor | code/convert.py:89 | the text `outDeg(u,d)` (definition; `OutDescriptorsAt` and `DescriptorsPrintable` state its use and its characters) |
| DegreeFeature.Tally | code/convert.py:78-82 | a Counter lookup, 0 for a missing key, which is what lets `out_deg[u] += 1` and `in_deg[v] += 1` start from nothing (definition; `CountDegrees` carries it in its loop invariant) |
| DegreeFeature.InDescriptors | code/convert.py:85-86 | the block of `inDeg(u,d)` entries appended, one per node of the `in_deg.items()` order (definition; `InDescriptorsAt` states the k-th entry, `DegreeVocabulary` its place in the vocabulary) |
| DegreeFeature.OutDescriptors | code/convert.py:88-89 | the block of `outDeg(u,d)` entries appended, one per node of the `out_deg.items()` order (definition; `OutDescriptorsAt` states the k-th entry, `DegreeVocabulary` its place in the vocabulary) |
| DegreeFeature.Positions | code/convert.py:85-90 | `in_feat_map` / `out_feat_map`: each node mapped to the vocabulary length right after its descriptor is appended (definition; `PositionsAt`, `InIndexResolves` and `OutIndexResolves` state where the indices point) |
| DegreeFeature.AugmentEdges | code/convert.py:91-94 | every edge with `in_feat_map[v]` and then `out_feat_map[u]` appended to its feature list (definition; `DegreeEdgeAt` and `DegreeEdges` state the result) |
| DegreeFeature.DegreeAugmented | code/convert.py:77-95 | the graph `add_degree_feature` returns for given Counter iteration orders (definition; `AddDegreeFeature` is proved equal to it, and `DegreeVocabulary`, `DegreeEdges` and `DegreeFeaturesInRange` state its properties) |
| DegreeFeature.CountDegrees | code/convert.py:78-82 | the counting loop leaves the Counters keyed by exactly the destinations and sources, each holding the number of edges entering or leaving that node |
| DegreeFeature.DegreePositive | code/convert.py:78-82 | a node is a Counter key if and only if its degree is positive |
| DegreeFeature.AppendInDescriptors | code/convert.py:85-87 | the in-degree loop appends one descriptor per node of the iteration order and records for each the vocabulary length just reached |
| DegreeFeature.AppendOutDescriptors | code/convert.py:88-90 | the out-degree loop does the same for the sources |
| DegreeFeature.AppendDegreeIndices | code/convert.py:91-94 | the last loop gives every edge its recorded in-index then out-index, edge by edge |
| DegreeFeature.AugmentDomain | code/convert.py:91-94 | the lookups `in_feat_map[v]` and `out_feat_map[u]` never fail, because both maps cover every edge's endpoints |
| DegreeFeature.AddDegreeFeature | code/convert.py:77-95 | `add_degree_feature` produces exactly `DegreeAugmented` |
| DegreeFeature.PositionsAt | code/convert.py:83-90 | each recorded index lies inside the block appended for its loop and points back at the node it was recorded for |
| DegreeFeature.InDescriptorsAt | code/convert.py:85-86 | the k-th in-degree descriptor is `inDeg(u,d)` for the k-th node u and its in-degree d |
| DegreeFeature.OutDescriptorsAt | code/convert.py:88-89 | the k-th out-degree descriptor is `outDeg(u,d)` for the k-th node u and its out-degree d |
| DegreeFeature.DegreeVocabulary | code/convert.py:83-90 | the new vocabulary length is old + distinct destinations + distinct sources; the old entries come first unchanged, then all in-degree descriptors, then all out-degree descriptors; nothing outside vocabulary and edges changes |
| DegreeFeature.InIndexResolves | code/convert.py:85-87 | the index recorded for a destination v is in range and names `inDeg(v, in-degree of v)` |
| DegreeFeature.OutIndexResolves | code/convert.py:88-90 | the index recorded for a source u is in range and names `outDeg(u, out-degree of u)` |
| DegreeFeature.DegreeEdgeAt | code/convert.py:91-94 | edge i keeps its endpoints and old features, and gains exactly two indices: the first lies in the in-degree block just appended and names its destination's `inDeg` descriptor, the second lies in the out-degree block after it and names its source's `outDeg` descriptor |
| DegreeFeature.DegreeEdges | code/convert.py:77-95 | the same for every edge at once: both new indices point into the freshly appended blocks (never at an older vocabulary entry), and the edge order and count are unchanged |
| DegreeFeature.DegreeFeaturesInRange | code/convert.py:77-95 | if every feature index named a vocabulary entry before, it still does after |
| DegreeFeature.DegreeExample | code/convert.py:77-95 | one edge 1→2 with feature 2 gets `inDeg(2,1)` at index 8, `outDeg(1,1)` at index 9, and the feature list [2, 8, 9] |
| Text.NatToString | code/convert.py:143-146 | `str(n)` is a non-empty run of decimal digits with no leading zero |
| Text.ParseNatToString | code/convert.py:143-146 | reading `str(n)` back gives n |
| Text.NatToStringInjective | code/convert.py:143-146 | distinct ids print differently |
| Text.NatStrings | code/convert.py:143-144 | `[str(i) for i in xs]` is element-by-element `str` |
| Text.Join | code/convert.py:140-149 | `sep.join(parts)`: the parts with one separator between neighbours (definition; `SplitJoin`, `JoinFlatten` and `ParseNatsJoin` state its properties) |
| Text.SplitJoin | code/convert.py:140-149 | splitting a join recovers the parts when no part holds the separator |
| Text.JoinFlatten | code/convert.py:140-149 | a tab-join whose last part is itself a tab-join equals one flat tab-join |
| Text.ParseNatsJoin | code/convert.py:143-144 | a comma-joined id list reads back as the same list, the empty list included |
| Serializer.EdgeSegment | code/convert.py:148 | the segment `src->dst:f1,…` of an edge reads back as that edge (source, destination and feature list) and holds no tab or newline |
| Serializer.Segments | code/convert.py:148-149 | one segment per edge in edge order; the i-th segment reads back as the i-th edge and no segment holds a tab or a newline, so each stays one field of one line |
| Serializer.Header | code/convert.py:141-147 | the seven fields before the segments |
| Serializer.Body | code/convert.py:140-149 | the tab-join of the seven header fields and the tab-joined segments (definition; `BodyFields` and `BodyOneLine` state how it splits) |
| Serializer.Line | code/convert.py:140-150 | the body followed by `\n` (definition; `ParseLineRoundTrip` states that it reads back) |
| Serializer.GroundedText | code/convert.py:140-150 | every graph's line, in graph order (definition; `GroundedTextLines` states how it splits into lines) |
| Serializer.BodyFields | code/convert.py:140-150 | a line splits on tabs into the seven header fields, then one field per edge segment; with no edges there is one empty trailing field |
| Serializer.BodyOneLine | code/convert.py:140-150 | a line holds no newline before its final one |
| Serializer.GroundedTextLines | code/convert.py:150-155 | the written text splits at newlines into one line per graph, in order |
| Serializer.ParseEdgeSegment | code/convert.py:148 | the text `str(src)->str(dst):` followed by the comma-joined feature ids reads back as the edge |
| Serializer.ParseSegments | code/convert.py:148-149 | the segments read back as the edge list |
| Serializer.ParseVocabulary | code/convert.py:147 | the `:`-joined vocabulary reads back as the vocabulary |
| Serializer.ParseLineRoundTrip | code/convert.py:140-150 | the line of a printable graph reads back as its query, `[1]`, positive ids, negative ids, node count, edge count, vocabulary and edges |
| Serializer.EdgeCountMatchesSegments | code/convert.py:146-149 | the edge-count field equals the number of edge segments that follow it |
| Serializer.LineFeatureIndices | code/convert.py:140-150 | on a printed line whose graph has in-range feature indices, every feature id of every segment read back is a 1-based index into the vocabulary field read back from the same line |
| Serializer.BuiltinFeaturesPrintable | code/convert.py:33-41 | none of the seven entries of the built-in vocabulary (the constant `Grounding.FEATURES`, the `features` list of `ground_graph`) holds `:`, a tab or a newline |
| Serializer.DescriptorsPrintable | code/convert.py:86-89 | no degree descriptor holds `:`, a tab or a newline |
| Serializer.GroundPrintable | code/convert.py:57-72 | every grounded graph is printable when no label holds a tab or a newline |
| Serializer.DegreePrintable | code/convert.py:83-90 | `add_degree_feature` keeps a graph printable |
| Serializer.LineExample | code/convert.py:140-150 | a graph with one seed edge 4→1 and vocabulary `seed` prints as `X\t1\t4\t\t3\t1\tseed\t4->1:1\n` (the proof states the string as the concatenation of its fields and tabs) |

## Left out

- `code/runner.py` is not part of this model. It launches external engines and reads their score files.
- File and command-line plumbing is left out because it is I/O: `argparse`, `os.makedirs`, `open`/`write`, the `.map` file and `json.dump` (code/convert.py:152-177). `Serializer.GroundedText` models the text that is written.
- Logging calls are left out: they do not affect any result.
- The `grounded_graph[0]` lookup (code/convert.py:158) is left out. It belongs to writing the node map, and it fails when there are no labels.
- `random.sample` edge subsampling (code/convert.py:134-135) is left out because it is random. `ground_graph` is modelled on whatever edge sequence it receives.
- The file parsers `parse_junto_config`, `parse_junto_graph` and `parse_junto` (code/convert.py:98-127) are left out. They iterate over files and swallow exceptions around Python's `split`. Their outputs appear in the model only as the `RawEdge` sequence and the `seeds` map.
- Iteration order of `nodes`, `in_deg` and `out_deg` is a parameter, as explained above. `labels` (a `set` in code/convert.py:136) is taken as any sequence, so the model covers every iteration order of that set too.
- DegreeFeature.AddDegreeFeature: returns the updated graph as a new value instead of mutating the caller's dict and feature lists in place.
- Aliasing is not modelled. Every graph shares the same `node_doc` dict and the same inner `[2]` feature lists of the structural edges (code/convert.py:52-53, 69-71). In the model each graph owns its own copy. So applying `add_degree_feature` to one graph changes none of the others here, whereas in the source the shared lists would grow. Only single-graph statements about `add_degree_feature` are made, and no idempotence is claimed: a second call appends again.
- The unused `new_edges = []` (code/convert.py:91) has no counterpart.
- Grounding.GroundGraph: the loops of `ground_graph` are written as the helper methods `RegisterEdges` (with `RegisterName` for each `if name not in nodes` block), `BuildGraphs` and, inside it, `CollectSeedEdges`; the main method calls them in the source's order.
- The `weight` of an input edge is carried in `RawEdge` but never used, as in the source.
- Python 2 byte/unicode string distinctions are not modelled: strings are `seq<char>`. `str` is modelled only on the non-negative integers the converter prints.
- Serializer.ParseLine: not part of the source. It is the reader that partners the writer. It does not check that numeric fields hold only digits.
- Serializer.ParseLineRoundTrip: stated for printable graphs only. The query must hold no tab or newline. Every vocabulary entry must be non-empty and hold no `:`, tab or newline. A graph outside that condition prints a line that cannot be read back unambiguously. `Serializer.GroundPrintable` and `Serializer.DegreePrintable` show that the converter's own graphs meet the condition when the labels do.
