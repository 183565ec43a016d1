# Lintel, modelled in Dafny

Lintel builds low-poly buildings on a triangular grid. This project models
three parts of it.

- **Septomino classification.** A footprint is a list of triangle coordinates.
  The footprint is classified into integer-valued maps:
  - tile valence: how many of a triangle's adjacent triangles are in the footprint;
  - vertex valence: how many of a vertex's adjacent vertices are in the footprint's vertex set;
  - corner kind: for a perimeter triangle sharing exactly one vertex with the footprint, that vertex's valence;
  - edge kind: for a perimeter triangle sharing two vertices, the sum of their valences less the valence of the adjacent footprint triangle.

  Every value must be a case of a gapped enum, otherwise the operation throws:
  - triangles 1...5;
  - vertices 2...10 or 12;
  - corners 2...9;
  - edges 4...14.

  The upper floor is built in three steps:
  - erode the lower floor's tips (its valence-1 triangles);
  - classify the rest as a footprint of its own;
  - sum it onto the lower floor, and classify corners and edges again on the summed maps.
- **Weighted-vertex helpers.** These are the array extensions that compute the same counts as weighted coordinate lists:
  - footprint, vertex, edge and perimeter weights;
  - rotation indices;
  - the weight-merging `merge`.
- **Cutaways and styles.** A cutaway is the set of named line segments laid out along a wall edge. Its segments are: frame, sill, lintel, transom and cutaway, each with base and peak, plus their insets. Each architecture style traces closed outlines through the named cutaway points: frame, door, archway, transom, window and window frame.

Files:

- `wrappers.dfy` holds `Option` and `Result`.
- `sequences.dfy` holds array `filter`, `firstIndex(where:)` and `reversed()` with their facts.
- `grid.dfy` holds the grid library as uninterpreted functions with stated assumptions. It also holds the footprint's vertex set.
- `classification.dfy` holds the classification operation.
- `classification_properties.dfy` holds the lemmas about the classification.
- `weighted.dfy` holds the weighted-vertex helpers.
- `cutaway.dfy` and `style.dfy` hold the cutaway and the style outlines.

## Model

| member | source | states |
|---|---|---|
| GridLibrary.CornerSet | Sources/Lintel/Extensions/Array.swift:27 | every corner of every footprint triangle belongs to the vertex set |
| GridLibrary.CornerSetSound | Sources/Lintel/Extensions/Array.swift:27 | every member of the vertex set is a corner of some footprint triangle |
| GridLibrary.CornerSetMonotone | Sources/Lintel/Extensions/Array.swift:27 | a footprint contained in another has a vertex set contained in the other's |
| GridLibrary.VerticesExact | Sources/Lintel/Extensions/Array.swift:27 | `vertices` (modelled by `Vertices`) has no repeats, and its entries are exactly the corners of the footprint's triangles |
| SeptominoClassification.ClassifyPrefix | Sources/Lintel/Operations/SeptominoClassificationOperation.swift:246-274 | the shared fold succeeds iff every item's valence is an enum case. On success the keys are the items and each value is the valence. On failure the error names the first rejected item |
| SeptominoClassification.ClassifyFootprint | Sources/Lintel/Operations/SeptominoClassificationOperation.swift:246-260 | `classify(footprint:)` succeeds iff every triangle has 1...5 footprint neighbours. The keys are exactly the footprint and each value is the neighbour count. Otherwise it throws `invalid(triangle:)` for the first triangle out of range |
| SeptominoClassification.ClassifyVertices | Sources/Lintel/Operations/SeptominoClassificationOperation.swift:262-274 | `classify(vertices:)` succeeds iff every vertex count is in 2...10 or 12. The keys are exactly the vertices and each value is the count. Otherwise it throws `invalid(vertex:)` for the first offending vertex |
| SeptominoClassification.CombinePrefix | Sources/Lintel/Operations/SeptominoClassificationOperation.swift:219-241 | the `combine` fold over a key order succeeds iff each key is in base and its sum is a case. The result maps each key to apex + base. On failure the error names the first failing key |
| SeptominoClassification.CombineTriangles | Sources/Lintel/Operations/SeptominoClassificationOperation.swift:219-229 | succeeds iff every apex key is in base with a sum in 1...5. The keys are exactly the apex keys, valued apex + base. Otherwise it throws `invalid(triangle:)` on an offending key |
| SeptominoClassification.CombineVertices | Sources/Lintel/Operations/SeptominoClassificationOperation.swift:231-241 | succeeds iff every apex key is in base with a sum in 2...10 or 12. The keys are exactly the apex keys, valued apex + base. Otherwise it throws `invalid(vertex:)` on an offending key |
| SeptominoClassification.ClassifyCornersPrefix | Sources/Lintel/Operations/SeptominoClassificationOperation.swift:280-293 | the corner fold over a perimeter prefix: the same facts as `ClassifyCorners`, restricted to that prefix |
| SeptominoClassification.ClassifyCorners | Sources/Lintel/Operations/SeptominoClassificationOperation.swift:276-294 | records exactly the perimeter triangles with one shared vertex, valued that vertex's valence in 2...9. It throws `invalidCorner` iff some such valence is out of range |
| SeptominoClassification.Neighbour | Sources/Lintel/Operations/SeptominoClassificationOperation.swift:306 | is `None` iff no footprint triangle is adjacent. Otherwise it is an adjacent footprint triangle |
| SeptominoClassification.ClassifyEdge | Sources/Lintel/Operations/SeptominoClassificationOperation.swift:302-318 | one step of the edge fold. It records a value iff two vertices are shared; the value is the sum of their valences minus the neighbour's valence, in 4...14. It throws `invalidEdge` otherwise |
| SeptominoClassification.ClassifyEdgesPrefix | Sources/Lintel/Operations/SeptominoClassificationOperation.swift:300-319 | the edge fold over a perimeter prefix: the same facts as `ClassifyEdges`, restricted to that prefix |
| SeptominoClassification.ClassifyEdges | Sources/Lintel/Operations/SeptominoClassificationOperation.swift:296-320 | records exactly the perimeter triangles with two shared vertices, valued valence(v0) + valence(v1) − neighbour valence. It throws `invalidEdge` iff one has no adjacent footprint triangle or a value outside 4...14 |
| SeptominoClassification.SeptominoClassificationOperation.constructor | Sources/Lintel/Operations/SeptominoClassificationOperation.swift:124-131 | a new operation holds its septomino, and its output is the `noResult` failure |
| SeptominoClassification.SeptominoClassificationOperation.Execute | Sources/Lintel/Operations/SeptominoClassificationOperation.swift:133-214 | `execute()` stores the classification, or the first error thrown, in `output`, then finishes |
| ClassificationProperties.TileValenceAtMostThree | Sources/Lintel/Operations/SeptominoClassificationOperation.swift:250-256 | on a repeat-free footprint a triangle has at most three footprint neighbours, so the case `.four`/`.five` is never reached on the lower floor |
| ClassificationProperties.IsolatedTriangleFails | Sources/Lintel/Operations/SeptominoClassificationOperation.swift:256 | a footprint of one triangle (neighbour count 0) throws `invalid(triangle:)` for it |
| ClassificationProperties.CornersAndEdgesPartition | Sources/Lintel/Operations/SeptominoClassificationOperation.swift:276-320 | corner and edge keys are disjoint, and both are within the perimeter |
| ClassificationProperties.NeighbourUnique | Sources/Lintel/Operations/SeptominoClassificationOperation.swift:306 | when exactly one footprint triangle is adjacent, `first` finds it |
| ClassificationProperties.EdgesIndependentOfOrder | Sources/Lintel/Operations/SeptominoClassificationOperation.swift:296-320 | when each perimeter triangle that shares two vertices with the floor has at most one adjacent footprint triangle, `classifyEdges` does not depend on dictionary iteration order; triangles sharing one or three vertices may have several |
| ClassificationProperties.ErosionExact | Sources/Lintel/Operations/SeptominoClassificationOperation.swift:159 | erosion (`Erode`) lists, without repeats, exactly the lower-footprint keys not classified `.one`, a subset of the keys |
| ClassificationProperties.CombineTrianglesFailsOnlyOnRange | Sources/Lintel/Operations/SeptominoClassificationOperation.swift:166-174 | the eroded keys are always in the lower floor, so combining triangles fails iff some sum exceeds 5 |
| ClassificationProperties.ErodedVerticesWithinLower | Sources/Lintel/Operations/SeptominoClassificationOperation.swift:145-167 | the eroded footprint's vertices are among the lower footprint's vertices |
| ClassificationProperties.CombineVerticesFailsOnlyOnRange | Sources/Lintel/Operations/SeptominoClassificationOperation.swift:167-177 | apex vertex keys are always lower vertex keys, so combining vertices fails iff some sum is 11 or above 12 |
| ClassificationProperties.CombineVerticesInRange | Sources/Lintel/Operations/SeptominoClassificationOperation.swift:231-241 | for vertex maps of valid cases with apex keys in base, combining fails only on a sum of 11 or above 12 |
| ClassificationProperties.SeptominoStages | Sources/Lintel/Operations/SeptominoClassificationOperation.swift:133-214 | a successful `execute()` pipeline (`ClassifySeptomino`) yields the lower floor (`ClassifyLower`) and the upper floor (`ClassifyUpper`) built from it |
| ClassificationProperties.UpperStages | Sources/Lintel/Operations/SeptominoClassificationOperation.swift:159-189 | a successful upper floor (`ClassifyUpper`) came from classifying the eroded footprint and its vertices, then combining and classifying on the eroded perimeter (`CombineFloors`) |
| ClassificationProperties.LayerStages | Sources/Lintel/Operations/SeptominoClassificationOperation.swift:183-203 | a layer (`ClassifyLayer`) keeps the given tile and vertex maps; its corner and edge keys are disjoint and within the perimeter |
| ClassificationProperties.LowerFloor | Sources/Lintel/Operations/SeptominoClassificationOperation.swift:137-153 | lower tile keys are the footprint, valued by neighbour counts. Lower vertex keys are the footprint's vertex set. Corners and edges are disjoint and within the perimeter |
| ClassificationProperties.CombinedFloor | Sources/Lintel/Operations/SeptominoClassificationOperation.swift:173-189 | combined tile and vertex maps keep the apex keys, valued apex + lower within range. The upper corners and edges are disjoint and within the eroded perimeter |
| ClassificationProperties.SummedTiles | Sources/Lintel/Operations/SeptominoClassificationOperation.swift:173-174 | a summed tile is its eroded valence plus its lower valence, between 2 and 5 |
| ClassificationProperties.UpperFloor | Sources/Lintel/Operations/SeptominoClassificationOperation.swift:159-189 | upper tile keys are exactly the lower floor's non-tips. Each is valued eroded valence + lower valence, in 2...5. Upper vertex keys are the eroded vertex set. Corners and edges are disjoint and within the eroded perimeter |
| ClassificationProperties.SeptominoLayers | Sources/Lintel/Operations/SeptominoClassificationOperation.swift:133-206 | the whole classification: lower keys and valences, upper keys = non-tips valued 2...5, and upper vertices within the lower vertices |
| Witness.DominoClassifies | Sources/Lintel/Operations/SeptominoClassificationOperation.swift:133-206 | some valid grid and footprint (two bordering triangles, every corner of valence 2) classify successfully, so the classification lemmas' requirements can be met |
| WeightedVertices.FirstWith | Sources/Lintel/Extensions/Array.swift:16 | `first { coordinate == }` is `None` iff no entry matches, else the first matching entry |
| WeightedVertices.Merge | Sources/Lintel/Extensions/Array.swift:12-21 | `merge` keeps the length and the coordinates in order |
| WeightedVertices.MergeWeights | Sources/Lintel/Extensions/Array.swift:12-21 | a merged weight is unchanged without a match, else its own weight plus the first match's weight |
| WeightedVertices.MergeEmpty | Sources/Lintel/Extensions/Array.swift:16-19 | merging with an empty array is the identity |
| WeightedVertices.MergeCommutes | Sources/Lintel/Extensions/Array.swift:12-21 | merging two arrays one after the other gives the same result in either order |
| WeightedVertices.ContainedCount | Sources/Lintel/Extensions/Array.swift:56-59 | the `reduce` count equals the number of entries kept by the matching `filter` |
| WeightedVertices.ContainedCountExact | Sources/Lintel/Extensions/Array.swift:56-59 | for repeat-free arrays the count is the size of the intersection, symmetric, and at most the length |
| WeightedVertices.WeightedFootprint | Sources/Lintel/Extensions/Array.swift:49-64 | `weightedFootprint` keeps coordinates and order; each weight is at most the adjacent count |
| WeightedVertices.WeightedFootprintValence | Sources/Lintel/Extensions/Array.swift:49-64 | each weight is the number of adjacent triangles in the footprint, at most 3, and the tile valence of `classify(footprint:)` |
| WeightedVertices.WeightedVerticesOf | Sources/Lintel/Extensions/Array.swift:126-141 | `weightedVertices` keeps coordinates and order; each weight is at most the adjacent-vertex count |
| WeightedVertices.WeightedVerticesValence | Sources/Lintel/Extensions/Array.swift:126-141 | each weight is the number of adjacent vertices in the array, and the vertex valence of `classify(vertices:)` |
| WeightedVertices.ConnectedVerticesExact | Sources/Lintel/Extensions/Array.swift:39 | the connected vertices are, without repeats, the triangle's corners that are footprint vertices, at most 3 |
| WeightedVertices.WeightedEdges | Sources/Lintel/Extensions/Array.swift:30-46 | `weightedEdges` has one entry per perimeter coordinate, in perimeter order |
| WeightedVertices.WeightedEdgesCountShared | Sources/Lintel/Extensions/Array.swift:30-46 | each edge weight counts the corners that are footprint vertices, is at most 3, and equals the shared-vertex count of `classifyCorners`/`classifyEdges` |
| WeightedVertices.WeightedRotations | Sources/Lintel/Extensions/Array.swift:96-123 | `weightedRotations` has one entry per perimeter coordinate, in perimeter order |
| WeightedVertices.RotationsExact | Sources/Lintel/Extensions/Array.swift:96-123 | a rotation (`Rotation`) is a valid index 0...2. With one connected vertex it is that vertex's corner index. Otherwise, when some adjacent triangle is in the footprint, it is the index of the first such triangle, with none before it; when none is, it is 0 |
| WeightedVertices.ConnectedTo | Sources/Lintel/Extensions/Array.swift:78-79 | filtering weighted entries by coordinate filters their coordinates and keeps entries unchanged |
| WeightedVertices.WeightedPerimeter | Sources/Lintel/Extensions/Array.swift:67-93 | `weightedPerimeter` has one entry per perimeter coordinate, in perimeter order |
| WeightedVertices.SumConnected | Sources/Lintel/Extensions/Array.swift:78-82 | summing the connected vertex weights sums the valences of the connected coordinates |
| WeightedVertices.ConnectedVertexWeights | Sources/Lintel/Extensions/Array.swift:69-82 | the perimeter's vertex sum is the sum of the connected vertices' valences |
| WeightedVertices.ConnectedTriangleWeight | Sources/Lintel/Extensions/Array.swift:79-88 | there is a connected footprint triangle iff one of the adjacent triangles is in the footprint; the first one's weight is its tile valence |
| WeightedVertices.PerimeterWeightExact | Sources/Lintel/Extensions/Array.swift:67-93 | a perimeter weight (`PerimeterWeight`) is the sum of connected vertex valences, minus the first adjacent footprint triangle's valence, or minus nothing |
| WeightedVertices.SharedAreConnected | Sources/Lintel/Extensions/Array.swift:39 | the vertices shared with the vertex map and the connected vertices are the same repeat-free set |
| WeightedVertices.PerimeterWeightTwoShared | Sources/Lintel/Extensions/Array.swift:67-93 | with two shared vertices and a unique neighbour, the weight is their valences' sum minus the neighbour's valence |
| WeightedVertices.PerimeterWeightIsEdgeValue | Sources/Lintel/Extensions/Array.swift:67-93 | over the classified maps, a two-vertex perimeter weight equals the value `classifyEdges` computes |
| Cutaway.RadiiOrdered | Sources/Lintel/Architecture/Cutaway.swift:19-21 | innerRadius = outerRadius − frameDepth = 0.05, positive and below outerRadius |
| Cutaway.FramePeakOffset | Sources/Lintel/Architecture/Cutaway.swift:14-23 | the frame peak sits at the frame height (`FrameHeight`), 0.1 below the apex height |
| Cutaway.TransomBaseOffset | Sources/Lintel/Architecture/Cutaway.swift:24 | the transom base sits 0.15 below the frame height |
| Cutaway.TransomPeakOffset | Sources/Lintel/Architecture/Cutaway.swift:25 | the transom peak sits 0.05 below the frame height |
| Cutaway.CutawayPeakOffset | Sources/Lintel/Architecture/Cutaway.swift:26 | the cutaway peak sits 0.2 below the frame height |
| Cutaway.SillBaseOffset | Sources/Lintel/Architecture/Cutaway.swift:27 | the sill base sits 0.55 below the frame height |
| Cutaway.SillPeakOffset | Sources/Lintel/Architecture/Cutaway.swift:28 | the sill peak sits 0.5 below the frame height |
| Cutaway.OffsetsOrdered | Sources/Lintel/Architecture/Cutaway.swift:15-28 | sillBase < sillPeak < cutawayPeak < transomBase < transomPeak < framePeak for any apex height |
| Cutaway.SegmentNamed | Sources/Lintel/Architecture/Cutaway.swift:36-89 | every name but `center` names a segment |
| Cutaway.VertexFor | Sources/Lintel/Architecture/Cutaway.swift:91-115 | `vertex(for:side:)` is the centre for `.center` on either side, else the end on that side of the segment of that name |
| Cutaway.MirrorSwapsSides | Sources/Lintel/Architecture/Cutaway.swift:91-115 | with every segment reversed, each named vertex is found on the other side |
| Cutaway.ApexTriple | Sources/Lintel/Architecture/Cutaway.swift:117-131 | inner → (cutawayInsetBase, cutawayPeak, cutawayInsetPeak); outer → (lintelBase, lintelPeak, transomBase) |
| Cutaway.BaseTriple | Sources/Lintel/Architecture/Cutaway.swift:133-147 | inner → (sillInsetPeak, sillPeak, sillInsetBase); outer → (frameInsetPeak, sillBase, frameInsetBase) |
| Cutaway.TriplesDistinct | Sources/Lintel/Architecture/Cutaway.swift:117-147 | a face's six apex and base names are distinct, and none is `center` |
| Cutaway.Build | Sources/Lintel/Architecture/Cutaway.swift:150-203 | the centre is the edge's midpoint. Frame peak, sill base, lintel base and lintel peak are the frame base shifted up by their offsets. Cutaway peak, sill peak, transom base and transom peak are the cutaway base shifted up |
| Cutaway.BuildVerticalLayout | Sources/Lintel/Architecture/Cutaway.swift:162-202 | on each side the frame-side and cutaway-side vertices stand in vertical lines over their bases, rising in order |
| Style.IsCurved | Sources/Lintel/Architecture/Style.swift:19-26 | `curved` is true exactly for `.curved` |
| Style.StyleOf | Sources/Lintel/Architecture/Style.swift:29-41 | bernina, singer → straight(false); daisen → straight(true); elna, merrow → curved(5); juki, necchi → angled, and no other type has each style |
| Style.CurvedStylesUseFiveSteps | Sources/Lintel/Architecture/Style.swift:29-41 | exactly elna and merrow are curved, with 5 steps |
| Style.StartVertex | Sources/Lintel/Architecture/Style.swift:49-59 | straight/inner → cutawayPeak; straight/outer → framePeak iff transom, lintelPeak otherwise; other styles → the apex's first vertex |
| Style.Start | Sources/Lintel/Architecture/Style.swift:46-60 | `start` is on the left side: straight/inner at cutawayPeak; straight/outer at framePeak with a transom, lintelPeak without; other styles at cutawayInsetBase (inner) or lintelBase (outer) |
| Style.Apex | Sources/Lintel/Architecture/Style.swift:142-178 | angled apexes have four points; straight apexes have two, beginning at the start point |
| Style.Base | Sources/Lintel/Architecture/Style.swift:180-216 | angled bases have four points, straight bases two |
| Style.Frame | Sources/Lintel/Architecture/Style.swift:65-75 | the frame starts and ends at (frameBase, left), with (frameBase, right) second to last and the outer apex between |
| Style.Door | Sources/Lintel/Architecture/Style.swift:96-106 | the door starts and ends at (cutawayBase, left), with (cutawayBase, right) second to last and the inner apex between |
| Style.Archway | Sources/Lintel/Architecture/Style.swift:77-94 | a straight archway is five closed points over the cutaway base, peaking at transomPeak with a transom and cutawayPeak without; any other archway is the door |
| Style.Transom | Sources/Lintel/Architecture/Style.swift:108-120 | the transom is five points, first = last = (transomBase, left), peaking at transomPeak |
| Style.Window | Sources/Lintel/Architecture/Style.swift:122-130 | the window is the inner apex, then the inner base, then the inner start |
| Style.WindowFrame | Sources/Lintel/Architecture/Style.swift:132-140 | the window frame is the outer apex, then the outer base, then the outer start |
| Style.TransomSelectsPeaks | Sources/Lintel/Architecture/Style.swift:51-52 | on symbolic points the straight archway peaks at transomPeak iff transom. The straight outer apex and outer start use framePeak iff transom. The straight inner apex is cutawayPeak |
| Style.OutlineShapes | Sources/Lintel/Architecture/Style.swift:142-216 | on symbolic points: the angled apex is (v0,L),(v2,L),(v2,R),(v0,R) and the angled base the same with sides reversed. The straight base is (v1,R),(v1,L). A curved apex or base is two curves sharing the control vertex v1 |
| Style.ApexEndpoints | Sources/Lintel/Architecture/Style.swift:142-178 | every apex runs from the start point on the left to the same vertex on the right |
| Style.BaseEndpoints | Sources/Lintel/Architecture/Style.swift:180-216 | every base runs from one vertex on the right to the same vertex on the left |
| Style.WindowsClosed | Sources/Lintel/Architecture/Style.swift:122-140 | the window and window frame are closed: their first point is their last, the face's start |
| Style.OutlinesMirrorSymmetric | Sources/Lintel/Architecture/Style.swift:142-216 | looking every point up on the other side reverses every apex and base |
| Style.MirroredCutawayOutlines | Sources/Lintel/Architecture/Style.swift:142-216 | on a concrete cutaway, tracing the mirrored cutaway reverses every apex and base |

## Left out

- The grid library (adjacency, corners, vertex adjacency, perimeter, set enumeration order) is not part of this model. Each is an uninterpreted function of a `Grid` value. `Valid` states what is assumed: three distinct adjacent triangles, none of them the triangle itself; three distinct corners; repeat-free vertex adjacency; enumeration lists a set without repeats. The perimeter is left entirely uninterpreted.
- The operation's `footprint.vertices` (SeptominoClassificationOperation.swift:145 and :167) comes from the Bivouac grid library, which is not part of this model. It is assumed to be the repeat-free corner set that `vertices` at Array.swift:27 computes; `Vertices` models both. The Bivouac grid used by the operation and the Deltille grid used by Array.swift are modelled as one `Grid`. The links between the weighted helpers and the classification (WeightedFootprintValence, WeightedVerticesValence, WeightedEdgesCountShared, PerimeterWeightIsEdgeValue) rest on that. A Bivouac vertex list with repeats would change every vertex valence, and the model does not capture that.
- A grid vertex and a triangle coordinate share one `Coordinate` type. `Grid.Vertex(c)` is taken as the identity.
- Dictionary and set iteration order is `enumerate` of the key set. It decides which key `combine` reports and which neighbour `footprint.first` picks. `EdgesIndependentOfOrder` shows the order does not matter when each perimeter triangle sharing two vertices with the floor has one adjacent footprint triangle; with several, the model picks the first in enumeration order.
- PerimeterWeightIsEdgeValue: stated on the classified maps' defining facts (keys and valences) rather than on `ClassifySeptomino`, and only for perimeter triangles with a unique adjacent footprint triangle.
- `ConcurrentOperation`, `finish()` and `ResultError.noResult` are reduced to a `finished` flag and a `NoResult` error. Concurrency and operation queues are not modelled.
- The colours of the enum cases and of the architecture palettes carry no behaviour and are left out.
- `derp` interpolation and `Vector.curve` are floating-point library calls; they are function parameters. `ApexEndpoints`, `BaseEndpoints` and `WindowsClosed` assume, for curved styles, that `curve` keeps its end points. `OutlinesMirrorSymmetric` assumes, for curved styles, that a swapped curve is traced backwards.
- Positions are exact reals, not `Double`.
- `LineSegment.vertex(for:)` is taken to give the start on the left and the end on the right. `LineSegment.center` is taken to be the midpoint.
- The failable `LineSegment(...)!` constructions trap on a degenerate segment; the model builds every segment.
- `ArchitectureType.apex` comes from `Grid.Scale.tile`, which is not part of this model; it is the `apex` parameter of `Build` and of the offsets.
- The mesh construction that consumes the outlines (extrusion, union, subtraction in doors, windows, archways and walls) is not modelled.
- Swift `Int` addition traps on overflow, in `merge` and in the valence sums of `combine`, `classifyEdges` and the weighted helpers. The model uses unbounded `int`, so it has no overflow trap.
- Tile valences are the `Triangle` cases 1...5; any other count is an error, not a value.
- The perimeter is not assumed to lie inside or outside the footprint.
