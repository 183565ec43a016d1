/**
 * Septomino classification: a footprint of grid triangles becomes integer-valued
 * maps (tile valence, vertex valence, corner kind, edge kind) for a lower floor,
 * and for an upper floor built on the footprint eroded of its tips.
 *
 * Each Swift `reduce(into:)` over an array is a left fold over a prefix of that
 * array (`...Prefix(k)` folds the first `k` entries), so an error is the one the
 * source throws first. A Swift dictionary is a Dafny `map`; where the source walks
 * a dictionary, the walk follows `g.enumerate` of its keys.
 */
module SeptominoClassification {
  import opened Wrappers
  import opened Sequences
  import opened GridLibrary

  /** Raw values of `Classification.Triangle`. */
  predicate IsTriangle(n: int) { 1 <= n <= 5 }

  /** Raw values of `Classification.Vertex` (there is no case 11). */
  predicate IsVertex(n: int) { 2 <= n <= 10 || n == 12 }

  /** Raw values of `Classification.Corner`. */
  predicate IsCorner(n: int) { 2 <= n <= 9 }

  /** Raw values of `Classification.Edge`. */
  predicate IsEdge(n: int) { 4 <= n <= 14 }

  datatype ClassificationError =
    | InvalidTriangle(triangle: Coordinate)
    | InvalidVertex(vertex: Coordinate)
    | InvalidCorner
    | InvalidEdge

  /** One floor: enum raw values keyed by triangle (footprint, corners, edges) or by vertex. */
  datatype Layer = Layer(
    footprint: map<Coordinate, int>,
    vertices: map<Coordinate, int>,
    corners: map<Coordinate, int>,
    edges: map<Coordinate, int>)

  datatype Classification = Classification(upper: Layer, lower: Layer)

  // ---------------------------------------------------------------------------
  // Valences
  // ---------------------------------------------------------------------------

  /** `items.filter { neighbours.contains($0) }.count`: repeats in `items` count again. */
  function Valence(items: seq<Coordinate>, neighbours: seq<Coordinate>): nat {
    |Filter(items, Elems(neighbours))|
  }

  /** Number of footprint entries among the triangles adjacent to `c`. */
  function TileValence(g: Grid, footprint: seq<Coordinate>, c: Coordinate): nat {
    Valence(footprint, g.adjacent(c))
  }

  /** Number of entries of `vertices` among the vertices adjacent to `v`. */
  function VertexValence(g: Grid, vertices: seq<Coordinate>, v: Coordinate): nat {
    Valence(vertices, g.vertexAdjacent(v))
  }

  /** The valence of `c` among `items` is a raw value of the target enum. */
  predicate Accepts(items: seq<Coordinate>, neighbours: Coordinate -> seq<Coordinate>, isCase: int -> bool, c: Coordinate) {
    isCase(Valence(items, neighbours(c)))
  }

  /**
   * The fold shared by both `classify` overloads, over the first `k` items: each
   * item is mapped to its valence, and the first item whose valence is not a raw
   * value of the target enum aborts the fold with `invalid(item)`.
   */
  function ClassifyPrefix(
    items: seq<Coordinate>,
    neighbours: Coordinate -> seq<Coordinate>,
    isCase: int -> bool,
    invalid: Coordinate -> ClassificationError,
    k: nat): (r: Result<map<Coordinate, int>, ClassificationError>)
    requires k <= |items|
    ensures r.Success? <==> forall i :: 0 <= i < k ==> Accepts(items, neighbours, isCase, items[i])
    ensures r.Success? ==> r.value.Keys == Elems(items[..k])
    ensures r.Success? ==> forall c :: c in r.value ==> r.value[c] == Valence(items, neighbours(c))
    ensures r.Failure? ==> exists i :: 0 <= i < k && r.error == invalid(items[i])
                                  && !Accepts(items, neighbours, isCase, items[i])
                                  && forall j :: 0 <= j < i ==> Accepts(items, neighbours, isCase, items[j])
    decreases k
  {
    if k == 0 then Success(map[])
    else
      var prev := ClassifyPrefix(items, neighbours, isCase, invalid, k - 1);
      var c := items[k - 1];
      if prev.Failure? then prev
      else if Accepts(items, neighbours, isCase, c) then
        PrefixElems(items, k);
        Success(prev.value[c := Valence(items, neighbours(c))])
      else
        Failure(invalid(c))
  }

  /**
   * `classify(footprint:)`: every footprint triangle is mapped to its tile valence;
   * it throws for the first triangle whose valence is outside 1...5.
   */
  function ClassifyFootprint(g: Grid, footprint: seq<Coordinate>): (r: Result<map<Coordinate, int>, ClassificationError>)
    ensures r.Success? <==> forall c :: c in footprint ==> IsTriangle(TileValence(g, footprint, c))
    ensures r.Success? ==> r.value.Keys == Elems(footprint)
    ensures r.Success? ==> forall c :: c in r.value ==> r.value[c] == TileValence(g, footprint, c) && IsTriangle(r.value[c])
    ensures r.Failure? ==> exists i :: 0 <= i < |footprint| && r.error == InvalidTriangle(footprint[i])
                                  && !IsTriangle(TileValence(g, footprint, footprint[i]))
                                  && forall j :: 0 <= j < i ==> IsTriangle(TileValence(g, footprint, footprint[j]))
  {
    assert footprint[..|footprint|] == footprint;
    assert forall c :: Accepts(footprint, g.adjacent, IsTriangle, c) <==> IsTriangle(TileValence(g, footprint, c));
    var r := ClassifyPrefix(footprint, g.adjacent, IsTriangle, c => InvalidTriangle(c), |footprint|);
    assert r.Success? <==> forall c :: c in footprint ==> IsTriangle(TileValence(g, footprint, c)) by {
      if r.Success? {
        forall c | c in footprint ensures IsTriangle(TileValence(g, footprint, c)) {
          var i :| 0 <= i < |footprint| && footprint[i] == c;
        }
      }
    }
    r
  }

  /**
   * `classify(vertices:)`: every vertex is mapped to its vertex valence; it throws
   * for the first vertex whose valence is 0, 1, 11 or above 12.
   */
  function ClassifyVertices(g: Grid, vertices: seq<Coordinate>): (r: Result<map<Coordinate, int>, ClassificationError>)
    ensures r.Success? <==> forall v :: v in vertices ==> IsVertex(VertexValence(g, vertices, v))
    ensures r.Success? ==> r.value.Keys == Elems(vertices)
    ensures r.Success? ==> forall v :: v in r.value ==> r.value[v] == VertexValence(g, vertices, v) && IsVertex(r.value[v])
    ensures r.Failure? ==> exists i :: 0 <= i < |vertices| && r.error == InvalidVertex(vertices[i])
                                  && !IsVertex(VertexValence(g, vertices, vertices[i]))
                                  && forall j :: 0 <= j < i ==> IsVertex(VertexValence(g, vertices, vertices[j]))
  {
    assert vertices[..|vertices|] == vertices;
    assert forall v :: Accepts(vertices, g.vertexAdjacent, IsVertex, v) <==> IsVertex(VertexValence(g, vertices, v));
    var r := ClassifyPrefix(vertices, g.vertexAdjacent, IsVertex, v => InvalidVertex(v), |vertices|);
    assert r.Success? <==> forall v :: v in vertices ==> IsVertex(VertexValence(g, vertices, v)) by {
      if r.Success? {
        forall v | v in vertices ensures IsVertex(VertexValence(g, vertices, v)) {
          var i :| 0 <= i < |vertices| && vertices[i] == v;
        }
      }
    }
    r
  }

  // ---------------------------------------------------------------------------
  // Combining two floors
  // ---------------------------------------------------------------------------

  /** The key `c` of `apex` has a partner in `base` and the summed value is an enum case. */
  predicate Combines(apex: map<Coordinate, int>, base: map<Coordinate, int>, isCase: int -> bool, c: Coordinate)
    requires c in apex
  {
    c in base && isCase(apex[c] + base[c])
  }

  /** The fold shared by both `combine(apex:base:)` overloads, over the first `k` keys of `order`. */
  function CombinePrefix(
    apex: map<Coordinate, int>,
    base: map<Coordinate, int>,
    order: seq<Coordinate>,
    isCase: int -> bool,
    invalid: Coordinate -> ClassificationError,
    k: nat): (r: Result<map<Coordinate, int>, ClassificationError>)
    requires k <= |order|
    requires forall i :: 0 <= i < |order| ==> order[i] in apex
    ensures r.Success? <==> forall i :: 0 <= i < k ==> Combines(apex, base, isCase, order[i])
    ensures r.Success? ==> r.value.Keys == Elems(order[..k])
    ensures r.Success? ==> forall c :: c in r.value ==> c in apex && c in base && r.value[c] == apex[c] + base[c]
    ensures r.Failure? ==> exists i :: 0 <= i < k && r.error == invalid(order[i])
                                  && !Combines(apex, base, isCase, order[i])
                                  && forall j :: 0 <= j < i ==> Combines(apex, base, isCase, order[j])
    decreases k
  {
    if k == 0 then Success(map[])
    else
      var prev := CombinePrefix(apex, base, order, isCase, invalid, k - 1);
      var c := order[k - 1];
      if prev.Failure? then prev
      else if Combines(apex, base, isCase, c) then
        PrefixElems(order, k);
        Success(prev.value[c := apex[c] + base[c]])
      else
        Failure(invalid(c))
  }

  /**
   * `combine(apex:base:)` on tile maps: the apex keys, each valued apex + base;
   * it throws for a key missing from `base` or whose sum has no `Triangle` case.
   */
  function CombineTriangles(g: Grid, apex: map<Coordinate, int>, base: map<Coordinate, int>): (r: Result<map<Coordinate, int>, ClassificationError>)
    requires Valid(g)
    ensures r.Success? <==> forall c :: c in apex ==> c in base && IsTriangle(apex[c] + base[c])
    ensures r.Success? ==> r.value.Keys == apex.Keys
    ensures r.Success? ==> forall c :: c in r.value ==> c in base && r.value[c] == apex[c] + base[c] && IsTriangle(r.value[c])
    ensures r.Failure? ==> exists c :: c in apex && r.error == InvalidTriangle(c) && !(c in base && IsTriangle(apex[c] + base[c]))
  {
    var order := g.enumerate(apex.Keys);
    assert order[..|order|] == order;
    assert Elems(order) == apex.Keys;
    assert forall i :: 0 <= i < |order| ==> order[i] in Elems(order);
    CombinePrefix(apex, base, order, IsTriangle, c => InvalidTriangle(c), |order|)
  }

  /**
   * `combine(apex:base:)` on vertex maps: the apex keys, each valued apex + base;
   * it throws for a key missing from `base` or whose sum has no `Vertex` case.
   */
  function CombineVertices(g: Grid, apex: map<Coordinate, int>, base: map<Coordinate, int>): (r: Result<map<Coordinate, int>, ClassificationError>)
    requires Valid(g)
    ensures r.Success? <==> forall v :: v in apex ==> v in base && IsVertex(apex[v] + base[v])
    ensures r.Success? ==> r.value.Keys == apex.Keys
    ensures r.Success? ==> forall v :: v in r.value ==> v in base && r.value[v] == apex[v] + base[v] && IsVertex(r.value[v])
    ensures r.Failure? ==> exists v :: v in apex && r.error == InvalidVertex(v) && !(v in base && IsVertex(apex[v] + base[v]))
  {
    var order := g.enumerate(apex.Keys);
    assert order[..|order|] == order;
    assert Elems(order) == apex.Keys;
    assert forall i :: 0 <= i < |order| ==> order[i] in Elems(order);
    CombinePrefix(apex, base, order, IsVertex, v => InvalidVertex(v), |order|)
  }

  // ---------------------------------------------------------------------------
  // Corners and edges along the perimeter
  // ---------------------------------------------------------------------------

  /** The corners of triangle `c` that are keys of the vertex map, in corner order. */
  function SharedVertices(g: Grid, c: Coordinate, vertices: map<Coordinate, int>): seq<Coordinate> {
    Filter(g.corners(c), vertices.Keys)
  }

  /** A perimeter triangle touching the footprint at one vertex is a valid corner if that vertex's valence is a `Corner` case. */
  predicate CornerOk(g: Grid, vertices: map<Coordinate, int>, c: Coordinate) {
    var shared := SharedVertices(g, c, vertices);
    |shared| == 1 ==> IsCorner(vertices[shared[0]])
  }

  function ClassifyCornersPrefix(g: Grid, perimeter: seq<Coordinate>, vertices: map<Coordinate, int>, k: nat): (r: Result<map<Coordinate, int>, ClassificationError>)
    requires k <= |perimeter|
    ensures r.Success? <==> forall i :: 0 <= i < k ==> CornerOk(g, vertices, perimeter[i])
    ensures r.Success? ==> forall c :: c in r.value <==> c in perimeter[..k] && |SharedVertices(g, c, vertices)| == 1
    ensures r.Success? ==> forall c :: c in r.value ==>
              |SharedVertices(g, c, vertices)| == 1 && r.value[c] == vertices[SharedVertices(g, c, vertices)[0]] && IsCorner(r.value[c])
    ensures r.Failure? ==> r.error == InvalidCorner
    decreases k
  {
    if k == 0 then Success(map[])
    else
      var acc :- ClassifyCornersPrefix(g, perimeter, vertices, k - 1);
      var c := perimeter[k - 1];
      var shared := SharedVertices(g, c, vertices);
      PrefixElems(perimeter, k);
      if |shared| != 1 then Success(acc)
      else if IsCorner(vertices[shared[0]]) then Success(acc[c := vertices[shared[0]]])
      else Failure(InvalidCorner)
  }

  /**
   * `classifyCorners`: the perimeter triangles that share exactly one vertex with
   * the vertex map, each valued that vertex's valence; it throws `invalidCorner`
   * when such a valence is outside 2...9. (The source's `footprint` argument is unused.)
   */
  function ClassifyCorners(g: Grid, perimeter: seq<Coordinate>, vertices: map<Coordinate, int>): (r: Result<map<Coordinate, int>, ClassificationError>)
    ensures r.Success? <==> forall c :: c in perimeter ==> CornerOk(g, vertices, c)
    ensures r.Success? ==> forall c :: c in r.value <==> c in perimeter && |SharedVertices(g, c, vertices)| == 1
    ensures r.Success? ==> forall c :: c in r.value ==>
              |SharedVertices(g, c, vertices)| == 1 && r.value[c] == vertices[SharedVertices(g, c, vertices)[0]] && IsCorner(r.value[c])
    ensures r.Failure? ==> r.error == InvalidCorner
  {
    assert perimeter[..|perimeter|] == perimeter;
    ClassifyCornersPrefix(g, perimeter, vertices, |perimeter|)
  }

  /**
   * `footprint.first { adjacent.contains($0.key) }`: the first footprint key, in
   * dictionary order, that is adjacent to triangle `c`.
   */
  function Neighbour(g: Grid, c: Coordinate, footprint: map<Coordinate, int>): (r: Option<Coordinate>)
    requires Valid(g)
    ensures r.None? <==> forall n :: n in footprint ==> n !in g.adjacent(c)
    ensures r.Some? ==> r.value in footprint && r.value in g.adjacent(c)
  {
    var order := g.enumerate(footprint.Keys);
    assert Elems(order) == footprint.Keys;
    match FirstIn(order, Elems(g.adjacent(c)))
    case None => None
    case Some(i) =>
      assert order[i] in Elems(order);
      Some(order[i])
  }

  /** valence(v0) + valence(v1) - valence(neighbour), for the two shared vertices of `c`. */
  function EdgeValue(g: Grid, c: Coordinate, footprint: map<Coordinate, int>, vertices: map<Coordinate, int>, n: Coordinate): int
    requires n in footprint && |SharedVertices(g, c, vertices)| == 2
  {
    var shared := SharedVertices(g, c, vertices);
    vertices[shared[0]] + vertices[shared[1]] - footprint[n]
  }

  /** A perimeter triangle touching the footprint at two vertices has a footprint neighbour and an `Edge` value. */
  predicate EdgeOk(g: Grid, footprint: map<Coordinate, int>, vertices: map<Coordinate, int>, c: Coordinate)
    requires Valid(g)
  {
    |SharedVertices(g, c, vertices)| == 2 ==>
      var n := Neighbour(g, c, footprint);
      n.Some? && IsEdge(EdgeValue(g, c, footprint, vertices, n.value))
  }

  /** One step of `classifyEdges`: no entry, an entry for `c`, or the error thrown for it. */
  function ClassifyEdge(g: Grid, c: Coordinate, footprint: map<Coordinate, int>, vertices: map<Coordinate, int>): (r: Result<Option<int>, ClassificationError>)
    requires Valid(g)
    ensures r.Success? <==> EdgeOk(g, footprint, vertices, c)
    ensures r.Success? ==> (r.value.Some? <==> |SharedVertices(g, c, vertices)| == 2)
    ensures r.Success? && r.value.Some? ==>
              && Neighbour(g, c, footprint).Some?
              && r.value.value == EdgeValue(g, c, footprint, vertices, Neighbour(g, c, footprint).value)
              && IsEdge(r.value.value)
    ensures r.Failure? ==> r.error == InvalidEdge
  {
    var neighbour := Neighbour(g, c, footprint);
    var shared := SharedVertices(g, c, vertices);
    if |shared| != 2 then Success(None)
    else if neighbour.None? then Failure(InvalidEdge)
    else
      var value := vertices[shared[0]] + vertices[shared[|shared| - 1]] - footprint[neighbour.value];
      if IsEdge(value) then Success(Some(value)) else Failure(InvalidEdge)
  }

  function ClassifyEdgesPrefix(g: Grid, perimeter: seq<Coordinate>, footprint: map<Coordinate, int>, vertices: map<Coordinate, int>, k: nat): (r: Result<map<Coordinate, int>, ClassificationError>)
    requires Valid(g)
    requires k <= |perimeter|
    ensures r.Success? <==> forall i :: 0 <= i < k ==> EdgeOk(g, footprint, vertices, perimeter[i])
    ensures r.Success? ==> forall c :: c in r.value <==> c in perimeter[..k] && |SharedVertices(g, c, vertices)| == 2
    ensures r.Success? ==> forall c :: c in r.value ==>
              && |SharedVertices(g, c, vertices)| == 2
              && Neighbour(g, c, footprint).Some?
              && r.value[c] == EdgeValue(g, c, footprint, vertices, Neighbour(g, c, footprint).value)
              && IsEdge(r.value[c])
    ensures r.Failure? ==> r.error == InvalidEdge
    decreases k
  {
    if k == 0 then Success(map[])
    else
      var acc :- ClassifyEdgesPrefix(g, perimeter, footprint, vertices, k - 1);
      var c := perimeter[k - 1];
      var entry :- ClassifyEdge(g, c, footprint, vertices);
      PrefixElems(perimeter, k);
      if entry.Some? then Success(acc[c := entry.value]) else Success(acc)
  }

  /**
   * `classifyEdges`: the perimeter triangles that share exactly two vertices with
   * the vertex map, each valued the sum of those vertices' valences minus the
   * valence of an adjacent footprint triangle; it throws `invalidEdge` when there
   * is no adjacent footprint triangle or the value is outside 4...14.
   */
  function ClassifyEdges(g: Grid, perimeter: seq<Coordinate>, footprint: map<Coordinate, int>, vertices: map<Coordinate, int>): (r: Result<map<Coordinate, int>, ClassificationError>)
    requires Valid(g)
    ensures r.Success? <==> forall c :: c in perimeter ==> EdgeOk(g, footprint, vertices, c)
    ensures r.Success? ==> forall c :: c in r.value <==> c in perimeter && |SharedVertices(g, c, vertices)| == 2
    ensures r.Success? ==> forall c :: c in r.value ==>
              && |SharedVertices(g, c, vertices)| == 2
              && Neighbour(g, c, footprint).Some?
              && r.value[c] == EdgeValue(g, c, footprint, vertices, Neighbour(g, c, footprint).value)
              && IsEdge(r.value[c])
    ensures r.Failure? ==> r.error == InvalidEdge
  {
    assert perimeter[..|perimeter|] == perimeter;
    ClassifyEdgesPrefix(g, perimeter, footprint, vertices, |perimeter|)
  }

  // ---------------------------------------------------------------------------
  // The two-floor pipeline
  // ---------------------------------------------------------------------------

  /** The triangles of a tile map whose valence is not `.one`: every triangle but the tips. */
  function NonTips(footprint: map<Coordinate, int>): set<Coordinate> {
    set c | c in footprint && footprint[c] != 1
  }

  /** `lowerFootprint.keys.filter { lowerFootprint[$0] != .one }`: the footprint without its tips. */
  function Erode(g: Grid, footprint: map<Coordinate, int>): seq<Coordinate> {
    Filter(g.enumerate(footprint.Keys), NonTips(footprint))
  }

  /** The corner and edge maps of one floor, classified on its perimeter; the floor's tile and vertex maps are given. */
  function ClassifyLayer(g: Grid, perimeter: seq<Coordinate>, footprint: map<Coordinate, int>, vertices: map<Coordinate, int>): Result<Layer, ClassificationError>
    requires Valid(g)
  {
    var corners :- ClassifyCorners(g, perimeter, vertices);
    var edges :- ClassifyEdges(g, perimeter, footprint, vertices);
    Success(Layer(footprint, vertices, corners, edges))
  }

  /** The first half of `execute()`: the lower floor, classified on the septomino's own footprint. */
  function ClassifyLower(g: Grid, footprint: seq<Coordinate>): Result<Layer, ClassificationError>
    requires Valid(g)
  {
    var lowerFootprint :- ClassifyFootprint(g, footprint);
    var lowerVertices :- ClassifyVertices(g, Vertices(g, footprint));
    ClassifyLayer(g, g.perimeter(footprint), lowerFootprint, lowerVertices)
  }

  /**
   * The second half of `execute()`: the lower floor's tips are eroded, the rest is
   * classified as a footprint of its own and summed onto the lower floor, and the
   * summed maps are classified on the eroded footprint's perimeter.
   */
  function ClassifyUpper(g: Grid, lower: Layer): Result<Layer, ClassificationError>
    requires Valid(g)
  {
    var blueprintApex := Erode(g, lower.footprint);
    var apexFootprint :- ClassifyFootprint(g, blueprintApex);
    var apexVertices :- ClassifyVertices(g, Vertices(g, blueprintApex));
    CombineFloors(g, g.perimeter(blueprintApex), apexFootprint, apexVertices, lower)
  }

  /** The upper floor: the eroded floor's maps summed onto the lower floor's, classified on the eroded perimeter. */
  function CombineFloors(g: Grid, perimeter: seq<Coordinate>, apexFootprint: map<Coordinate, int>,
                         apexVertices: map<Coordinate, int>, lower: Layer): Result<Layer, ClassificationError>
    requires Valid(g)
  {
    var upperFootprint :- CombineTriangles(g, apexFootprint, lower.footprint);
    var upperVertices :- CombineVertices(g, apexVertices, lower.vertices);
    ClassifyLayer(g, perimeter, upperFootprint, upperVertices)
  }

  /** `execute()`'s body: classify the lower floor, then the upper floor built on it; the first error thrown is the result. */
  function ClassifySeptomino(g: Grid, footprint: seq<Coordinate>): Result<Classification, ClassificationError>
    requires Valid(g)
  {
    var lower :- ClassifyLower(g, footprint);
    var upper :- ClassifyUpper(g, lower);
    Success(Classification(upper, lower))
  }

  /** `output` before `execute()` runs holds `ResultError.noResult`. */
  datatype OperationError = NoResult | Failed(error: ClassificationError)

  /** The operation object: it holds the septomino's footprint and, once executed, its classification or the error thrown. */
  class SeptominoClassificationOperation {
    const grid: Grid
    const septomino: seq<Coordinate>
    var output: Result<Classification, OperationError>
    var finished: bool

    constructor (grid: Grid, septomino: seq<Coordinate>)
      ensures this.grid == grid && this.septomino == septomino
      ensures output == Failure(NoResult) && !finished
    {
      this.grid := grid;
      this.septomino := septomino;
      output := Failure(NoResult);
      finished := false;
    }

    /** `execute()`: stores the classification, or the first error thrown, in `output`, then finishes. */
    method Execute()
      requires Valid(grid)
      modifies this
      ensures finished
      ensures ClassifySeptomino(grid, septomino).Success? ==> output == Success(ClassifySeptomino(grid, septomino).value)
      ensures ClassifySeptomino(grid, septomino).Failure? ==> output == Failure(Failed(ClassifySeptomino(grid, septomino).error))
    {
      var result := ClassifySeptomino(grid, septomino);
      if result.Success? {
        output := Success(result.value);
      } else {
        output := Failure(Failed(result.error));
      }
      finished := true;
    }
  }
}
