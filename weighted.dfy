/**
 * The weighted-vertex helpers on arrays of grid coordinates: a newer revision of
 * the septomino counting that tags each coordinate with an integer weight
 * (footprint, vertex and perimeter weights, rotation indices) instead of
 * building enum-valued dictionaries. Every helper is a `map`, `filter` or
 * `reduce` over an array, so each is a function over sequences here.
 */
module WeightedVertices {
  import opened Wrappers
  import opened Sequences
  import opened GridLibrary
  import opened SeptominoClassification

  /** A coordinate tagged with a weight. */
  datatype WeightedVertex = WeightedVertex(coordinate: Coordinate, weight: int)

  /** The coordinates of a weighted array, in order. */
  function Coordinates(vs: seq<WeightedVertex>): (r: seq<Coordinate>)
    ensures |r| == |vs|
    ensures forall i :: 0 <= i < |vs| ==> r[i] == vs[i].coordinate
  {
    if vs == [] then [] else [vs[0].coordinate] + Coordinates(vs[1..])
  }

  // ---------------------------------------------------------------------------
  // merge
  // ---------------------------------------------------------------------------

  /** `other.first { $0.coordinate == c }`. */
  function FirstWith(other: seq<WeightedVertex>, c: Coordinate): (r: Option<WeightedVertex>)
    ensures r.None? <==> forall i :: 0 <= i < |other| ==> other[i].coordinate != c
    ensures r.Some? ==> exists i :: 0 <= i < |other| && other[i] == r.value && r.value.coordinate == c
                                && forall j :: 0 <= j < i ==> other[j].coordinate != c
  {
    if other == [] then None
    else if other[0].coordinate == c then Some(other[0])
    else
      var r := FirstWith(other[1..], c);
      if r.Some? then
        var i :| 0 <= i < |other[1..]| && other[1..][i] == r.value && r.value.coordinate == c
                 && forall j :: 0 <= j < i ==> other[1..][j].coordinate != c;
        assert other[i + 1] == r.value;
        assert forall j :: 0 <= j < i + 1 ==> other[j].coordinate != c by {
          forall j | 0 <= j < i + 1 ensures other[j].coordinate != c {
            if j > 0 {
              assert other[j] == other[1..][j - 1];
            }
          }
        }
        r
      else
        assert forall i :: 0 <= i < |other| ==> other[i].coordinate != c by {
          forall i | 0 <= i < |other| ensures other[i].coordinate != c {
            if i > 0 {
              assert other[i] == other[1..][i - 1];
            }
          }
        }
        r
  }

  /** `rhs?.weight ?? 0`: what `merge` adds to the weight of `c`. */
  function AddedWeight(other: seq<WeightedVertex>, c: Coordinate): int {
    match FirstWith(other, c)
    case None => 0
    case Some(w) => w.weight
  }

  /**
   * `merge(_:)`: every vertex keeps its coordinate and place and gains the
   * weight of the first vertex of `other` at the same coordinate.
   */
  function Merge(vs: seq<WeightedVertex>, other: seq<WeightedVertex>): (r: seq<WeightedVertex>)
    ensures |r| == |vs|
    ensures Coordinates(r) == Coordinates(vs)
  {
    var r := seq(|vs|, i requires 0 <= i < |vs| => WeightedVertex(vs[i].coordinate, vs[i].weight + AddedWeight(other, vs[i].coordinate)));
    assert Coordinates(r) == Coordinates(vs);
    r
  }

  /**
   * Each merged weight is the vertex's own weight plus the weight of the first
   * vertex of `other` at its coordinate, or its own weight when `other` has none.
   */
  lemma MergeWeights(vs: seq<WeightedVertex>, other: seq<WeightedVertex>, i: nat)
    requires i < |vs|
    ensures (forall j :: 0 <= j < |other| ==> other[j].coordinate != vs[i].coordinate) ==>
              Merge(vs, other)[i].weight == vs[i].weight
    ensures forall j :: 0 <= j < |other| && other[j].coordinate == vs[i].coordinate
                        && (forall k :: 0 <= k < j ==> other[k].coordinate != vs[i].coordinate) ==>
              Merge(vs, other)[i].weight == vs[i].weight + other[j].weight
  {
    var c := vs[i].coordinate;
    forall j | 0 <= j < |other| && other[j].coordinate == c && (forall k :: 0 <= k < j ==> other[k].coordinate != c)
      ensures Merge(vs, other)[i].weight == vs[i].weight + other[j].weight
    {
      var w := FirstWith(other, c);
      var j' :| 0 <= j' < |other| && other[j'] == w.value && w.value.coordinate == c
                && forall k :: 0 <= k < j' ==> other[k].coordinate != c;
      assert !(j' < j) && !(j < j');
    }
  }

  /** Merging nothing leaves the weights as they are. */
  lemma MergeEmpty(vs: seq<WeightedVertex>)
    ensures Merge(vs, []) == vs
  {
    assert forall i :: 0 <= i < |vs| ==> Merge(vs, [])[i] == vs[i];
  }

  /** Merging two arrays one after the other gives the same weights in either order. */
  lemma MergeCommutes(vs: seq<WeightedVertex>, a: seq<WeightedVertex>, b: seq<WeightedVertex>)
    ensures Merge(Merge(vs, a), b) == Merge(Merge(vs, b), a)
  {
    var ab := Merge(Merge(vs, a), b);
    var ba := Merge(Merge(vs, b), a);
    forall i | 0 <= i < |vs| ensures ab[i] == ba[i] {
      assert Coordinates(Merge(vs, a))[i] == Coordinates(vs)[i];
      assert Coordinates(Merge(vs, b))[i] == Coordinates(vs)[i];
    }
  }

  // ---------------------------------------------------------------------------
  // Counting neighbours
  // ---------------------------------------------------------------------------

  /** `items.reduce(into: 0) { $0 += within.contains($1) ? 1 : 0 }`. */
  function ContainedCount(items: seq<Coordinate>, within: seq<Coordinate>): (n: nat)
    ensures n == |Filter(items, Elems(within))|
  {
    if items == [] then 0
    else (if items[0] in within then 1 else 0) + ContainedCount(items[1..], within)
  }

  /** Counted over repeat-free arrays, the count is the number of distinct items found in `within`. */
  lemma ContainedCountExact(items: seq<Coordinate>, within: seq<Coordinate>)
    requires NoDup(items) && NoDup(within)
    ensures ContainedCount(items, within) == |Elems(items) * Elems(within)|
    ensures ContainedCount(items, within) == |Filter(within, Elems(items))|
    ensures ContainedCount(items, within) <= |items|
  {
    FilterCount(items, Elems(within));
    FilterSymmetric(items, within);
  }

  /** `weightedFootprint`: each triangle weighted by the number of its adjacent triangles in the array. */
  function WeightedFootprint(g: Grid, footprint: seq<Coordinate>): (r: seq<WeightedVertex>)
    ensures Coordinates(r) == footprint
    ensures forall i :: 0 <= i < |r| ==> r[i].weight <= |g.adjacent(footprint[i])|
  {
    var r := seq(|footprint|, i requires 0 <= i < |footprint| =>
                   WeightedVertex(footprint[i], ContainedCount(g.adjacent(footprint[i]), footprint)));
    assert Coordinates(r) == footprint;
    r
  }

  /**
   * On a valid grid each footprint weight counts the distinct adjacent triangles
   * in the footprint, at most 3; without repeats in the footprint it is the tile
   * valence the classification computes.
   */
  lemma WeightedFootprintValence(g: Grid, footprint: seq<Coordinate>)
    requires Valid(g)
    ensures forall i :: 0 <= i < |footprint| ==>
              WeightedFootprint(g, footprint)[i].weight == |Elems(g.adjacent(footprint[i])) * Elems(footprint)|
    ensures forall i :: 0 <= i < |footprint| ==> WeightedFootprint(g, footprint)[i].weight <= 3
    ensures NoDup(footprint) ==>
              forall i :: 0 <= i < |footprint| ==> WeightedFootprint(g, footprint)[i].weight == TileValence(g, footprint, footprint[i])
  {
    var r := WeightedFootprint(g, footprint);
    forall i | 0 <= i < |footprint|
      ensures r[i].weight == |Elems(g.adjacent(footprint[i])) * Elems(footprint)|
      ensures NoDup(footprint) ==> r[i].weight == TileValence(g, footprint, footprint[i])
    {
      assert Coordinates(r)[i] == footprint[i];
      FilterCount(g.adjacent(footprint[i]), Elems(footprint));
      if NoDup(footprint) {
        FilterSymmetric(g.adjacent(footprint[i]), footprint);
      }
    }
  }

  /** `weightedVertices`: each vertex weighted by the number of its adjacent vertices in the array. */
  function WeightedVerticesOf(g: Grid, vertices: seq<Coordinate>): (r: seq<WeightedVertex>)
    ensures Coordinates(r) == vertices
    ensures forall i :: 0 <= i < |r| ==> r[i].weight <= |g.vertexAdjacent(vertices[i])|
  {
    var r := seq(|vertices|, i requires 0 <= i < |vertices| =>
                   WeightedVertex(vertices[i], ContainedCount(g.vertexAdjacent(vertices[i]), vertices)));
    assert Coordinates(r) == vertices;
    r
  }

  /**
   * On a valid grid each vertex weight counts the distinct adjacent vertices in
   * the array; without repeats in the array it is the vertex valence the
   * classification computes.
   */
  lemma WeightedVerticesValence(g: Grid, vertices: seq<Coordinate>)
    requires Valid(g)
    ensures forall i :: 0 <= i < |vertices| ==>
              WeightedVerticesOf(g, vertices)[i].weight == |Elems(g.vertexAdjacent(vertices[i])) * Elems(vertices)|
    ensures NoDup(vertices) ==>
              forall i :: 0 <= i < |vertices| ==> WeightedVerticesOf(g, vertices)[i].weight == VertexValence(g, vertices, vertices[i])
  {
    var r := WeightedVerticesOf(g, vertices);
    forall i | 0 <= i < |vertices|
      ensures r[i].weight == |Elems(g.vertexAdjacent(vertices[i])) * Elems(vertices)|
      ensures NoDup(vertices) ==> r[i].weight == VertexValence(g, vertices, vertices[i])
    {
      assert Coordinates(r)[i] == vertices[i];
      FilterCount(g.vertexAdjacent(vertices[i]), Elems(vertices));
      if NoDup(vertices) {
        FilterSymmetric(g.vertexAdjacent(vertices[i]), vertices);
      }
    }
  }

  // ---------------------------------------------------------------------------
  // Along the perimeter
  // ---------------------------------------------------------------------------

  /** `vertices.filter { corners.contains($0) }`: the footprint's vertices that are corners of `c`. */
  function ConnectedVertices(g: Grid, footprint: seq<Coordinate>, c: Coordinate): seq<Coordinate> {
    Filter(Vertices(g, footprint), Elems(g.corners(c)))
  }

  /** On a valid grid the connected vertices are, without repeats, the corners of `c` that are corners of footprint triangles. */
  lemma ConnectedVerticesExact(g: Grid, footprint: seq<Coordinate>, c: Coordinate)
    requires Valid(g)
    ensures NoDup(ConnectedVertices(g, footprint, c))
    ensures Elems(ConnectedVertices(g, footprint, c)) == Elems(g.corners(c)) * CornerSet(g, footprint)
    ensures |ConnectedVertices(g, footprint, c)| == |Elems(g.corners(c)) * CornerSet(g, footprint)| <= 3
  {
    var vertices := Vertices(g, footprint);
    var corners := Elems(g.corners(c));
    var connected := Filter(vertices, corners);
    assert NoDup(vertices) && Elems(vertices) == CornerSet(g, footprint);
    FilterNoDup(vertices, corners);
    FilterMembers(vertices, corners);
    assert Elems(connected) == corners * CornerSet(g, footprint);
    FilterCount(vertices, corners);
    assert Elems(vertices) * corners == corners * CornerSet(g, footprint);
    FilterBound(vertices, g.corners(c));
  }

  /** `weightedEdges`: each perimeter triangle weighted by the number of its corners among the footprint's vertices. */
  function WeightedEdges(g: Grid, footprint: seq<Coordinate>): (r: seq<WeightedVertex>)
    ensures Coordinates(r) == g.perimeter(footprint)
  {
    var perimeter := g.perimeter(footprint);
    var r := seq(|perimeter|, i requires 0 <= i < |perimeter| =>
                   WeightedVertex(perimeter[i], |ConnectedVertices(g, footprint, perimeter[i])|));
    assert Coordinates(r) == perimeter;
    r
  }

  /**
   * On a valid grid each edge weight is the number of corners the perimeter
   * triangle shares with the footprint, at most 3, and it agrees with the
   * shared-vertex count `classifyCorners` and `classifyEdges` branch on.
   */
  lemma WeightedEdgesCountShared(g: Grid, footprint: seq<Coordinate>, vertices: map<Coordinate, int>)
    requires Valid(g)
    requires vertices.Keys == CornerSet(g, footprint)
    ensures forall i :: 0 <= i < |g.perimeter(footprint)| ==>
              && WeightedEdges(g, footprint)[i].weight == |Elems(g.corners(g.perimeter(footprint)[i])) * CornerSet(g, footprint)|
              && WeightedEdges(g, footprint)[i].weight <= 3
              && WeightedEdges(g, footprint)[i].weight == |SharedVertices(g, g.perimeter(footprint)[i], vertices)|
  {
    var perimeter := g.perimeter(footprint);
    var r := WeightedEdges(g, footprint);
    forall i | 0 <= i < |perimeter|
      ensures r[i].weight == |Elems(g.corners(perimeter[i])) * CornerSet(g, footprint)|
      ensures r[i].weight <= 3
      ensures r[i].weight == |SharedVertices(g, perimeter[i], vertices)|
    {
      var c := perimeter[i];
      ConnectedVerticesExact(g, footprint, c);
      FilterCount(g.corners(c), vertices.Keys);
      assert Elems(g.corners(c)) * vertices.Keys == Elems(g.corners(c)) * CornerSet(g, footprint);
    }
  }

  /** The rotation of perimeter triangle `c`: see `WeightedRotations`. */
  function Rotation(g: Grid, footprint: seq<Coordinate>, c: Coordinate): nat {
    var connected := ConnectedVertices(g, footprint, c);
    var index := if |connected| == 1 then FirstIn(g.corners(c), {connected[0]}) else None;
    if index.Some? then index.value
    else match FirstIn(g.adjacent(c), Elems(footprint))
      case Some(i) => i
      case None => 0
  }

  /**
   * `weightedRotations`: a perimeter triangle touching the footprint at one
   * vertex is weighted by that vertex's index among its corners; any other by
   * the index of its first adjacent footprint triangle, or 0.
   */
  function WeightedRotations(g: Grid, footprint: seq<Coordinate>): (r: seq<WeightedVertex>)
    ensures Coordinates(r) == g.perimeter(footprint)
  {
    var perimeter := g.perimeter(footprint);
    var r := seq(|perimeter|, i requires 0 <= i < |perimeter| => WeightedVertex(perimeter[i], Rotation(g, footprint, perimeter[i])));
    assert Coordinates(r) == perimeter;
    r
  }

  /**
   * On a valid grid every rotation is an index 0, 1 or 2. With exactly one
   * connected vertex it indexes that vertex among the corners; otherwise it
   * indexes the first adjacent footprint triangle when there is one, and is 0
   * when there is none.
   */
  lemma RotationsExact(g: Grid, footprint: seq<Coordinate>, i: nat)
    requires Valid(g)
    requires i < |g.perimeter(footprint)|
    ensures var c := g.perimeter(footprint)[i];
            var w := WeightedRotations(g, footprint)[i].weight;
            var connected := ConnectedVertices(g, footprint, c);
            && 0 <= w < 3
            && (|connected| == 1 ==> g.corners(c)[w] == connected[0] && connected[0] in CornerSet(g, footprint))
            && (|connected| != 1 && w != 0 ==> g.adjacent(c)[w] in footprint)
            && (|connected| != 1 && (exists j :: 0 <= j < 3 && g.adjacent(c)[j] in footprint) ==> g.adjacent(c)[w] in footprint)
            && (|connected| != 1 && (forall j :: 0 <= j < 3 ==> g.adjacent(c)[j] !in footprint) ==> w == 0)
            && (|connected| != 1 ==> forall j :: 0 <= j < w ==> g.adjacent(c)[j] !in footprint)
  {
    var c := g.perimeter(footprint)[i];
    var r := WeightedRotations(g, footprint);
    assert Coordinates(r)[i] == c;
    var connected := ConnectedVertices(g, footprint, c);
    if |connected| == 1 {
      FilterMembers(Vertices(g, footprint), Elems(g.corners(c)));
      assert connected[0] in connected;
      assert connected[0] in Elems(g.corners(c));
      assert g.corners(c)[FirstIn(g.corners(c), {connected[0]}).value] in {connected[0]};
      assert Elems(Vertices(g, footprint)) == CornerSet(g, footprint);
    }
  }

  /** `reduce(into: 0) { $0 += $1.weight }`: the total weight of an array. */
  function SumWeights(vs: seq<WeightedVertex>): int {
    if vs == [] then 0 else vs[0].weight + SumWeights(vs[1..])
  }

  /** `filter { keep.contains($0.coordinate) }` on a weighted array. */
  function ConnectedTo(vs: seq<WeightedVertex>, keep: set<Coordinate>): (r: seq<WeightedVertex>)
    ensures Coordinates(r) == Filter(Coordinates(vs), keep)
    ensures forall w :: w in r ==> w in vs
  {
    if vs == [] then []
    else
      assert Coordinates(vs)[1..] == Coordinates(vs[1..]);
      if vs[0].coordinate in keep then
        var r := [vs[0]] + ConnectedTo(vs[1..], keep);
        assert Coordinates(r) == [vs[0].coordinate] + Coordinates(ConnectedTo(vs[1..], keep));
        r
      else ConnectedTo(vs[1..], keep)
  }

  /** The weight of perimeter triangle `c`: see `WeightedPerimeter`. */
  function PerimeterWeight(vertices: seq<WeightedVertex>, footprint: seq<WeightedVertex>, corners: seq<Coordinate>, adjacent: seq<Coordinate>): int {
    var connectedVertices := ConnectedTo(vertices, Elems(corners));
    var connectedTriangles := ConnectedTo(footprint, Elems(adjacent));
    SumWeights(connectedVertices) - (if connectedTriangles == [] then 0 else connectedTriangles[0].weight)
  }

  /**
   * `weightedPerimeter`: each perimeter triangle weighted by the total weight of
   * its connected vertices, less the weight of its first adjacent footprint
   * triangle when there is one.
   */
  function WeightedPerimeter(g: Grid, footprint: seq<Coordinate>): (r: seq<WeightedVertex>)
    ensures Coordinates(r) == g.perimeter(footprint)
  {
    var vertices := WeightedVerticesOf(g, Vertices(g, footprint));
    var weightedFootprint := WeightedFootprint(g, footprint);
    var perimeter := g.perimeter(footprint);
    var r := seq(|perimeter|, i requires 0 <= i < |perimeter| =>
                   WeightedVertex(perimeter[i], PerimeterWeight(vertices, weightedFootprint, g.corners(perimeter[i]), g.adjacent(perimeter[i]))));
    assert Coordinates(r) == perimeter;
    r
  }

  /** The vertex valences of `vs` among `vertices`, summed. */
  function SumValence(g: Grid, vs: seq<Coordinate>, vertices: seq<Coordinate>): int {
    if vs == [] then 0 else VertexValence(g, vertices, vs[0]) + SumValence(g, vs[1..], vertices)
  }

  /** Summing the weights of the connected entries of a vertex-valence array sums the valences of the connected coordinates. */
  lemma {:induction false} SumConnected(g: Grid, ws: seq<WeightedVertex>, keep: set<Coordinate>, vertices: seq<Coordinate>)
    requires forall k :: 0 <= k < |ws| ==> ws[k].weight == VertexValence(g, vertices, ws[k].coordinate)
    ensures SumWeights(ConnectedTo(ws, keep)) == SumValence(g, Filter(Coordinates(ws), keep), vertices)
  {
    if ws != [] {
      SumConnected(g, ws[1..], keep, vertices);
      assert Coordinates(ws)[1..] == Coordinates(ws[1..]);
      if ws[0].coordinate in keep {
        assert ConnectedTo(ws, keep) == [ws[0]] + ConnectedTo(ws[1..], keep);
        assert ([ws[0]] + ConnectedTo(ws[1..], keep))[1..] == ConnectedTo(ws[1..], keep);
      }
    }
  }

  /** Two repeat-free pairs with the same elements have the same valence sum. */
  lemma SumValencePair(g: Grid, s: seq<Coordinate>, t: seq<Coordinate>, vertices: seq<Coordinate>)
    requires |s| == 2 && |t| == 2 && NoDup(s) && NoDup(t) && Elems(s) == Elems(t)
    ensures SumValence(g, s, vertices) == VertexValence(g, vertices, t[0]) + VertexValence(g, vertices, t[1])
  {
    assert s[1..][0] == s[1] && s[1..][1..] == [];
    assert SumValence(g, s[1..], vertices) == VertexValence(g, vertices, s[1]) + SumValence(g, [], vertices);
    assert s[0] in Elems(t) && s[1] in Elems(t);
    if s[0] != t[0] {
      assert s[0] == t[1] && s[1] == t[0];
    }
  }

  /** The connected vertices of `c` contribute the sum of their vertex valences among the footprint's vertices. */
  lemma ConnectedVertexWeights(g: Grid, footprint: seq<Coordinate>, c: Coordinate)
    requires Valid(g)
    ensures SumWeights(ConnectedTo(WeightedVerticesOf(g, Vertices(g, footprint)), Elems(g.corners(c))))
            == SumValence(g, ConnectedVertices(g, footprint, c), Vertices(g, footprint))
  {
    var vertices := Vertices(g, footprint);
    var weightedVertices := WeightedVerticesOf(g, vertices);
    assert NoDup(vertices);
    WeightedVerticesValence(g, vertices);
    forall k | 0 <= k < |weightedVertices|
      ensures weightedVertices[k].weight == VertexValence(g, vertices, weightedVertices[k].coordinate)
    {
      assert Coordinates(weightedVertices)[k] == vertices[k];
    }
    SumConnected(g, weightedVertices, Elems(g.corners(c)), vertices);
  }

  /**
   * The first footprint triangle adjacent to `c` in a repeat-free footprint
   * contributes its tile valence, and there is none exactly when no footprint
   * triangle is adjacent.
   */
  lemma ConnectedTriangleWeight(g: Grid, footprint: seq<Coordinate>, c: Coordinate)
    requires Valid(g) && NoDup(footprint)
    ensures var triangles := ConnectedTo(WeightedFootprint(g, footprint), Elems(g.adjacent(c)));
            && (triangles == [] <==> FirstIn(footprint, Elems(g.adjacent(c))).None?)
            && (triangles != [] ==> triangles[0].weight == TileValence(g, footprint, footprint[FirstIn(footprint, Elems(g.adjacent(c))).value]))
  {
    var weightedFootprint := WeightedFootprint(g, footprint);
    var triangles := ConnectedTo(weightedFootprint, Elems(g.adjacent(c)));
    FilterHead(footprint, Elems(g.adjacent(c)));
    assert |triangles| == |Coordinates(triangles)|;
    if triangles != [] {
      var j := FirstIn(footprint, Elems(g.adjacent(c))).value;
      assert triangles[0] in weightedFootprint;
      var k :| 0 <= k < |weightedFootprint| && weightedFootprint[k] == triangles[0];
      assert Coordinates(weightedFootprint)[k] == footprint[k];
      assert Coordinates(triangles)[0] == footprint[j];
      WeightedFootprintValence(g, footprint);
    }
  }

  /**
   * Without repeats in the footprint, the perimeter weight of a triangle is the
   * sum of the vertex valences of its connected vertices, less the tile valence
   * of the first footprint triangle adjacent to it when there is one.
   */
  lemma PerimeterWeightExact(g: Grid, footprint: seq<Coordinate>, i: nat)
    requires Valid(g) && NoDup(footprint)
    requires i < |g.perimeter(footprint)|
    ensures var c := g.perimeter(footprint)[i];
            WeightedPerimeter(g, footprint)[i].weight ==
              SumValence(g, ConnectedVertices(g, footprint, c), Vertices(g, footprint))
              - match FirstIn(footprint, Elems(g.adjacent(c)))
                case None => 0
                case Some(j) => TileValence(g, footprint, footprint[j])
  {
    var c := g.perimeter(footprint)[i];
    var weightedVertices := WeightedVerticesOf(g, Vertices(g, footprint));
    var weightedFootprint := WeightedFootprint(g, footprint);
    assert WeightedPerimeter(g, footprint)[i].weight == PerimeterWeight(weightedVertices, weightedFootprint, g.corners(c), g.adjacent(c));
    ConnectedVertexWeights(g, footprint, c);
    ConnectedTriangleWeight(g, footprint, c);
  }

  /** With the footprint's vertices as keys, the shared vertices of `c` are its connected vertices, in corner order. */
  lemma SharedAreConnected(g: Grid, footprint: seq<Coordinate>, vertices: map<Coordinate, int>, c: Coordinate)
    requires Valid(g)
    requires vertices.Keys == CornerSet(g, footprint)
    ensures NoDup(SharedVertices(g, c, vertices)) && NoDup(ConnectedVertices(g, footprint, c))
    ensures Elems(SharedVertices(g, c, vertices)) == Elems(ConnectedVertices(g, footprint, c))
    ensures |SharedVertices(g, c, vertices)| == |ConnectedVertices(g, footprint, c)|
  {
    ConnectedVerticesExact(g, footprint, c);
    FilterNoDup(g.corners(c), vertices.Keys);
    FilterMembers(g.corners(c), vertices.Keys);
    FilterCount(g.corners(c), vertices.Keys);
  }

  /**
   * A perimeter triangle sharing two vertices with a repeat-free footprint and
   * beside exactly one footprint triangle `n` is weighted by the valences of
   * those two vertices less the tile valence of `n`.
   */
  lemma PerimeterWeightTwoShared(g: Grid, footprint: seq<Coordinate>, vertices: map<Coordinate, int>, i: nat, n: Coordinate)
    requires Valid(g) && NoDup(footprint)
    requires vertices.Keys == CornerSet(g, footprint)
    requires i < |g.perimeter(footprint)|
    requires |SharedVertices(g, g.perimeter(footprint)[i], vertices)| == 2
    requires n in footprint && n in g.adjacent(g.perimeter(footprint)[i])
    requires forall m :: m in footprint && m in g.adjacent(g.perimeter(footprint)[i]) ==> m == n
    ensures var shared := SharedVertices(g, g.perimeter(footprint)[i], vertices);
            WeightedPerimeter(g, footprint)[i].weight ==
              VertexValence(g, Vertices(g, footprint), shared[0]) + VertexValence(g, Vertices(g, footprint), shared[1])
              - TileValence(g, footprint, n)
  {
    var c := g.perimeter(footprint)[i];
    var shared := SharedVertices(g, c, vertices);
    var connected := ConnectedVertices(g, footprint, c);
    PerimeterWeightExact(g, footprint, i);
    SharedAreConnected(g, footprint, vertices, c);
    SumValencePair(g, connected, shared, Vertices(g, footprint));
    var j := FirstIn(footprint, Elems(g.adjacent(c))).value;
    assert footprint[j] == n;
  }

  /**
   * Where the classification records an edge, the perimeter weight of the newer
   * revision is that edge's value. The tile and vertex maps are those
   * `classify(footprint:)` and `classify(vertices:)` build: keyed by the
   * footprint's triangles and vertices and valued by their valences. A perimeter
   * triangle sharing two vertices with a repeat-free footprint, with exactly one
   * footprint triangle `n` beside it, is weighted
   * valence(v0) + valence(v1) - valence(n).
   */
  lemma PerimeterWeightIsEdgeValue(g: Grid, footprint: seq<Coordinate>, tiles: map<Coordinate, int>,
                                   vertices: map<Coordinate, int>, i: nat, n: Coordinate)
    requires Valid(g) && NoDup(footprint)
    requires tiles.Keys == Elems(footprint)
    requires forall t :: t in tiles ==> tiles[t] == TileValence(g, footprint, t)
    requires vertices.Keys == CornerSet(g, footprint)
    requires forall v :: v in vertices ==> vertices[v] == VertexValence(g, Vertices(g, footprint), v)
    requires i < |g.perimeter(footprint)|
    requires |SharedVertices(g, g.perimeter(footprint)[i], vertices)| == 2
    requires n in footprint && n in g.adjacent(g.perimeter(footprint)[i])
    requires forall m :: m in footprint && m in g.adjacent(g.perimeter(footprint)[i]) ==> m == n
    ensures n in tiles
    ensures WeightedPerimeter(g, footprint)[i].weight == EdgeValue(g, g.perimeter(footprint)[i], tiles, vertices, n)
  {
    var shared := SharedVertices(g, g.perimeter(footprint)[i], vertices);
    PerimeterWeightTwoShared(g, footprint, vertices, i, n);
    assert shared[0] in vertices && shared[1] in vertices;
  }
}
