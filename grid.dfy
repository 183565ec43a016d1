/**
 * The triangular grid, as the classification code consumes it from its grid
 * library. The library's operations are not modelled; they are the fields of a
 * `Grid` value, and `Valid` states what the classification relies on them for.
 */
module GridLibrary {
  import opened Sequences

  /** A grid position. Triangles and the vertices between them are both addressed by coordinates. */
  datatype Coordinate = Coordinate(x: int, y: int, z: int)

  datatype Grid = Grid(
    /** `Grid.Triangle(c).adjacent`: the triangles sharing an edge with triangle `c`. */
    adjacent: Coordinate -> seq<Coordinate>,
    /** `Grid.Triangle(c).corners` (also `.vertices`): the three corner vertices of triangle `c`, in the library's fixed order. */
    corners: Coordinate -> seq<Coordinate>,
    /** `vertex.adjacent` / `Grid.Triangle.vertices(v)`: the vertices joined to vertex `v` by a grid line. */
    vertexAdjacent: Coordinate -> seq<Coordinate>,
    /** `footprint.perimeter`: the triangles bordering a footprint. */
    perimeter: seq<Coordinate> -> seq<Coordinate>,
    /** The order in which a Swift `Set` or `Dictionary` with the given keys is traversed; the language leaves it unspecified. */
    enumerate: set<Coordinate> -> seq<Coordinate>
  )

  /** The guarantees of the grid library and of Swift collection traversal that the model relies on. */
  ghost predicate Valid(g: Grid) {
    && (forall c :: |g.adjacent(c)| == 3 && NoDup(g.adjacent(c)) && c !in g.adjacent(c))
    && (forall c :: |g.corners(c)| == 3 && NoDup(g.corners(c)))
    && (forall v :: NoDup(g.vertexAdjacent(v)) && v !in g.vertexAdjacent(v))
    && (forall s :: NoDup(g.enumerate(s)) && Elems(g.enumerate(s)) == s)
  }

  /** Every corner of every triangle of the footprint: the `Set` built by `flatMap { corners }`. */
  function CornerSet(g: Grid, footprint: seq<Coordinate>): (r: set<Coordinate>)
    ensures forall i, v :: 0 <= i < |footprint| && v in g.corners(footprint[i]) ==> v in r
  {
    if footprint == [] then {}
    else Elems(g.corners(footprint[0])) + CornerSet(g, footprint[1..])
  }

  /** Every vertex in the corner set is a corner of some footprint triangle. */
  lemma {:induction false} CornerSetSound(g: Grid, footprint: seq<Coordinate>, v: Coordinate)
    requires v in CornerSet(g, footprint)
    ensures exists i :: 0 <= i < |footprint| && v in g.corners(footprint[i])
  {
    if v !in Elems(g.corners(footprint[0])) {
      CornerSetSound(g, footprint[1..], v);
      var i :| 0 <= i < |footprint[1..]| && v in g.corners(footprint[1..][i]);
      assert footprint[1..][i] == footprint[i + 1];
    }
  }

  /** A sub-footprint touches no vertex outside the footprint's corner set. */
  lemma CornerSetMonotone(g: Grid, small: seq<Coordinate>, large: seq<Coordinate>)
    requires Elems(small) <= Elems(large)
    ensures CornerSet(g, small) <= CornerSet(g, large)
  {
    forall v | v in CornerSet(g, small)
      ensures v in CornerSet(g, large)
    {
      CornerSetSound(g, small, v);
      var i :| 0 <= i < |small| && v in g.corners(small[i]);
      assert small[i] in Elems(large);
      var j :| 0 <= j < |large| && large[j] == small[i];
    }
  }

  /**
   * `footprint.vertices`: the distinct corners of the footprint's triangles,
   * `Array(Set(flatMap { corners }))`, in the unspecified order of that set.
   */
  function Vertices(g: Grid, footprint: seq<Coordinate>): seq<Coordinate> {
    g.enumerate(CornerSet(g, footprint))
  }

  /** `vertices` has no repeats, and holds exactly the corners of the footprint's triangles. */
  lemma VerticesExact(g: Grid, footprint: seq<Coordinate>)
    requires Valid(g)
    ensures NoDup(Vertices(g, footprint))
    ensures forall v :: v in Vertices(g, footprint) <==> exists i :: 0 <= i < |footprint| && v in g.corners(footprint[i])
  {
    var s := CornerSet(g, footprint);
    assert Elems(g.enumerate(s)) == s;
    forall v
      ensures v in Vertices(g, footprint) <==> exists i :: 0 <= i < |footprint| && v in g.corners(footprint[i])
    {
      assert v in Vertices(g, footprint) <==> v in Elems(g.enumerate(s));
      if v in s {
        CornerSetSound(g, footprint, v);
      }
    }
  }
}
