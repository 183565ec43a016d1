/**
 * A concrete valid grid and a two-triangle footprint on it that the
 * septomino classification accepts.
 */
module Witness {
  import opened Wrappers
  import opened Sequences
  import opened GridLibrary
  import opened SeptominoClassification
  import opened ClassificationProperties

  /** A listing of a finite set, in some order. */
  ghost function Listing(s: set<Coordinate>): (r: seq<Coordinate>)
    ensures NoDup(r) && Elems(r) == s
    decreases |s|
  {
    if s == {} then []
    else
      var x :| x in s;
      var rest := Listing(s - {x});
      ConsListing(x, rest);
      [x] + rest
  }

  /** Putting a new entry in front of a duplicate-free listing keeps it duplicate-free and adds the entry. */
  lemma ConsListing(x: Coordinate, rest: seq<Coordinate>)
    requires NoDup(rest) && x !in Elems(rest)
    ensures Elems([x] + rest) == {x} + Elems(rest)
    ensures NoDup([x] + rest)
  {
    var r := [x] + rest;
    forall y ensures y in r <==> y == x || y in rest { }
    forall i, j | 0 <= i < j < |r| ensures r[i] != r[j] {
      assert r[j] == rest[j - 1] && r[j] in Elems(rest);
      if i > 0 { assert r[i] == rest[i - 1]; }
    }
  }

  function Row(x: int, y: int): Coordinate { Coordinate(x, y, 0) }

  /** A small grid on which triangle `Row(0, 0)` borders `Row(1, 0)` and each triangle has three corners of its own. */
  ghost function Strip(): (g: Grid)
    ensures Valid(g)
  {
    var g := Grid(
      (c: Coordinate) => [Row(c.x + 1, c.y), Row(c.x - 1, c.y), Coordinate(c.x, c.y + 1, c.z)],
      (c: Coordinate) => [Coordinate(c.x, 10, 1), Coordinate(c.x, 11, 1), Coordinate(c.x, 12, 1)],
      (v: Coordinate) => [Coordinate(v.x, v.y + 1, v.z), Coordinate(v.x, v.y - 1, v.z), Coordinate(v.x, v.y + 2, v.z), Coordinate(v.x, v.y - 2, v.z)],
      (fp: seq<Coordinate>) => [],
      Listing);
    g
  }

  /** The two triangles of the witness footprint border each other. */
  lemma StripTiles(fp: seq<Coordinate>)
    requires fp == [Row(0, 0), Row(1, 0)]
    ensures ClassifyFootprint(Strip(), fp).Success?
    ensures forall c :: c in ClassifyFootprint(Strip(), fp).value ==> ClassifyFootprint(Strip(), fp).value[c] == 1
  {
    var g := Strip();
    var k0 := Elems(g.adjacent(fp[0]));
    assert g.adjacent(fp[0]) == [Row(1, 0), Row(-1, 0), Coordinate(0, 1, 0)];
    assert fp[1] in k0 && fp[0] !in k0;
    assert Filter(fp, k0) == [fp[1]];
    var k1 := Elems(g.adjacent(fp[1]));
    assert g.adjacent(fp[1]) == [Row(2, 0), Row(0, 0), Coordinate(1, 1, 0)];
    assert fp[0] in k1 && fp[1] !in k1;
    assert Filter(fp, k1) == [fp[0]];
    assert TileValence(g, fp, fp[0]) == 1;
    assert TileValence(g, fp, fp[1]) == 1;
  }

  function Corner(x: int, y: int): Coordinate { Coordinate(x, y, 1) }

  /** Each corner of the witness footprint is joined to the two other corners of its triangle. */
  lemma StripVertexValence(corners: set<Coordinate>, v: Coordinate)
    requires corners == {Corner(0, 10), Corner(0, 11), Corner(0, 12), Corner(1, 10), Corner(1, 11), Corner(1, 12)}
    requires v in corners
    ensures |corners * Elems(Strip().vertexAdjacent(v))| == 2
  {
    var near := Elems(Strip().vertexAdjacent(v));
    assert near == {Coordinate(v.x, v.y + 1, 1), Coordinate(v.x, v.y - 1, 1), Coordinate(v.x, v.y + 2, 1), Coordinate(v.x, v.y - 2, 1)};
    TriangleCornerValence(corners, v.x, v.y, near);
  }

  /** A corner `(x, y)` of the witness footprint has exactly the two other corners of its triangle among its neighbours. */
  lemma TriangleCornerValence(corners: set<Coordinate>, x: int, y: int, near: set<Coordinate>)
    requires corners == {Corner(0, 10), Corner(0, 11), Corner(0, 12), Corner(1, 10), Corner(1, 11), Corner(1, 12)}
    requires x in {0, 1} && y in {10, 11, 12}
    requires near == {Corner(x, y + 1), Corner(x, y - 1), Corner(x, y + 2), Corner(x, y - 2)}
    ensures |corners * near| == 2
  {
    var others := if y == 10 then {Corner(x, 11), Corner(x, 12)}
                  else if y == 11 then {Corner(x, 10), Corner(x, 12)}
                  else {Corner(x, 10), Corner(x, 11)};
    assert corners * near == others;
  }

  /** Every corner of the witness footprint has vertex valence 2. */
  lemma StripVertices(fp: seq<Coordinate>)
    requires fp == [Row(0, 0), Row(1, 0)]
    ensures ClassifyVertices(Strip(), Vertices(Strip(), fp)).Success?
  {
    var g := Strip();
    var corners := {Corner(0, 10), Corner(0, 11), Corner(0, 12), Corner(1, 10), Corner(1, 11), Corner(1, 12)};
    assert CornerSet(g, fp) == Elems(g.corners(fp[0])) + CornerSet(g, fp[1..]);
    assert CornerSet(g, fp[1..]) == Elems(g.corners(fp[1])) + CornerSet(g, []);
    assert Elems(g.corners(fp[0])) == {Corner(0, 10), Corner(0, 11), Corner(0, 12)};
    assert Elems(g.corners(fp[1])) == {Corner(1, 10), Corner(1, 11), Corner(1, 12)};
    assert CornerSet(g, fp) == corners;
    var vs := Vertices(g, fp);
    assert Elems(vs) == corners && NoDup(vs);
    forall v | v in vs
      ensures IsVertex(VertexValence(g, vs, v))
    {
      FilterCount(vs, Elems(g.vertexAdjacent(v)));
      StripVertexValence(corners, v);
    }
  }

  /** The witness footprint's lower floor classifies. */
  lemma StripLower(fp: seq<Coordinate>)
    requires fp == [Row(0, 0), Row(1, 0)]
    ensures ClassifyLower(Strip(), fp).Success?
    ensures NonTips(ClassifyLower(Strip(), fp).value.footprint) == {}
  {
    StripTiles(fp);
    StripVertices(fp);
  }

  /** The witness footprint has no non-tip triangle, so its upper floor is empty and classifies. */
  lemma StripUpper(lower: Layer)
    requires NonTips(lower.footprint) == {}
    ensures ClassifyUpper(Strip(), lower).Success?
  {
    var g := Strip();
    var eroded := Erode(g, lower.footprint);
    ErosionExact(g, lower.footprint);
    NoDupCard(eroded);
    assert eroded == [];
    assert CornerSet(g, eroded) == {};
    assert Vertices(g, eroded) == [];
  }

  /** The witness footprint classifies on the witness grid. */
  lemma StripClassifies(fp: seq<Coordinate>)
    requires fp == [Row(0, 0), Row(1, 0)]
    ensures ClassifySeptomino(Strip(), fp).Success?
  {
    StripLower(fp);
    StripUpper(ClassifyLower(Strip(), fp).value);
  }

  /**
   * Two bordering triangles on a valid grid classify successfully, so the
   * requirements of the classification lemmas can be met. The witness grid has
   * an empty perimeter and both tiles are tips, so no corner or edge is
   * classified and the upper floor is empty: hypotheses about corners, edges
   * and a non-empty upper floor are met here only vacuously.
   */
  lemma DominoClassifies()
    ensures exists g, footprint, cl :: Valid(g) && ClassifySeptomino(g, footprint) == Success(cl)
  {
    var g := Strip();
    var fp := [Row(0, 0), Row(1, 0)];
    StripClassifies(fp);
    var cl := ClassifySeptomino(g, fp).value;
    assert Valid(g) && ClassifySeptomino(g, fp) == Success(cl);
  }
}
