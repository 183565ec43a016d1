/** Properties of the septomino classification that relate several of its operations. */
module ClassificationProperties {
  import opened Wrappers
  import opened Sequences
  import opened GridLibrary
  import opened SeptominoClassification

  /** On one floor a tile valence never exceeds the three triangles adjacent to it. */
  lemma TileValenceAtMostThree(g: Grid, footprint: seq<Coordinate>, c: Coordinate)
    requires Valid(g) && NoDup(footprint)
    ensures TileValence(g, footprint, c) <= 3
  {
    FilterBound(footprint, g.adjacent(c));
  }

  /** A triangle with no footprint neighbour has valence 0, which has no `Triangle` case: `classify(footprint:)` throws for it. */
  lemma IsolatedTriangleFails(g: Grid, c: Coordinate)
    requires Valid(g)
    ensures ClassifyFootprint(g, [c]) == Failure(InvalidTriangle(c))
  {
    assert c !in Elems(g.adjacent(c));
    assert Filter([c], Elems(g.adjacent(c))) == [];
    assert TileValence(g, [c], c) == 0;
  }

  /** The corner and edge maps of one floor have disjoint keys, all taken from the perimeter. */
  lemma CornersAndEdgesPartition(g: Grid, perimeter: seq<Coordinate>, footprint: map<Coordinate, int>, vertices: map<Coordinate, int>)
    requires Valid(g)
    requires ClassifyCorners(g, perimeter, vertices).Success?
    requires ClassifyEdges(g, perimeter, footprint, vertices).Success?
    ensures ClassifyCorners(g, perimeter, vertices).value.Keys !! ClassifyEdges(g, perimeter, footprint, vertices).value.Keys
    ensures ClassifyCorners(g, perimeter, vertices).value.Keys <= Elems(perimeter)
    ensures ClassifyEdges(g, perimeter, footprint, vertices).value.Keys <= Elems(perimeter)
  {
  }

  /** Whatever the dictionary order, the neighbour chosen is the one footprint triangle adjacent to `c` when there is only one. */
  lemma NeighbourUnique(g: Grid, c: Coordinate, footprint: map<Coordinate, int>, n: Coordinate)
    requires Valid(g)
    requires n in footprint && n in g.adjacent(c)
    requires forall m :: m in footprint && m in g.adjacent(c) ==> m == n
    ensures Neighbour(g, c, footprint) == Some(n)
  {
  }

  /** At most one footprint triangle is adjacent to `c`. */
  ghost predicate UniqueNeighbour(g: Grid, c: Coordinate, footprint: map<Coordinate, int>) {
    forall m, n :: m in footprint && n in footprint && m in g.adjacent(c) && n in g.adjacent(c) ==> m == n
  }

  /**
   * Two grids that differ only in dictionary traversal order classify the same
   * edges, provided no perimeter triangle sharing two vertices with the floor
   * has two footprint neighbours: the choice `footprint.first { ... }` makes is
   * then forced wherever it is consulted.
   */
  lemma EdgesIndependentOfOrder(g1: Grid, g2: Grid, perimeter: seq<Coordinate>, footprint: map<Coordinate, int>, vertices: map<Coordinate, int>)
    requires Valid(g1) && Valid(g2)
    requires g1.adjacent == g2.adjacent && g1.corners == g2.corners
    requires forall c :: c in perimeter && |SharedVertices(g1, c, vertices)| == 2 ==> UniqueNeighbour(g1, c, footprint)
    ensures ClassifyEdges(g1, perimeter, footprint, vertices) == ClassifyEdges(g2, perimeter, footprint, vertices)
  {
    var r1 := ClassifyEdges(g1, perimeter, footprint, vertices);
    var r2 := ClassifyEdges(g2, perimeter, footprint, vertices);
    forall c | c in perimeter
      ensures SharedVertices(g1, c, vertices) == SharedVertices(g2, c, vertices)
      ensures |SharedVertices(g1, c, vertices)| == 2 ==> Neighbour(g1, c, footprint) == Neighbour(g2, c, footprint)
      ensures EdgeOk(g1, footprint, vertices, c) == EdgeOk(g2, footprint, vertices, c)
    {
      if |SharedVertices(g1, c, vertices)| == 2 {
        assert UniqueNeighbour(g1, c, footprint);
      }
    }
    if r1.Success? {
      assert r2.Success?;
      forall c | c in r1.value
        ensures c in r2.value && r1.value[c] == r2.value[c]
      {
      }
      assert r1.value.Keys == r2.value.Keys;
      assert r1.value == r2.value;
    }
  }

  /** Erosion keeps exactly the non-tip keys, without repeats; an empty footprint erodes to nothing. */
  lemma ErosionExact(g: Grid, footprint: map<Coordinate, int>)
    requires Valid(g)
    ensures NoDup(Erode(g, footprint))
    ensures Elems(Erode(g, footprint)) == NonTips(footprint)
    ensures Elems(Erode(g, footprint)) <= footprint.Keys
    ensures footprint == map[] ==> Erode(g, footprint) == []
  {
    var order := g.enumerate(footprint.Keys);
    var keep := NonTips(footprint);
    FilterNoDup(order, keep);
    assert Elems(order) == footprint.Keys;
    var r := Filter(order, keep);
    FilterMembers(order, keep);
    forall c ensures c in Elems(r) <==> c in keep {
      if c in keep {
        assert c in Elems(order);
      }
      if c in Elems(r) {
        var i :| 0 <= i < |r| && r[i] == c;
      }
    }
  }

  /**
   * In the two-floor pipeline every tile of the eroded footprint is a key of the
   * lower floor, so combining the tile maps can only fail by a sum with no
   * `Triangle` case: it succeeds exactly when no summed valence exceeds 5.
   */
  lemma CombineTrianglesFailsOnlyOnRange(g: Grid, footprint: seq<Coordinate>, lower: map<Coordinate, int>, apex: map<Coordinate, int>)
    requires Valid(g)
    requires ClassifyFootprint(g, footprint) == Success(lower)
    requires ClassifyFootprint(g, Erode(g, lower)) == Success(apex)
    ensures apex.Keys <= lower.Keys
    ensures CombineTriangles(g, apex, lower).Success? <==> forall c :: c in apex ==> apex[c] + lower[c] <= 5
  {
    ErosionExact(g, lower);
    assert apex.Keys <= lower.Keys;
  }

  /** Every vertex of the eroded footprint is a vertex of the footprint it was eroded from. */
  lemma ErodedVerticesWithinLower(g: Grid, footprint: seq<Coordinate>, lower: map<Coordinate, int>)
    requires Valid(g)
    requires ClassifyFootprint(g, footprint) == Success(lower)
    ensures Elems(Vertices(g, Erode(g, lower))) <= Elems(Vertices(g, footprint))
  {
    var eroded := Erode(g, lower);
    ErosionExact(g, lower);
    assert Elems(eroded) <= Elems(footprint);
    CornerSetMonotone(g, eroded, footprint);
  }

  /**
   * Likewise every vertex of the eroded footprint is a vertex of the lower floor,
   * so combining the vertex maps succeeds exactly when every summed valence is
   * 12 or at most 10.
   */
  lemma CombineVerticesFailsOnlyOnRange(g: Grid, footprint: seq<Coordinate>, lower: map<Coordinate, int>,
                                        lowerVertices: map<Coordinate, int>, apexVertices: map<Coordinate, int>)
    requires Valid(g)
    requires ClassifyFootprint(g, footprint) == Success(lower)
    requires ClassifyVertices(g, Vertices(g, footprint)) == Success(lowerVertices)
    requires ClassifyVertices(g, Vertices(g, Erode(g, lower))) == Success(apexVertices)
    ensures apexVertices.Keys <= lowerVertices.Keys
    ensures CombineVertices(g, apexVertices, lowerVertices).Success? <==>
              forall v :: v in apexVertices ==> apexVertices[v] + lowerVertices[v] <= 10 || apexVertices[v] + lowerVertices[v] == 12
  {
    ErodedVerticesWithinLower(g, footprint, lower);
    assert apexVertices.Keys <= lowerVertices.Keys;
    CombineVerticesInRange(g, apexVertices, lowerVertices);
  }

  /** Two vertex maps whose values are all `Vertex` cases combine exactly when no summed valence is 11 or above 12. */
  lemma CombineVerticesInRange(g: Grid, apex: map<Coordinate, int>, base: map<Coordinate, int>)
    requires Valid(g)
    requires apex.Keys <= base.Keys
    requires forall v :: v in apex ==> IsVertex(apex[v])
    requires forall v :: v in base ==> IsVertex(base[v])
    ensures CombineVertices(g, apex, base).Success? <==> forall v :: v in apex ==> apex[v] + base[v] <= 10 || apex[v] + base[v] == 12
  {
    assert forall v :: v in apex ==> (IsVertex(apex[v] + base[v]) <==> apex[v] + base[v] <= 10 || apex[v] + base[v] == 12);
  }

  /** A successful classification is a successful lower floor and a successful upper floor built on it. */
  lemma SeptominoStages(g: Grid, footprint: seq<Coordinate>, cl: Classification)
    requires Valid(g)
    requires ClassifySeptomino(g, footprint) == Success(cl)
    ensures ClassifyLower(g, footprint) == Success(cl.lower)
    ensures ClassifyUpper(g, cl.lower) == Success(cl.upper)
  {
  }

  /** A successful upper floor is made of the eroded floor's successful classification, combined with the lower floor. */
  lemma UpperStages(g: Grid, lower: Layer, upper: Layer)
    requires Valid(g)
    requires ClassifyUpper(g, lower) == Success(upper)
    ensures var eroded := Erode(g, lower.footprint);
            && ClassifyFootprint(g, eroded).Success?
            && ClassifyVertices(g, Vertices(g, eroded)).Success?
            && CombineFloors(g, g.perimeter(eroded), ClassifyFootprint(g, eroded).value,
                             ClassifyVertices(g, Vertices(g, eroded)).value, lower) == Success(upper)
  {
  }

  /** A successful floor is made of successful corner and edge classifications. */
  lemma LayerStages(g: Grid, perimeter: seq<Coordinate>, footprint: map<Coordinate, int>, vertices: map<Coordinate, int>, layer: Layer)
    requires Valid(g)
    requires ClassifyLayer(g, perimeter, footprint, vertices) == Success(layer)
    ensures layer.footprint == footprint && layer.vertices == vertices
    ensures layer.corners.Keys !! layer.edges.Keys
    ensures layer.corners.Keys + layer.edges.Keys <= Elems(perimeter)
  {
    CornersAndEdgesPartition(g, perimeter, footprint, vertices);
  }

  /** The lower floor classifies the septomino's own tiles and the vertices of its triangles. */
  lemma LowerFloor(g: Grid, footprint: seq<Coordinate>, lower: Layer)
    requires Valid(g)
    requires ClassifyLower(g, footprint) == Success(lower)
    ensures ClassifyFootprint(g, footprint) == Success(lower.footprint)
    ensures ClassifyVertices(g, Vertices(g, footprint)) == Success(lower.vertices)
    ensures lower.footprint.Keys == Elems(footprint)
    ensures forall c :: c in lower.footprint ==> lower.footprint[c] == TileValence(g, footprint, c)
    ensures lower.vertices.Keys == CornerSet(g, footprint)
    ensures lower.corners.Keys !! lower.edges.Keys
    ensures lower.corners.Keys + lower.edges.Keys <= Elems(g.perimeter(footprint))
  {
    var lowerFootprint := ClassifyFootprint(g, footprint).value;
    var lowerVertices := ClassifyVertices(g, Vertices(g, footprint)).value;
    LayerStages(g, g.perimeter(footprint), lowerFootprint, lowerVertices, lower);
  }

  /** The upper floor sums each eroded-floor entry onto the lower floor's entry for the same key. */
  lemma CombinedFloor(g: Grid, perimeter: seq<Coordinate>, apexFootprint: map<Coordinate, int>,
                      apexVertices: map<Coordinate, int>, lower: Layer, upper: Layer)
    requires Valid(g)
    requires CombineFloors(g, perimeter, apexFootprint, apexVertices, lower) == Success(upper)
    ensures upper.footprint.Keys == apexFootprint.Keys
    ensures forall c :: c in upper.footprint ==>
              c in lower.footprint && upper.footprint[c] == apexFootprint[c] + lower.footprint[c] && IsTriangle(upper.footprint[c])
    ensures upper.vertices.Keys == apexVertices.Keys
    ensures forall v :: v in upper.vertices ==>
              v in lower.vertices && upper.vertices[v] == apexVertices[v] + lower.vertices[v] && IsVertex(upper.vertices[v])
    ensures upper.corners.Keys !! upper.edges.Keys
    ensures upper.corners.Keys + upper.edges.Keys <= Elems(perimeter)
  {
    var upperFootprint := CombineTriangles(g, apexFootprint, lower.footprint).value;
    var upperVertices := CombineVertices(g, apexVertices, lower.vertices).value;
    LayerStages(g, perimeter, upperFootprint, upperVertices, upper);
  }

  /** A summed tile value is the tile's valence on the eroded floor plus its valence on the lower floor, at least 2. */
  lemma SummedTiles(g: Grid, eroded: seq<Coordinate>, apex: map<Coordinate, int>, lower: map<Coordinate, int>, upper: map<Coordinate, int>)
    requires upper.Keys == apex.Keys
    requires forall c :: c in apex ==> apex[c] == TileValence(g, eroded, c) && IsTriangle(apex[c])
    requires forall c :: c in upper ==> c in lower && upper[c] == apex[c] + lower[c] && IsTriangle(upper[c])
    requires forall c :: c in lower ==> IsTriangle(lower[c])
    ensures forall c :: c in upper ==>
              && c in lower
              && upper[c] == TileValence(g, eroded, c) + lower[c]
              && 2 <= upper[c] <= 5
  {
  }

  /**
   * The upper floor classifies the tiles left once the lower floor's tips are
   * eroded, each counting its valence on both floors, and the vertices of those
   * tiles.
   */
  lemma UpperFloor(g: Grid, footprint: seq<Coordinate>, lower: Layer, upper: Layer)
    requires Valid(g)
    requires ClassifyLower(g, footprint) == Success(lower)
    requires ClassifyUpper(g, lower) == Success(upper)
    ensures var eroded := Erode(g, lower.footprint);
            && upper.footprint.Keys == NonTips(lower.footprint)
            && (forall c :: c in upper.footprint ==>
                  && c in lower.footprint
                  && upper.footprint[c] == TileValence(g, eroded, c) + lower.footprint[c]
                  && 2 <= upper.footprint[c] <= 5)
            && upper.vertices.Keys == CornerSet(g, eroded)
            && upper.corners.Keys !! upper.edges.Keys
            && upper.corners.Keys + upper.edges.Keys <= Elems(g.perimeter(eroded))
  {
    var eroded := Erode(g, lower.footprint);
    var apexFootprint := ClassifyFootprint(g, eroded).value;
    var apexVertices := ClassifyVertices(g, Vertices(g, eroded)).value;
    LowerFloor(g, footprint, lower);
    UpperStages(g, lower, upper);
    CombinedFloor(g, g.perimeter(eroded), apexFootprint, apexVertices, lower, upper);
    ErosionExact(g, lower.footprint);
    assert apexFootprint.Keys == Elems(eroded);
    assert upper.footprint.Keys == Elems(eroded);
    SummedTiles(g, eroded, apexFootprint, lower.footprint, upper.footprint);
    assert Elems(Vertices(g, eroded)) == CornerSet(g, eroded);
  }

  /** What a successful two-floor classification holds, floor by floor. */
  lemma SeptominoLayers(g: Grid, footprint: seq<Coordinate>, cl: Classification)
    requires Valid(g)
    requires ClassifySeptomino(g, footprint) == Success(cl)
    ensures cl.lower.footprint.Keys == Elems(footprint)
    ensures forall c :: c in cl.lower.footprint ==> cl.lower.footprint[c] == TileValence(g, footprint, c)
    ensures cl.lower.vertices.Keys == CornerSet(g, footprint)
    ensures cl.upper.footprint.Keys == NonTips(cl.lower.footprint)
    ensures forall c :: c in cl.upper.footprint ==> c in cl.lower.footprint && 2 <= cl.upper.footprint[c] <= 5
    ensures cl.upper.vertices.Keys <= cl.lower.vertices.Keys
  {
    SeptominoStages(g, footprint, cl);
    LowerFloor(g, footprint, cl.lower);
    UpperFloor(g, footprint, cl.lower, cl.upper);
    ErodedVerticesWithinLower(g, footprint, cl.lower.footprint);
    assert Elems(Vertices(g, Erode(g, cl.lower.footprint))) == CornerSet(g, Erode(g, cl.lower.footprint));
  }
}
