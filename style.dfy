/**
 * Architecture styles and the outlines (stencils) traced through a cutaway for
 * frames, archways, doors, transoms, windows and window frames.
 *
 * Outlines are built over any point type `P`: `at(v, side)` gives the point of
 * the cutaway vertex `v` on `side`, and `curve(from, towards, control, steps)`
 * is the geometry library's curve sampler. Taking `at` to be `Label` gives the
 * symbolic outline, a sequence of (vertex, side) labels; taking it to be
 * `VertexFor(c, _, _)` for a cutaway `c` gives the positions the source computes.
 */
module Style {

  import opened Sequences
  import opened Cutaway

  /** `ArchitectureType`: the seven architectures. */
  datatype ArchitectureType = Bernina | Daisen | Elna | Juki | Merrow | Necchi | Singer

  /** `ArchitectureType.Style`. */
  datatype Style = Angled | Curved(steps: int) | Straight(transom: bool)

  /** A symbolic outline point: a cutaway vertex name and the side it is taken on. */
  datatype Point = Point(vertex: Vertex, side: Side)

  function Label(v: Vertex, side: Side): Point {
    Point(v, side)
  }

  /** The points of a concrete cutaway. */
  function Positions(c: Cutaway): (Vertex, Side) -> Vec {
    (v, side) => VertexFor(c, v, side)
  }

  /** `Style.curved`. */
  function IsCurved(s: Style): (b: bool)
    ensures b <==> s.Curved?
  {
    match s
    case Curved(_) => true
    case _ => false
  }

  /** `ArchitectureType.style`: which architectures share each style. */
  function StyleOf(t: ArchitectureType): (s: Style)
    ensures s == Straight(false) <==> t == Bernina || t == Singer
    ensures s == Straight(true) <==> t == Daisen
    ensures s == Curved(5) <==> t == Elna || t == Merrow
    ensures s == Angled <==> t == Juki || t == Necchi
  {
    match t
    case Bernina => Straight(false)
    case Daisen => Straight(true)
    case Elna => Curved(5)
    case Juki => Angled
    case Merrow => Curved(5)
    case Necchi => Angled
    case Singer => Straight(false)
  }

  /** Exactly elna and merrow are curved, and every curved style samples its curves in five steps. */
  lemma CurvedStylesUseFiveSteps(t: ArchitectureType)
    ensures IsCurved(StyleOf(t)) <==> t == Elna || t == Merrow
    ensures IsCurved(StyleOf(t)) ==> StyleOf(t).steps == 5
  {
  }

  /** The vertex an outline of `face` starts from. */
  function StartVertex(s: Style, face: Face): (v: Vertex)
    ensures s.Straight? && face == Inner ==> v == CutawayPeak
    ensures s.Straight? && face == Outer ==> (v == FramePeak <==> s.transom) && (v == LintelPeak <==> !s.transom)
    ensures !s.Straight? ==> v == ApexTriple(face).v0
  {
    match s
    case Straight(transom) =>
      if face == Inner then CutawayPeak else if transom then FramePeak else LintelPeak
    case _ => if face == Inner then CutawayInsetBase else LintelBase
  }

  /** `start(for:face:)`: the start vertex of `face`, always on the left side. */
  function Start<P>(s: Style, at: (Vertex, Side) -> P, face: Face): (p: P)
    ensures s.Straight? && face == Inner ==> p == at(CutawayPeak, Left)
    ensures s.Straight? && face == Outer ==> p == at(if s.transom then FramePeak else LintelPeak, Left)
    ensures !s.Straight? && face == Inner ==> p == at(CutawayInsetBase, Left)
    ensures !s.Straight? && face == Outer ==> p == at(LintelBase, Left)
  {
    at(StartVertex(s, face), Left)
  }

  /** `apex(cutaway:face:)`: the top of an opening, traced from left to right. */
  function Apex<P>(s: Style, at: (Vertex, Side) -> P, face: Face, curve: (P, P, P, int) -> seq<P>): (r: seq<P>)
    ensures s.Angled? ==> |r| == 4
    ensures s.Straight? ==> |r| == 2 && r[0] == Start(s, at, face)
  {
    var t := ApexTriple(face);
    match s
    case Angled =>
      [at(t.v0, Left), at(t.v2, Left), at(t.v2, Right), at(t.v0, Right)]
    case Curved(steps) =>
      curve(at(t.v0, Left), at(t.v2, Left), at(t.v1, Left), steps)
      + curve(at(t.v2, Right), at(t.v0, Right), at(t.v1, Right), steps)
    case Straight(transom) =>
      var v := if face == Inner then t.v1 else if transom then FramePeak else t.v1;
      [at(v, Left), at(v, Right)]
  }

  /** `base(cutaway:face:)`: the bottom of an opening, traced from right to left. */
  function Base<P>(s: Style, at: (Vertex, Side) -> P, face: Face, curve: (P, P, P, int) -> seq<P>): (r: seq<P>)
    ensures s.Angled? ==> |r| == 4
    ensures s.Straight? ==> |r| == 2
  {
    var t := BaseTriple(face);
    match s
    case Angled =>
      [at(t.v0, Right), at(t.v2, Right), at(t.v2, Left), at(t.v0, Left)]
    case Curved(steps) =>
      curve(at(t.v0, Right), at(t.v2, Right), at(t.v1, Right), steps)
      + curve(at(t.v2, Left), at(t.v0, Left), at(t.v1, Left), steps)
    case Straight(_) =>
      [at(t.v1, Right), at(t.v1, Left)]
  }

  /** `stencil(frame:)`: the outer apex closed along the frame base. */
  function Frame<P>(s: Style, at: (Vertex, Side) -> P, curve: (P, P, P, int) -> seq<P>): (r: seq<P>)
    ensures |r| == |Apex(s, at, Outer, curve)| + 3
    ensures r[0] == r[|r| - 1] == at(FrameBase, Left)
    ensures r[|r| - 2] == at(FrameBase, Right)
    ensures r[1..|r| - 2] == Apex(s, at, Outer, curve)
  {
    [at(FrameBase, Left)] + Apex(s, at, Outer, curve) + [at(FrameBase, Right), at(FrameBase, Left)]
  }

  /** `stencil(door:)`: the inner apex closed along the cutaway base. */
  function Door<P>(s: Style, at: (Vertex, Side) -> P, curve: (P, P, P, int) -> seq<P>): (r: seq<P>)
    ensures |r| == |Apex(s, at, Inner, curve)| + 3
    ensures r[0] == r[|r| - 1] == at(CutawayBase, Left)
    ensures r[|r| - 2] == at(CutawayBase, Right)
    ensures r[1..|r| - 2] == Apex(s, at, Inner, curve)
  {
    [at(CutawayBase, Left)] + Apex(s, at, Inner, curve) + [at(CutawayBase, Right), at(CutawayBase, Left)]
  }

  /**
   * `stencil(archway:)`: for a straight style a closed rectangle over the
   * cutaway base, reaching the transom peak when the style has a transom and
   * the cutaway peak otherwise; every other style uses the door.
   */
  function Archway<P>(s: Style, at: (Vertex, Side) -> P, curve: (P, P, P, int) -> seq<P>): (r: seq<P>)
    ensures s.Straight? ==>
      var peak := if s.transom then TransomPeak else CutawayPeak;
      && |r| == 5
      && r[0] == r[4] == at(CutawayBase, Left)
      && r[1] == at(peak, Left) && r[2] == at(peak, Right)
      && r[3] == at(CutawayBase, Right)
    ensures !s.Straight? ==> r == Door(s, at, curve)
  {
    match s
    case Straight(transom) =>
      var peak := if transom then TransomPeak else CutawayPeak;
      [at(CutawayBase, Left), at(peak, Left), at(peak, Right), at(CutawayBase, Right), at(CutawayBase, Left)]
    case _ => Door(s, at, curve)
  }

  /** `stencil(transom:)`: the closed rectangle between the transom base and peak. */
  function Transom<P>(s: Style, at: (Vertex, Side) -> P): (r: seq<P>)
    ensures |r| == 5
    ensures r[0] == r[4] == at(TransomBase, Left)
    ensures r[1] == at(TransomPeak, Left) && r[2] == at(TransomPeak, Right)
    ensures r[3] == at(TransomBase, Right)
  {
    [at(TransomBase, Left), at(TransomPeak, Left), at(TransomPeak, Right), at(TransomBase, Right), at(TransomBase, Left)]
  }

  /** `stencil(window:)`: inner apex, then inner base, then back to the inner start. */
  function Window<P>(s: Style, at: (Vertex, Side) -> P, curve: (P, P, P, int) -> seq<P>): (r: seq<P>)
    ensures r != [] && r[|r| - 1] == Start(s, at, Inner)
    ensures r[..|r| - 1] == Apex(s, at, Inner, curve) + Base(s, at, Inner, curve)
  {
    Apex(s, at, Inner, curve) + Base(s, at, Inner, curve) + [Start(s, at, Inner)]
  }

  /** `stencil(windowFrame:)`: outer apex, then outer base, then back to the outer start. */
  function WindowFrame<P>(s: Style, at: (Vertex, Side) -> P, curve: (P, P, P, int) -> seq<P>): (r: seq<P>)
    ensures r != [] && r[|r| - 1] == Start(s, at, Outer)
    ensures r[..|r| - 1] == Apex(s, at, Outer, curve) + Base(s, at, Outer, curve)
  {
    Apex(s, at, Outer, curve) + Base(s, at, Outer, curve) + [Start(s, at, Outer)]
  }

  // ---------------------------------------------------------------------------
  // Properties of the outlines
  // ---------------------------------------------------------------------------

  /**
   * On symbolic labels the straight archway reaches the transom peak exactly
   * when the style has a transom, and the straight outer apex and outer start
   * use the frame peak exactly when it has one.
   */
  lemma TransomSelectsPeaks(transom: bool, curve: (Point, Point, Point, int) -> seq<Point>)
    ensures Archway(Straight(transom), Label, curve)[1] == Point(TransomPeak, Left) <==> transom
    ensures Archway(Straight(transom), Label, curve)[1] == Point(CutawayPeak, Left) <==> !transom
    ensures Apex(Straight(transom), Label, Outer, curve) == [Point(FramePeak, Left), Point(FramePeak, Right)] <==> transom
    ensures Start(Straight(transom), Label, Outer) == Point(FramePeak, Left) <==> transom
    ensures Apex(Straight(transom), Label, Inner, curve) == [Point(CutawayPeak, Left), Point(CutawayPeak, Right)]
  {
    if !transom {
      assert Apex(Straight(transom), Label, Outer, curve)[0] == Point(LintelPeak, Left);
    }
  }

  /**
   * On symbolic labels the angled apex visits the apex ends and the angled base
   * visits the base ends, the one left to right and the other right to left; the
   * straight base is the base's middle vertex, right then left; a curved apex or
   * base is two curves, one per side, both bent by the middle vertex.
   */
  lemma OutlineShapes(face: Face, transom: bool, steps: int, curve: (Point, Point, Point, int) -> seq<Point>)
    ensures var a := ApexTriple(face);
            Apex(Angled, Label, face, curve) == [Point(a.v0, Left), Point(a.v2, Left), Point(a.v2, Right), Point(a.v0, Right)]
    ensures var b := BaseTriple(face);
            Base(Angled, Label, face, curve) == [Point(b.v0, Right), Point(b.v2, Right), Point(b.v2, Left), Point(b.v0, Left)]
    ensures Base(Straight(transom), Label, face, curve) == [Point(BaseTriple(face).v1, Right), Point(BaseTriple(face).v1, Left)]
    ensures var a := ApexTriple(face);
            Apex(Curved(steps), Label, face, curve)
            == curve(Point(a.v0, Left), Point(a.v2, Left), Point(a.v1, Left), steps)
             + curve(Point(a.v2, Right), Point(a.v0, Right), Point(a.v1, Right), steps)
    ensures var b := BaseTriple(face);
            Base(Curved(steps), Label, face, curve)
            == curve(Point(b.v0, Right), Point(b.v2, Right), Point(b.v1, Right), steps)
             + curve(Point(b.v2, Left), Point(b.v0, Left), Point(b.v1, Left), steps)
  {
  }

  /** A sampler whose curves begin at `from` and end at `towards`. */
  ghost predicate Anchored<P(!new)>(curve: (P, P, P, int) -> seq<P>) {
    forall a, b, m, n :: var p := curve(a, b, m, n); p != [] && p[0] == a && p[|p| - 1] == b
  }

  /** A sampler that traces the same points backwards when its ends are swapped. */
  ghost predicate Reversible<P(!new)>(curve: (P, P, P, int) -> seq<P>) {
    forall a, b, m, n :: curve(b, a, m, n) == Reverse(curve(a, b, m, n))
  }

  /**
   * Every apex runs from the start point of its face on the left to the same
   * vertex on the right (for a curved style, when the sampler keeps its ends).
   */
  lemma ApexEndpoints<P(!new)>(s: Style, at: (Vertex, Side) -> P, face: Face, curve: (P, P, P, int) -> seq<P>)
    requires s.Curved? ==> Anchored(curve)
    ensures var r := Apex(s, at, face, curve);
            && |r| >= 2
            && r[0] == Start(s, at, face)
            && r[|r| - 1] == at(StartVertex(s, face), Right)
  {
    var r := Apex(s, at, face, curve);
    var t := ApexTriple(face);
    if s.Curved? {
      var first := curve(at(t.v0, Left), at(t.v2, Left), at(t.v1, Left), s.steps);
      var second := curve(at(t.v2, Right), at(t.v0, Right), at(t.v1, Right), s.steps);
      assert r == first + second;
      assert r[0] == first[0];
      assert r[|r| - 1] == second[|second| - 1];
    }
  }

  /**
   * Every base runs from its first vertex on the right to the same vertex on
   * the left: the base's end for angled and curved styles, its middle for
   * straight ones (for a curved style, when the sampler keeps its ends).
   */
  lemma BaseEndpoints<P(!new)>(s: Style, at: (Vertex, Side) -> P, face: Face, curve: (P, P, P, int) -> seq<P>)
    requires s.Curved? ==> Anchored(curve)
    ensures var r := Base(s, at, face, curve);
            var v := if s.Straight? then BaseTriple(face).v1 else BaseTriple(face).v0;
            && |r| >= 2
            && r[0] == at(v, Right)
            && r[|r| - 1] == at(v, Left)
  {
    var r := Base(s, at, face, curve);
    var t := BaseTriple(face);
    if s.Curved? {
      var first := curve(at(t.v0, Right), at(t.v2, Right), at(t.v1, Right), s.steps);
      var second := curve(at(t.v2, Left), at(t.v0, Left), at(t.v1, Left), s.steps);
      assert r == first + second;
      assert r[0] == first[0];
      assert r[|r| - 1] == second[|second| - 1];
    }
  }

  /**
   * Windows and window frames are closed outlines: they begin where they end,
   * at the start point of their face.
   */
  lemma WindowsClosed<P(!new)>(s: Style, at: (Vertex, Side) -> P, curve: (P, P, P, int) -> seq<P>)
    requires s.Curved? ==> Anchored(curve)
    ensures var w := Window(s, at, curve);
            w[0] == w[|w| - 1] == Start(s, at, Inner)
    ensures var f := WindowFrame(s, at, curve);
            f[0] == f[|f| - 1] == Start(s, at, Outer)
  {
    ApexEndpoints(s, at, Inner, curve);
    ApexEndpoints(s, at, Outer, curve);
    assert Window(s, at, curve)[0] == Apex(s, at, Inner, curve)[0];
    assert WindowFrame(s, at, curve)[0] == Apex(s, at, Outer, curve)[0];
  }

  /** `mirrored` looks every vertex up on the other side from `at`. */
  ghost predicate MirrorOf<P(!new)>(mirrored: (Vertex, Side) -> P, at: (Vertex, Side) -> P) {
    forall v, side :: mirrored(v, side) == at(v, Opposite(side))
  }

  /**
   * Apex and base outlines are mirror symmetric: looking every point up on the
   * other side gives the same outline in reverse order (for a curved style,
   * when the sampler traces a swapped curve backwards).
   */
  lemma OutlinesMirrorSymmetric<P(!new)>(s: Style, at: (Vertex, Side) -> P, mirrored: (Vertex, Side) -> P,
                                         face: Face, curve: (P, P, P, int) -> seq<P>)
    requires MirrorOf(mirrored, at)
    requires s.Curved? ==> Reversible(curve)
    ensures Apex(s, mirrored, face, curve) == Reverse(Apex(s, at, face, curve))
    ensures Base(s, mirrored, face, curve) == Reverse(Base(s, at, face, curve))
  {
    var a := ApexTriple(face);
    var b := BaseTriple(face);
    if s.Curved? {
      var n := s.steps;
      ReverseConcat(curve(at(a.v0, Left), at(a.v2, Left), at(a.v1, Left), n),
                    curve(at(a.v2, Right), at(a.v0, Right), at(a.v1, Right), n));
      assert Apex(s, mirrored, face, curve)
        == curve(at(a.v0, Right), at(a.v2, Right), at(a.v1, Right), n)
        + curve(at(a.v2, Left), at(a.v0, Left), at(a.v1, Left), n);
      ReverseConcat(curve(at(b.v0, Right), at(b.v2, Right), at(b.v1, Right), n),
                    curve(at(b.v2, Left), at(b.v0, Left), at(b.v1, Left), n));
      assert Base(s, mirrored, face, curve)
        == curve(at(b.v0, Left), at(b.v2, Left), at(b.v1, Left), n)
        + curve(at(b.v2, Right), at(b.v0, Right), at(b.v1, Right), n);
    }
  }

  /** On a concrete cutaway, the outlines traced on the mirrored cutaway are the originals reversed. */
  lemma MirroredCutawayOutlines(s: Style, c: Cutaway, face: Face, curve: (Vec, Vec, Vec, int) -> seq<Vec>)
    requires s.Curved? ==> Reversible(curve)
    ensures Apex(s, Positions(Mirror(c)), face, curve) == Reverse(Apex(s, Positions(c), face, curve))
    ensures Base(s, Positions(Mirror(c)), face, curve) == Reverse(Base(s, Positions(c), face, curve))
  {
    forall v: Vertex, side: Side
      ensures Positions(Mirror(c))(v, side) == Positions(c)(v, Opposite(side))
    {
      MirrorSwapsSides(c, v, side);
    }
    OutlinesMirrorSymmetric(s, Positions(c), Positions(Mirror(c)), face, curve);
  }
}
