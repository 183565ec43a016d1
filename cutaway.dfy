/**
 * The cutaway of a stencil edge: named line segments (frame, sill, lintel,
 * transom, cutaway and their insets) laid out along a wall edge, from which
 * door, window and archway outlines are traced. Positions are exact reals; the
 * segment interpolation `derp` of the geometry library is a parameter.
 */
module Cutaway {

  import opened Wrappers

  /** A 3-D position or offset. */
  datatype Vec = Vec(x: real, y: real, z: real)

  function Add(a: Vec, b: Vec): Vec {
    Vec(a.x + b.x, a.y + b.y, a.z + b.z)
  }

  /** `Vector(0.0, h, 0.0)`: a purely vertical offset. */
  function Up(h: real): Vec {
    Vec(0.0, h, 0.0)
  }

  /** `LineSegment.Side`. */
  datatype Side = Left | Right

  function Opposite(side: Side): Side {
    if side == Left then Right else Left
  }

  /** A line segment from `start` to `end`. */
  datatype Segment = Segment(start: Vec, end: Vec)

  /** `LineSegment.vertex(for:)`: the left end is the start, the right end the end. */
  function SegmentVertex(s: Segment, side: Side): Vec {
    match side
    case Left => s.start
    case Right => s.end
  }

  /** `LineSegment.center`: the midpoint. */
  function Midpoint(s: Segment): Vec {
    Vec((s.start.x + s.end.x) / 2.0, (s.start.y + s.end.y) / 2.0, (s.start.z + s.end.z) / 2.0)
  }

  /** A segment moved by `offset` at both ends. */
  function Shift(s: Segment, offset: Vec): Segment {
    Segment(Add(s.start, offset), Add(s.end, offset))
  }

  // ---------------------------------------------------------------------------
  // Dimensions
  // ---------------------------------------------------------------------------

  const TransomHeight: real := 0.1
  const CutawayWidth: real := 0.5
  const CutawayHeight: real := 0.3
  const FrameDepth: real := 0.05
  const OuterRadius: real := 0.1
  const InnerRadius: real := OuterRadius - FrameDepth

  /** The inner radius is positive and smaller than the outer one. */
  lemma RadiiOrdered()
    ensures 0.0 < InnerRadius < OuterRadius
    ensures InnerRadius == 0.05
  {
  }

  /** `frameHeight`: 0.1 below the architecture's apex height `apex`. */
  function FrameHeight(apex: real): real {
    apex - 0.1
  }

  /** Height of `framePeak` above the frame base. */
  function FramePeakOffset(apex: real): (h: real)
    ensures h == apex - 0.1
  {
    FrameHeight(apex)
  }

  /** Height of `transomBase`: a transom and a frame depth below the frame height. */
  function TransomBaseOffset(apex: real): (h: real)
    ensures h == FrameHeight(apex) - 0.15
  {
    FrameHeight(apex) - TransomHeight - FrameDepth
  }

  /** Height of `transomPeak`: a frame depth below the frame height. */
  function TransomPeakOffset(apex: real): (h: real)
    ensures h == FrameHeight(apex) - 0.05
  {
    FrameHeight(apex) - FrameDepth
  }

  /** Height of `cutawayPeak`: a transom and two frame depths below the frame height. */
  function CutawayPeakOffset(apex: real): (h: real)
    ensures h == FrameHeight(apex) - 0.2
  {
    FrameHeight(apex) - TransomHeight - FrameDepth * 2.0
  }

  /** Height of `sillBase`: a transom, the cutaway and three frame depths below the frame height. */
  function SillBaseOffset(apex: real): (h: real)
    ensures h == FrameHeight(apex) - 0.55
  {
    FrameHeight(apex) - TransomHeight - CutawayHeight - FrameDepth * 3.0
  }

  /** Height of `sillPeak`: a transom, the cutaway and two frame depths below the frame height. */
  function SillPeakOffset(apex: real): (h: real)
    ensures h == FrameHeight(apex) - 0.5
  {
    FrameHeight(apex) - TransomHeight - CutawayHeight - FrameDepth * 2.0
  }

  /** The vertical offsets rise strictly from the sill base to the frame peak, whatever the apex height. */
  lemma OffsetsOrdered(apex: real)
    ensures SillBaseOffset(apex) < SillPeakOffset(apex) < CutawayPeakOffset(apex)
            < TransomBaseOffset(apex) < TransomPeakOffset(apex) < FramePeakOffset(apex)
  {
  }

  // ---------------------------------------------------------------------------
  // The cutaway and its named vertices
  // ---------------------------------------------------------------------------

  /** `Cutaway.Face`: the wall's inner or outer face. */
  datatype Face = Inner | Outer

  /** `Cutaway.Vertex`: the centre and the sixteen named segments. */
  datatype Vertex =
    | Center
    | CutawayBase | CutawayPeak
    | CutawayInsetBase | CutawayInsetPeak
    | FrameBase | FramePeak
    | FrameInsetBase | FrameInsetPeak
    | LintelBase | LintelPeak
    | SillBase | SillPeak
    | SillInsetBase | SillInsetPeak
    | TransomBase | TransomPeak

  datatype Cutaway = Cutaway(
    center: Vec,
    cutawayBase: Segment, cutawayPeak: Segment,
    cutawayInsetBase: Segment, cutawayInsetPeak: Segment,
    frameBase: Segment, framePeak: Segment,
    frameInsetBase: Segment, frameInsetPeak: Segment,
    lintelBase: Segment, lintelPeak: Segment,
    sillBase: Segment, sillPeak: Segment,
    sillInsetBase: Segment, sillInsetPeak: Segment,
    transomBase: Segment, transomPeak: Segment)

  /** The segment a vertex name stands for; the centre is a point, not a segment. */
  function SegmentNamed(c: Cutaway, v: Vertex): (r: Option<Segment>)
    ensures r.None? <==> v == Center
  {
    match v
    case Center => None
    case CutawayBase => Some(c.cutawayBase)
    case CutawayPeak => Some(c.cutawayPeak)
    case CutawayInsetBase => Some(c.cutawayInsetBase)
    case CutawayInsetPeak => Some(c.cutawayInsetPeak)
    case FrameBase => Some(c.frameBase)
    case FramePeak => Some(c.framePeak)
    case FrameInsetBase => Some(c.frameInsetBase)
    case FrameInsetPeak => Some(c.frameInsetPeak)
    case LintelBase => Some(c.lintelBase)
    case LintelPeak => Some(c.lintelPeak)
    case SillBase => Some(c.sillBase)
    case SillPeak => Some(c.sillPeak)
    case SillInsetBase => Some(c.sillInsetBase)
    case SillInsetPeak => Some(c.sillInsetPeak)
    case TransomBase => Some(c.transomBase)
    case TransomPeak => Some(c.transomPeak)
  }

  /**
   * `vertex(for:side:)`: the centre whichever side is asked for, otherwise the
   * end on that side of the segment with the same name.
   */
  function VertexFor(c: Cutaway, v: Vertex, side: Side): (p: Vec)
    ensures v == Center ==> p == c.center
    ensures v != Center ==> p == SegmentVertex(SegmentNamed(c, v).value, side)
  {
    match v
    case Center => c.center
    case CutawayBase => SegmentVertex(c.cutawayBase, side)
    case CutawayPeak => SegmentVertex(c.cutawayPeak, side)
    case CutawayInsetBase => SegmentVertex(c.cutawayInsetBase, side)
    case CutawayInsetPeak => SegmentVertex(c.cutawayInsetPeak, side)
    case FrameBase => SegmentVertex(c.frameBase, side)
    case FramePeak => SegmentVertex(c.framePeak, side)
    case FrameInsetBase => SegmentVertex(c.frameInsetBase, side)
    case FrameInsetPeak => SegmentVertex(c.frameInsetPeak, side)
    case LintelBase => SegmentVertex(c.lintelBase, side)
    case LintelPeak => SegmentVertex(c.lintelPeak, side)
    case SillBase => SegmentVertex(c.sillBase, side)
    case SillPeak => SegmentVertex(c.sillPeak, side)
    case SillInsetBase => SegmentVertex(c.sillInsetBase, side)
    case SillInsetPeak => SegmentVertex(c.sillInsetPeak, side)
    case TransomBase => SegmentVertex(c.transomBase, side)
    case TransomPeak => SegmentVertex(c.transomPeak, side)
  }

  /** The same cutaway with every segment traversed the other way. */
  function Mirror(c: Cutaway): Cutaway {
    var flip := (s: Segment) => Segment(s.end, s.start);
    Cutaway(c.center,
      flip(c.cutawayBase), flip(c.cutawayPeak),
      flip(c.cutawayInsetBase), flip(c.cutawayInsetPeak),
      flip(c.frameBase), flip(c.framePeak),
      flip(c.frameInsetBase), flip(c.frameInsetPeak),
      flip(c.lintelBase), flip(c.lintelPeak),
      flip(c.sillBase), flip(c.sillPeak),
      flip(c.sillInsetBase), flip(c.sillInsetPeak),
      flip(c.transomBase), flip(c.transomPeak))
  }

  /** In the mirrored cutaway every named vertex is found on the other side. */
  lemma MirrorSwapsSides(c: Cutaway, v: Vertex, side: Side)
    ensures VertexFor(Mirror(c), v, side) == VertexFor(c, v, Opposite(side))
  {
  }

  /** A triple of vertex names: the two ends of an outline and its control (middle) vertex. */
  datatype Triple = Triple(v0: Vertex, v1: Vertex, v2: Vertex)

  /** `apex(face:)`. */
  function ApexTriple(face: Face): (t: Triple)
    ensures face == Inner ==> t == Triple(CutawayInsetBase, CutawayPeak, CutawayInsetPeak)
    ensures face == Outer ==> t == Triple(LintelBase, LintelPeak, TransomBase)
  {
    match face
    case Inner => Triple(CutawayInsetBase, CutawayPeak, CutawayInsetPeak)
    case Outer => Triple(LintelBase, LintelPeak, TransomBase)
  }

  /** `base(face:)`. */
  function BaseTriple(face: Face): (t: Triple)
    ensures face == Inner ==> t == Triple(SillInsetPeak, SillPeak, SillInsetBase)
    ensures face == Outer ==> t == Triple(FrameInsetPeak, SillBase, FrameInsetBase)
  {
    match face
    case Inner => Triple(SillInsetPeak, SillPeak, SillInsetBase)
    case Outer => Triple(FrameInsetPeak, SillBase, FrameInsetBase)
  }

  /** The six names of a face's apex and base triples are distinct, and none is the centre. */
  lemma TriplesDistinct(face: Face)
    ensures var a := ApexTriple(face);
            var b := BaseTriple(face);
            var names := [a.v0, a.v1, a.v2, b.v0, b.v1, b.v2];
            && (forall i, j :: 0 <= i < j < |names| ==> names[i] != names[j])
            && Center !in names
  {
  }

  // ---------------------------------------------------------------------------
  // Building the cutaway of an edge
  // ---------------------------------------------------------------------------

  /**
   * The `cutaway` of a stencil whose edge is `edge`: the frame base spans the
   * middle `cutawayWidth` of the edge, the cutaway base is inset from it by the
   * frame depth, and the other segments are those two shifted up or inset
   * towards each other. `derp(from, to, distance)` is the geometry library's
   * interpolation; `apex` is the architecture's apex height.
   */
  function Build(edge: Segment, apex: real, derp: (Vec, Vec, real) -> Vec): (c: Cutaway)
    ensures c.center == Midpoint(edge)
    ensures c.framePeak == Shift(c.frameBase, Up(FramePeakOffset(apex)))
    ensures c.sillBase == Shift(c.frameBase, Up(SillBaseOffset(apex)))
    ensures c.lintelBase == Shift(c.frameBase, Up(CutawayPeakOffset(apex)))
    ensures c.lintelPeak == Shift(c.frameBase, Up(TransomBaseOffset(apex)))
    ensures c.cutawayPeak == Shift(c.cutawayBase, Up(CutawayPeakOffset(apex)))
    ensures c.sillPeak == Shift(c.cutawayBase, Up(SillPeakOffset(apex)))
    ensures c.transomBase == Shift(c.cutawayBase, Up(TransomBaseOffset(apex)))
    ensures c.transomPeak == Shift(c.cutawayBase, Up(TransomPeakOffset(apex)))
  {
    var center := Midpoint(edge);
    var halfWidth := CutawayWidth / 2.0;
    var frameBase := Segment(derp(center, edge.start, halfWidth), derp(center, edge.end, halfWidth));
    var cutawayBase := Segment(derp(frameBase.start, center, FrameDepth), derp(frameBase.end, center, FrameDepth));
    var framePeak := Shift(frameBase, Up(FramePeakOffset(apex)));
    var cutawayPeak := Shift(cutawayBase, Up(CutawayPeakOffset(apex)));
    var sillBase := Shift(frameBase, Up(SillBaseOffset(apex)));
    var sillPeak := Shift(cutawayBase, Up(SillPeakOffset(apex)));
    Cutaway(
      center,
      cutawayBase,
      Shift(cutawayBase, Up(CutawayPeakOffset(apex))),
      Segment(derp(cutawayPeak.start, sillPeak.start, InnerRadius), derp(cutawayPeak.end, sillPeak.end, InnerRadius)),
      Segment(derp(cutawayPeak.start, Midpoint(cutawayPeak), InnerRadius), derp(cutawayPeak.end, Midpoint(cutawayPeak), InnerRadius)),
      frameBase,
      framePeak,
      Segment(derp(sillBase.start, Midpoint(sillBase), OuterRadius), derp(sillBase.end, Midpoint(sillBase), OuterRadius)),
      Segment(derp(sillBase.start, framePeak.start, OuterRadius), derp(sillBase.end, framePeak.end, OuterRadius)),
      Shift(frameBase, Up(CutawayPeakOffset(apex))),
      Shift(frameBase, Up(TransomBaseOffset(apex))),
      Shift(frameBase, Up(SillBaseOffset(apex))),
      sillPeak,
      Segment(derp(sillPeak.start, Midpoint(sillPeak), InnerRadius), derp(sillPeak.end, Midpoint(sillPeak), InnerRadius)),
      Segment(derp(sillPeak.start, cutawayPeak.start, InnerRadius), derp(sillPeak.end, cutawayPeak.end, InnerRadius)),
      Shift(cutawayBase, Up(TransomBaseOffset(apex))),
      Shift(cutawayBase, Up(TransomPeakOffset(apex))))
  }

  /** `p` lies straight above `base` at height `h` over it. */
  predicate Above(p: Vec, base: Vec, h: real) {
    p.x == base.x && p.z == base.z && p.y == base.y + h
  }

  /**
   * On each side of a built cutaway the frame-side vertices stand in one vertical
   * line over the frame base, rising sill base < lintel base < lintel peak <
   * frame peak, and the cutaway-side vertices stand in one vertical line over the
   * cutaway base, rising sill peak < cutaway peak < transom base < transom peak.
   */
  lemma BuildVerticalLayout(edge: Segment, apex: real, derp: (Vec, Vec, real) -> Vec, side: Side)
    ensures var c := Build(edge, apex, derp);
            var frame := VertexFor(c, FrameBase, side);
            var cutaway := VertexFor(c, CutawayBase, side);
            && Above(VertexFor(c, SillBase, side), frame, FrameHeight(apex) - 0.55)
            && Above(VertexFor(c, LintelBase, side), frame, FrameHeight(apex) - 0.2)
            && Above(VertexFor(c, LintelPeak, side), frame, FrameHeight(apex) - 0.15)
            && Above(VertexFor(c, FramePeak, side), frame, FrameHeight(apex))
            && VertexFor(c, SillBase, side).y < VertexFor(c, LintelBase, side).y
               < VertexFor(c, LintelPeak, side).y < VertexFor(c, FramePeak, side).y
            && Above(VertexFor(c, SillPeak, side), cutaway, FrameHeight(apex) - 0.5)
            && Above(VertexFor(c, CutawayPeak, side), cutaway, FrameHeight(apex) - 0.2)
            && Above(VertexFor(c, TransomBase, side), cutaway, FrameHeight(apex) - 0.15)
            && Above(VertexFor(c, TransomPeak, side), cutaway, FrameHeight(apex) - 0.05)
            && VertexFor(c, SillPeak, side).y < VertexFor(c, CutawayPeak, side).y
               < VertexFor(c, TransomBase, side).y < VertexFor(c, TransomPeak, side).y
  {
    var c := Build(edge, apex, derp);
    OffsetsOrdered(apex);
  }
}
