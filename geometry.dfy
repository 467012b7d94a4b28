/**
 * The pure part of the sunburst chart: the clamping arc accessors, the
 * zoom targets computed from a clicked node, and the componentwise
 * interpolation that the zoom transition ticks through.
 */
module Geometry {
  import opened Layout

  /** `2 * Math.PI` as the double the browser computes; proofs only use that it is positive. */
  const TwoPi: real := 6.283185307179586
  /** How far a highlighted arc's outer edge moves out, and the margin kept around the chart. */
  const OuterRingAnimateSize: real := 15.0
  /** Inner radius reserved for the centre when zoomed below the root. */
  const MinRadius: real := 70.0

  /** A two-element domain or range `[lo, hi]` of a d3 scale. */
  datatype Interval = Interval(lo: real, hi: real)

  /**
   * How a scale maps a value, given its current domain and range. The chart
   * uses a linear law for angles and a square-root law for radii; both are
   * library code and are kept abstract.
   */
  type ScaleLaw = (Interval, Interval, real) -> real

  /** The angles and radii handed to the arc path generator. */
  datatype ArcShape = ArcShape(startAngle: real, endAngle: real, innerRadius: real, outerRadius: real)

  predicate InBounds(a: ArcShape) {
    && 0.0 <= a.startAngle <= TwoPi
    && 0.0 <= a.endAngle <= TwoPi
    && 0.0 <= a.innerRadius
    && 0.0 <= a.outerRadius
  }

  function Min(a: real, b: real): real { if a <= b then a else b }
  function Max(a: real, b: real): real { if a >= b then a else b }

  /** `Math.max(0, Math.min(2 * Math.PI, v))`. */
  function ClampAngle(v: real): (r: real)
    ensures 0.0 <= r <= TwoPi
    ensures 0.0 <= v <= TwoPi ==> r == v
    ensures v < 0.0 ==> r == 0.0
    ensures v > TwoPi ==> r == TwoPi
  {
    Max(0.0, Min(TwoPi, v))
  }

  /** `Math.max(0, v)`. */
  function ClampRadius(v: real): (r: real)
    ensures 0.0 <= r
    ensures 0.0 <= v ==> r == v
    ensures v < 0.0 ==> r == 0.0
  {
    Max(0.0, v)
  }

  /**
   * The resting arc of node `n` under the angle scale `sx` and the radius
   * scale `sy`. Whatever the scales return (a negative chart radius included),
   * the angles stay within a full turn and the radii are not negative.
   */
  function Arc(n: Node, sx: real -> real, sy: real -> real): (a: ArcShape)
    ensures InBounds(a)
  {
    ArcShape(ClampAngle(sx(n.x)), ClampAngle(sx(n.x + n.dx)),
             ClampRadius(sy(n.y)), ClampRadius(sy(n.y + n.dy)))
  }

  /** Where a scale already lands inside the bounds, the arc takes its values unchanged. */
  lemma ArcExact(n: Node, sx: real -> real, sy: real -> real)
    ensures 0.0 <= sx(n.x) <= TwoPi ==> Arc(n, sx, sy).startAngle == sx(n.x)
    ensures 0.0 <= sx(n.x + n.dx) <= TwoPi ==> Arc(n, sx, sy).endAngle == sx(n.x + n.dx)
    ensures 0.0 <= sy(n.y) ==> Arc(n, sx, sy).innerRadius == sy(n.y)
    ensures 0.0 <= sy(n.y + n.dy) ==> Arc(n, sx, sy).outerRadius == sy(n.y + n.dy)
  {
  }

  /**
   * The highlighted arc: the resting arc with its outer radius pushed out by
   * exactly `OuterRingAnimateSize`, and nothing else different.
   */
  function HoverArc(n: Node, sx: real -> real, sy: real -> real): (h: ArcShape)
    ensures InBounds(h) && h.outerRadius >= OuterRingAnimateSize
    ensures var a := Arc(n, sx, sy);
      h == a.(outerRadius := a.outerRadius + OuterRingAnimateSize)
  {
    ArcShape(ClampAngle(sx(n.x)), ClampAngle(sx(n.x + n.dx)),
             ClampRadius(sy(n.y)), ClampRadius(sy(n.y + n.dy)) + OuterRingAnimateSize)
  }

  /** The three scale settings that zooming changes: angle domain, radius domain, radius range. */
  datatype Window = Window(xDomain: Interval, yDomain: Interval, yRange: Interval)

  /** The unzoomed window of a chart of the given radius. */
  function ResetWindow(radius: real): (w: Window)
    ensures w.xDomain == w.yDomain == Interval(0.0, 1.0)
    ensures w.yRange.lo == 0.0 && w.yRange.hi == radius
  {
    Window(Interval(0.0, 1.0), Interval(0.0, 1.0), Interval(0.0, radius))
  }

  /**
   * The window a zoom onto `d` settles on: `d`'s angular span fills the full
   * turn, its radial start becomes the centre, and below the root the
   * innermost ring starts at `MinRadius` rather than at 0 (`d.y ? minRadius : 0`).
   */
  function ZoomWindow(d: Node, radius: real): (w: Window)
    ensures w.xDomain.lo == d.x && w.xDomain.hi - w.xDomain.lo == d.dx
    ensures w.yDomain.lo == d.y && w.yDomain.hi == 1.0
    ensures w.yRange.hi == radius
    ensures d.y != 0.0 ==> w.yRange.lo == MinRadius
  {
    Window(Interval(d.x, d.x + d.dx), Interval(d.y, 1.0),
           Interval(if d.y != 0.0 then MinRadius else 0.0, radius))
  }

  /** Zooming onto a node gives the unzoomed window exactly when that node spans the whole chart from the centre. */
  lemma ZoomIsResetIff(d: Node, radius: real)
    ensures ZoomWindow(d, radius) == ResetWindow(radius) <==> d.x == 0.0 && d.dx == 1.0 && d.y == 0.0
  {
  }

  /**
   * The radius range of a zoom starts at 0 exactly when the node starts at the
   * centre, and at `MinRadius` otherwise.
   */
  lemma ZoomFloor(d: Node, radius: real)
    ensures ZoomWindow(d, radius).yRange.lo == 0.0 <==> d.y == 0.0
    ensures d.y != 0.0 ==> ZoomWindow(d, radius).yRange.lo == MinRadius
    ensures ZoomWindow(d, radius).yRange.hi == radius
  {
  }

  /** `d3.interpolate` on two-element arrays: each end moves as `a + (b - a) * t`. */
  function Lerp(a: Interval, b: Interval, t: real): (r: Interval)
    ensures t == 0.0 ==> r == a
    ensures t == 1.0 ==> r == b
    ensures a == b ==> r == a
  {
    Interval(a.lo + (b.lo - a.lo) * t, a.hi + (b.hi - a.hi) * t)
  }

  /** For `0 <= t <= 1` an interpolated end never leaves the segment between its two endpoints. */
  lemma {:induction false} LerpBetween(a: real, b: real, t: real)
    requires 0.0 <= t <= 1.0
    ensures Min(a, b) <= a + (b - a) * t <= Max(a, b)
  {
    if a <= b {
      ProductNonNegative(b - a, t);
      ProductNonNegative(b - a, 1.0 - t);
    } else {
      ProductNonNegative(a - b, t);
      ProductNonNegative(a - b, 1.0 - t);
    }
    assert (b - a) * t + (b - a) * (1.0 - t) == b - a;
  }

  /** Both ends of `r` lie between the corresponding ends of `a` and `b`. */
  predicate IntervalBetween(a: Interval, b: Interval, r: Interval) {
    && Min(a.lo, b.lo) <= r.lo <= Max(a.lo, b.lo)
    && Min(a.hi, b.hi) <= r.hi <= Max(a.hi, b.hi)
  }

  /** For `0 <= t <= 1` an interpolated domain or range never overshoots its start or its target. */
  lemma {:induction false} LerpStaysBetween(a: Interval, b: Interval, t: real)
    requires 0.0 <= t <= 1.0
    ensures IntervalBetween(a, b, Lerp(a, b, t))
  {
    LerpBetween(a.lo, b.lo, t);
    LerpBetween(a.hi, b.hi, t);
  }

  lemma ProductNonNegative(u: real, v: real)
    requires 0.0 <= u && 0.0 <= v
    ensures 0.0 <= u * v
  {
  }

  /** The interpolation a zoom transition ticks through, from the window it started at to its target. */
  datatype Tween = Tween(from: Window, to: Window) {
    function At(t: real): (w: Window)
      ensures t == 0.0 ==> w == from
      ensures t == 1.0 ==> w == to
      ensures from == to ==> w == from
    {
      Window(Lerp(from.xDomain, to.xDomain, t), Lerp(from.yDomain, to.yDomain, t),
             Lerp(from.yRange, to.yRange, t))
    }
  }

  /**
   * Every window a zoom transition passes through, for `0 <= t <= 1`, lies
   * between the window it started from and its target, in each of its six ends.
   */
  lemma {:induction false} TweenStaysBetween(tw: Tween, t: real)
    requires 0.0 <= t <= 1.0
    ensures IntervalBetween(tw.from.xDomain, tw.to.xDomain, tw.At(t).xDomain)
    ensures IntervalBetween(tw.from.yDomain, tw.to.yDomain, tw.At(t).yDomain)
    ensures IntervalBetween(tw.from.yRange, tw.to.yRange, tw.At(t).yRange)
  {
    LerpStaysBetween(tw.from.xDomain, tw.to.xDomain, t);
    LerpStaysBetween(tw.from.yDomain, tw.to.yDomain, t);
    LerpStaysBetween(tw.from.yRange, tw.to.yRange, t);
  }
}
