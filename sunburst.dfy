/**
 * The interaction state of one sunburst chart: which node is zoomed onto,
 * which node is hovered, whether a zoom transition is running and which
 * transition was started last, the scale settings, and the drawn arcs.
 */
module Sunburst {
  import opened Layout
  import opened Geometry

  /** Duration of a zoom transition, in milliseconds (`animationTime`). */
  const AnimationTime: real := 1000.0

  /** The range of the angle scale, fixed at `[0, 2 * Math.PI]`. */
  const XRange: Interval := Interval(0.0, TwoPi)

  /**
   * The chart radius for a container of the given size: half the smaller side,
   * less the room a highlighted ring needs. A container smaller than 30 pixels
   * gives a negative radius; nothing guards against it.
   */
  function RadiusFor(width: real, height: real): (r: real)
    ensures r + OuterRingAnimateSize <= width / 2.0 && r + OuterRingAnimateSize <= height / 2.0
    ensures r + OuterRingAnimateSize == width / 2.0 || r + OuterRingAnimateSize == height / 2.0
  {
    Min(width, height) / 2.0 - OuterRingAnimateSize
  }

  /**
   * A running zoom transition as the chart sees it: a token that can be
   * cancelled. It carries the interpolation its ticks apply. The timer that
   * delivers the ticks belongs to the transition module and is not modelled;
   * its promise is that a cancelled transition delivers no further tick.
   */
  class Transition {
    const duration: real
    const tween: Tween
    var cancelled: bool

    constructor (duration: real, tween: Tween)
      ensures this.duration == duration && this.tween == tween && !cancelled
    {
      this.duration, this.tween := duration, tween;
      cancelled := false;
    }

    method Cancel()
      modifies this`cancelled
      ensures cancelled
    {
      cancelled := true;
    }
  }

  class Chart {
    /** Whether the drawing surface animates (`Raphael.svg`); without it a zoom jumps to its end. */
    const svg: bool
    /** The laws of the angle scale (linear) and of the radius scale (square root). */
    const xLaw: ScaleLaw
    const yLaw: ScaleLaw

    var width: real
    var height: real
    var radius: real
    var xDomain: Interval
    var yDomain: Interval
    var yRange: Interval
    /** The laid-out nodes, and the shape each one's element currently shows. */
    var arcData: seq<Node>
    var arcEls: array<ArcShape>
    var prevClicked: Node?
    var prevHovered: Node?
    var inTransition: bool
    var lastTransition: Transition?
    /** Every transition this chart has started. */
    ghost var issued: set<Transition>
    /** The node the centre label was last shown for. */
    ghost var labelFor: Node?

    /**
     * One element per node, every element drawn within bounds, and at most
     * one started transition not cancelled: the one stored last.
     */
    ghost predicate Valid()
      reads this, arcEls, issued
    {
      && arcEls.Length == |arcData|
      && (forall i :: 0 <= i < arcEls.Length ==> InBounds(arcEls[i]))
      && (lastTransition != null ==> lastTransition in issued && !lastTransition.cancelled)
      && (forall tr :: tr in issued && tr != lastTransition ==> tr.cancelled)
    }

    /** The transitions that may still deliver ticks. */
    ghost function Live(): set<Transition>
      reads this, issued
    {
      set tr | tr in issued && !tr.cancelled
    }

    lemma AtMostOneLive()
      requires Valid()
      ensures forall tr :: tr in Live() ==> tr == lastTransition
      ensures |Live()| <= 1
    {
      if lastTransition == null {
        assert Live() == {};
      } else {
        assert Live() <= {lastTransition};
        assert Live() == {lastTransition};
      }
    }

    /** The current window of the two scales. */
    function Current(): Window
      reads this
    {
      Window(xDomain, yDomain, yRange)
    }

    /** The shape of node `n` under the current scales: `arc(n)`, or `hoverArc(n)` when `expanded`. */
    function Shape(n: Node, expanded: bool): (a: ArcShape)
      reads this
      ensures InBounds(a)
    {
      var xd, yd, yr, xl, yl := xDomain, yDomain, yRange, xLaw, yLaw;
      var sx := v => xl(xd, XRange, v);
      var sy := v => yl(yd, yr, v);
      if expanded then HoverArc(n, sx, sy) else Arc(n, sx, sy)
    }

    /** Every element shows the resting arc of its node under the current scales. */
    ghost predicate Drawn()
      reads this, arcEls
    {
      arcEls.Length == |arcData| &&
      forall i :: 0 <= i < |arcData| ==> arcEls[i] == Shape(arcData[i], false)
    }

    /**
     * What a hover animation leaves: the elements of `d`'s highlight group
     * show their `expanded` (or resting) shape, and every other element is as
     * it was.
     */
    twostate predicate Highlighted(d: Node, expanded: bool)
      reads this, arcEls
    {
      && arcEls == old(arcEls)
      && arcEls.Length == |arcData|
      && forall i :: 0 <= i < |arcData| ==>
           arcEls[i] == if InGroup(arcData[i], d) then Shape(arcData[i], expanded) else old(arcEls[i])
    }

    /**
     * What a zoom onto `d`, started from window `from`, leaves: `d` is the
     * clicked node, and either a fresh transition towards `d`'s zoom window is
     * stored and running, or (without animation) the window is already there
     * and every arc is redrawn.
     */
    twostate predicate ZoomStarted(d: Node, from: Window)
      reads this, arcEls, issued
    {
      && prevClicked == d
      && var tw := Tween(from, ZoomWindow(d, radius));
      if svg then
        && inTransition
        && lastTransition != null && fresh(lastTransition)
        && lastTransition.tween == tw && lastTransition.duration == AnimationTime
        && issued == old(issued) + {lastTransition}
        && Current() == from
        && arcEls == old(arcEls) && arcEls[..] == old(arcEls[..])
      else
        && !inTransition
        && lastTransition == old(lastTransition)
        && issued == old(issued)
        && Current() == ZoomWindow(d, radius)
        && Drawn()
    }

    /**
     * Creates the chart for a container of the given size and draws `data`
     * unzoomed (the first `resize()` runs before the paper exists, so it only
     * sets the radius).
     */
    constructor (width: real, height: real, data: seq<Node>, svg: bool, xLaw: ScaleLaw, yLaw: ScaleLaw)
      ensures Valid() && fresh(arcEls) && this.svg == svg
      ensures this.xLaw == xLaw && this.yLaw == yLaw
      ensures this.width == width && this.height == height && radius == RadiusFor(width, height)
      ensures arcData == data && Drawn() && Current() == ResetWindow(radius)
      ensures prevClicked == null && prevHovered == null && labelFor == null
      ensures !inTransition && lastTransition == null && Live() == {}
    {
      this.svg, this.xLaw, this.yLaw := svg, xLaw, yLaw;
      this.width, this.height := width, height;
      radius := RadiusFor(width, height);
      xDomain, yDomain, yRange := Interval(0.0, 1.0), Interval(0.0, 1.0), Interval(0.0, RadiusFor(width, height));
      arcData := [];
      arcEls := new ArcShape[0];
      prevClicked, prevHovered, labelFor := null, null, null;
      inTransition := false;
      lastTransition := null;
      issued := {};
      new;
      Redraw(data, false);
    }

    /**
     * `redraw(json, retainZoom)`: cancels and forgets the last transition, takes
     * the new nodes, resets the window or re-applies the zoom onto the clicked
     * node, and draws every node's resting arc. The clicked node, the hovered
     * node and the transition flag are left as they were.
     */
    method Redraw(data: seq<Node>, retainZoom: bool)
      requires Valid()
      modifies this`lastTransition, this`arcData, this`arcEls, this`xDomain, this`yDomain, this`yRange
      modifies lastTransition
      ensures Valid() && fresh(arcEls) && arcData == data && Drawn()
      ensures lastTransition == null && Live() == {}
      ensures old(lastTransition) != null ==> old(lastTransition).cancelled
      ensures !retainZoom ==> Current() == ResetWindow(radius)
      ensures retainZoom && prevClicked != null ==> Current() == ZoomWindow(prevClicked, radius)
      ensures retainZoom && prevClicked == null ==> Current() == old(Current())
    {
      if lastTransition != null {
        lastTransition.Cancel();
      }
      lastTransition := null;
      arcData := data;
      var w :=
        if !retainZoom then ResetWindow(radius)
        else if prevClicked != null then ZoomWindow(prevClicked, radius)
        else Current();
      xDomain := w.xDomain;
      yDomain, yRange := w.yDomain, w.yRange;
      arcEls := new ArcShape[|data|];
      RepaintArcs();
      assert Live() == {};
    }

    /** Sets every element to the resting arc of its node under the current scales. */
    method RepaintArcs()
      requires arcEls.Length == |arcData|
      modifies arcEls
      ensures Drawn()
      ensures forall i :: 0 <= i < arcEls.Length ==> InBounds(arcEls[i])
    {
      var ii := 0;
      while ii < |arcData|
        invariant 0 <= ii <= |arcData|
        invariant forall k :: 0 <= k < ii ==> arcEls[k] == Shape(arcData[k], false)
      {
        arcEls[ii] := Shape(arcData[ii], false);
        ii := ii + 1;
      }
    }

    /**
     * One tick of a zoom transition at time `t`: moves the window to the
     * interpolated one, redraws every arc, and clears the transition flag only
     * at `t = 1`.
     */
    method OnTick(tw: Tween, t: real)
      requires Valid()
      modifies this`xDomain, this`yDomain, this`yRange, this`inTransition, arcEls
      ensures Valid() && Current() == tw.At(t) && Drawn()
      ensures inTransition == (old(inTransition) && t != 1.0)
    {
      var w := tw.At(t);
      xDomain := w.xDomain;
      yDomain, yRange := w.yDomain, w.yRange;
      RepaintArcs();
      if t == 1.0 {
        inTransition := false;
      }
    }

    /**
     * `onClick(d)`: records `d` as clicked, raises the transition flag and
     * interpolates from the current window to `d`'s zoom window, either by a
     * new transition that replaces (and cancels) the last one, or, without
     * animation, by applying the final tick at once.
     */
    method OnClick(d: Node)
      requires Valid()
      modifies this`prevClicked, this`inTransition, this`xDomain, this`yDomain, this`yRange
      modifies this`lastTransition, this`issued, arcEls, lastTransition
      ensures Valid() && ZoomStarted(d, old(Current()))
      ensures svg ==> Live() == {lastTransition}
      ensures svg && old(lastTransition) != null ==> old(lastTransition).cancelled
    {
      prevClicked := d;
      inTransition := true;
      var tw := Tween(Current(), ZoomWindow(d, radius));
      if svg {
        if lastTransition != null {
          lastTransition.Cancel();
        }
        var tr := new Transition(AnimationTime, tw);
        lastTransition := tr;
        issued := issued + {tr};
        assert Live() == {tr};
      } else {
        OnTick(tw, 1.0);
      }
    }

    /** A click on the element of node `i`: zooms onto it unless it is already the clicked node. */
    method Click(i: nat)
      requires Valid() && i < |arcData|
      modifies this`prevClicked, this`inTransition, this`xDomain, this`yDomain, this`yRange
      modifies this`lastTransition, this`issued, arcEls, lastTransition
      ensures Valid()
      ensures arcData[i] == old(prevClicked) ==>
        unchanged(this) && unchanged(arcEls) && (lastTransition != null ==> unchanged(lastTransition))
      ensures arcData[i] != old(prevClicked) ==> ZoomStarted(arcData[i], old(Current()))
    {
      if arcData[i] != prevClicked {
        OnClick(arcData[i]);
      }
    }

    /**
     * The transition module delivering tick `t` of `tr`. A cancelled
     * transition's tick changes nothing; a tick that does get through belongs
     * to the transition stored last.
     */
    method Deliver(tr: Transition, t: real)
      requires Valid() && tr in issued
      modifies this`xDomain, this`yDomain, this`yRange, this`inTransition, arcEls
      ensures Valid()
      ensures tr.cancelled ==> unchanged(this) && unchanged(arcEls)
      ensures !tr.cancelled ==> tr == lastTransition && Current() == tr.tween.At(t) && Drawn()
      ensures !tr.cancelled ==> inTransition == (old(inTransition) && t != 1.0)
    {
      if !tr.cancelled {
        OnTick(tr.tween, t);
      }
    }

    /**
     * `hoverAnimation(d, arcFunction)`: every element of `d`'s highlight group
     * takes its `hoverArc` (or, with `expanded` false, its `arc`) shape; no other
     * element changes.
     */
    method HoverAnimation(d: Node, expanded: bool)
      requires Valid()
      modifies arcEls
      ensures Valid() && Highlighted(d, expanded)
    {
      var g := HighlightGroup(arcData, d);
      for k := 0 to |g|
        invariant forall i :: 0 <= i < arcEls.Length ==>
          arcEls[i] == if i in g[..k] then Shape(arcData[i], expanded) else old(arcEls[i])
      {
        assert g[..k + 1] == g[..k] + [g[k]];
        arcEls[g[k]] := Shape(arcData[g[k]], expanded);
      }
      assert g[..|g|] == g;
    }

    /**
     * `hover(d)`: nothing happens when `d` is already hovered. Otherwise `d`
     * becomes the hovered node, the centre label shows it, and its group is
     * highlighted unless a zoom transition is running.
     */
    method Hover(d: Node)
      requires Valid()
      modifies this`prevHovered, this`labelFor, arcEls
      ensures Valid() && prevHovered == d
      ensures old(prevHovered) == d ==> labelFor == old(labelFor) && unchanged(arcEls)
      ensures old(prevHovered) != d ==> labelFor == d
      ensures old(prevHovered) != d && inTransition ==> unchanged(arcEls)
      ensures old(prevHovered) != d && !inTransition ==> Highlighted(d, true)
    {
      if prevHovered == d {
        return;
      }
      prevHovered := d;
      labelFor := d;
      if inTransition {
        return;
      }
      HoverAnimation(d, true);
    }

    /**
     * `mouseout(d)`: forgets the hovered node and, unless a zoom transition is
     * running, puts `d`'s group back to its resting shapes. The label stays.
     */
    method Mouseout(d: Node)
      requires Valid()
      modifies this`prevHovered, arcEls
      ensures Valid() && prevHovered == null
      ensures inTransition ==> unchanged(arcEls)
      ensures !inTransition ==> Highlighted(d, false)
    {
      prevHovered := null;
      if inTransition {
        return;
      }
      HoverAnimation(d, false);
    }

    /**
     * `resize()` for a container now `w` by `h`: a new radius, a new radius
     * scale (domain `[0, 1]`, range `[0, radius]`), and, when there are arcs,
     * the zoom onto the clicked node (or the first node) replayed from there.
     */
    method Resize(w: real, h: real)
      requires Valid()
      modifies this`width, this`height, this`radius
      modifies this`prevClicked, this`inTransition, this`xDomain, this`yDomain, this`yRange
      modifies this`lastTransition, this`issued, arcEls, lastTransition
      ensures Valid()
      ensures width == w && height == h && radius == RadiusFor(w, h)
      ensures var from := Window(old(xDomain), Interval(0.0, 1.0), Interval(0.0, radius));
        if |arcData| == 0 then
          && Current() == from
          && prevClicked == old(prevClicked) && inTransition == old(inTransition)
          && lastTransition == old(lastTransition) && issued == old(issued)
          && (lastTransition != null ==> unchanged(lastTransition))
          && arcEls[..] == old(arcEls[..])
        else
          ZoomStarted(if old(prevClicked) != null then old(prevClicked) else arcData[0], from)
    {
      width, height := w, h;
      radius := RadiusFor(w, h);
      yDomain, yRange := Interval(0.0, 1.0), Interval(0.0, radius);
      if |arcData| > 0 {
        var d := if prevClicked != null then prevClicked else arcData[0];
        OnClick(d);
      }
    }
  }
}
