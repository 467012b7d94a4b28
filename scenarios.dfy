/**
 * Sequences of events on one chart, and what the chart's contracts let a
 * caller conclude about them.
 */
module Scenarios {
  import opened Layout
  import opened Geometry
  import opened Sunburst

  /**
   * Two clicks in quick succession on an animating surface: once the second
   * zoom has started, a late tick of the first one changes nothing, and only
   * the second transition is live.
   */
  method SupersededZoomIsSilent(c: Chart, a: Node, b: Node, t: real)
    requires c.Valid() && c.svg
    modifies c, c.arcEls, c.lastTransition
    ensures c.Valid() && c.prevClicked == b && c.inTransition
    ensures c.lastTransition != null && c.Live() == {c.lastTransition}
    ensures c.lastTransition.tween.to == ZoomWindow(b, c.radius)
    ensures c.Current() == old(c.Current())
    ensures c.arcEls == old(c.arcEls) && c.arcEls[..] == old(c.arcEls[..])
  {
    c.OnClick(a);
    var first := c.lastTransition;
    c.OnClick(b);
    assert first.cancelled;
    c.Deliver(first, t);
  }

  /**
   * A hover while a zoom runs draws no highlight, and the final tick of the
   * zoom redraws every arc at rest: the hovered node stays hovered but its
   * group is never highlighted, since nothing replays the highlight.
   */
  method HoverDuringZoomStaysUnlit(c: Chart, a: Node, h: Node)
    requires c.Valid() && c.svg && c.prevHovered != h
    modifies c, c.arcEls, c.lastTransition
    ensures c.Valid() && !c.inTransition && c.prevHovered == h && c.labelFor == h
    ensures c.Current() == ZoomWindow(a, c.radius) && c.Drawn()
  {
    c.OnClick(a);
    var tr := c.lastTransition;
    c.Hover(h);
    c.Deliver(tr, 1.0);
  }

  /**
   * On a surface that cannot animate, zooming onto a node and then onto a node
   * that spans the whole chart from the centre (the root) gives back the
   * unzoomed window, radius range starting at 0 included.
   */
  method ClickBackToRoot(c: Chart, a: Node, root: Node)
    requires c.Valid() && !c.svg
    requires root.x == 0.0 && root.dx == 1.0 && root.y == 0.0
    modifies c, c.arcEls, c.lastTransition
    ensures c.Valid() && !c.inTransition && c.prevClicked == root
    ensures c.Current() == ResetWindow(c.radius) && c.Current().yRange.lo == 0.0
  {
    c.OnClick(a);
    c.OnClick(root);
    ZoomIsResetIff(root, c.radius);
  }

  /**
   * On a surface that cannot animate, a resize with a zoomed node re-fits the
   * zoom to the new radius at once.
   */
  method ResizeKeepsZoom(c: Chart, w: real, h: real)
    requires c.Valid() && !c.svg && c.prevClicked != null && |c.arcData| > 0
    modifies c, c.arcEls, c.lastTransition
    ensures c.Valid() && !c.inTransition && c.prevClicked == old(c.prevClicked)
    ensures c.radius == RadiusFor(w, h)
    ensures c.Current() == ZoomWindow(c.prevClicked, RadiusFor(w, h))
    ensures c.Drawn()
  {
    c.Resize(w, h);
  }

  /**
   * A redraw while a zoom transition runs cancels that transition but leaves
   * the transition flag raised, so a following hover draws no highlight.
   */
  method RedrawMidZoomFreezesHover(c: Chart, a: Node, data: seq<Node>, h: Node)
    requires c.Valid() && c.svg && c.prevHovered != h
    modifies c, c.arcEls, c.lastTransition
    ensures c.Valid() && c.inTransition && c.Live() == {} && c.prevHovered == h
    ensures c.Drawn() && c.Current() == ZoomWindow(a, c.radius)
  {
    c.OnClick(a);
    c.Redraw(data, true);
    c.Hover(h);
  }
}
