# Sunburst chart interaction model

A Dafny model of the interaction logic of the sunburst chart in
`src/js/sunburst.js`. The chart draws a partition layout as rings of arcs.
Clicking an arc zooms onto its node through an animated change of the two
scales. Hovering an arc highlights the arcs of its group at depth 2 and shows
a centre label. A redraw swaps in new data, keeping the zoom or resetting it.
A resize recomputes the radius and replays the zoom.

The model has four modules:

- `Layout` (`layout.dfy`): the laid-out node (`Node`, an object with constant
  fields, because the chart compares nodes by identity) and the filter that
  picks a hovered node's highlight group (`HighlightGroup`).
- `Geometry` (`geometry.dfy`): the pure part. It holds the clamping accessors
  of `arc` and `hoverArc`, the window a zoom settles on (`ZoomWindow`), the
  unzoomed window (`ResetWindow`) and the componentwise interpolation that a
  zoom ticks through (`Lerp`, `Tween.At`).
- `Sunburst` (`sunburst.dfy`): the chart's closure state as the class `Chart`,
  plus the transition token `Transition`. The class has fields `prevClicked`,
  `prevHovered`, `inTransition`, `lastTransition`, `radius`, the scale domains
  and ranges, the node list `arcData`, and `arcEls`, an array holding the shape
  each arc element shows. Each event handler of the source is a method whose
  contract gives the complete new state. The object invariant `Valid()` says
  three things:
  - there is one element per node;
  - every drawn shape is within bounds;
  - of all transitions the chart has started, only the one stored last can
    still be live.
- `Scenarios` (`scenarios.dfy`): event sequences and what the contracts let a
  caller conclude about them.

Numbers are `real`. The angle scale (linear) and the radius scale (square
root) are d3 library code. The model keeps them abstract as `ScaleLaw`
functions of domain, range and value. `Chart` takes them as constructor
arguments, so the arc bounds hold whatever the scales return. `Raphael.svg`
(whether the surface animates) is a constructor argument too. So are the
container's width and height, which the source reads from the DOM. `Resize`
takes the new size as parameters.

In these places the model keeps what the code does, which a reader might not expect:

- `resize()` builds a new square-root scale. This resets the radius domain to
  d3's default `[0, 1]` as well as setting the range to `[0, radius]`. The zoom
  replay then starts from that window.
- `onClick` records the clicked node at once, not when the transition
  completes.
- `mouseout` never hides the centre label.
- The highlight group compares the `text` property (line 182), not the display
  name. An absent `text` is `None`, and two absent values match, as
  `undefined === undefined` does.
- `redraw` cancels a running transition but leaves `inTransition` raised.
  After a redraw in the middle of a zoom, hovering highlights nothing until
  another zoom completes (`Scenarios.RedrawMidZoomFreezesHover`).
- A hover during a zoom never gets its highlight, even once the zoom ends.
  `hover` returns before animating while the flag is raised (lines 160-162),
  and the last tick redraws every arc at rest without replaying the highlight
  (`Scenarios.HoverDuringZoomStaysUnlit`).

## Model

| member | source | states |
|---|---|---|
| `Layout.HighlightGroup` | src/js/sunburst.js:177-183 | the hover filter keeps exactly the indices whose node has depth 2 and the hovered node's `text`, in layout order |
| `Geometry.ClampAngle` | src/js/sunburst.js:65-66 | an angle is clamped into `[0, 2π]`: unchanged inside, 0 below, 2π above |
| `Geometry.ClampRadius` | src/js/sunburst.js:67-68 | a radius is clamped to be non-negative: unchanged when non-negative, 0 otherwise |
| `Geometry.Arc` | src/js/sunburst.js:64-68 | for every node and any scales, start and end angles lie in `[0, 2π]` and inner and outer radii are non-negative |
| `Geometry.ArcExact` | src/js/sunburst.js:64-68 | where a scale value already lies within the bounds, the arc uses it unchanged |
| `Geometry.HoverArc` | src/js/sunburst.js:70-74 | the hover arc equals the resting arc except that its outer radius is exactly 15 larger; it is within bounds with outer radius at least 15 |
| `Geometry.ResetWindow` | src/js/sunburst.js:90-92 | the unzoomed window: both domains are `[0, 1]` and the radius range is `[0, radius]` |
| `Geometry.ZoomWindow` | src/js/sunburst.js:126-128 | the targets of a zoom onto `d` (also applied directly by a zoom-retaining redraw, lines 95-96): angle domain starting at `d.x` with width `d.dx`, radius domain `[d.y, 1]`, radius range ending at the chart radius and starting at 70 when `d.y` is not 0 |
| `Geometry.ZoomIsResetIff` | src/js/sunburst.js:90-96 | the zoom window of a node equals the unzoomed window (domains `[0,1]`, range `[0, radius]`) exactly when the node has `x = 0`, `dx = 1`, `y = 0` |
| `Geometry.ZoomFloor` | src/js/sunburst.js:128 | the target radius range starts at 0 exactly when the node's `y` is 0, at 70 otherwise, and ends at the chart radius |
| `Geometry.Lerp` | src/js/sunburst.js:126-128 | interpolating a two-element domain or range gives the start at `t = 0`, the target at `t = 1`, and stays put when start and target agree |
| `Geometry.LerpBetween` | src/js/sunburst.js:126-128 | for `0 <= t <= 1` an interpolated end lies between its start and target values |
| `Geometry.LerpStaysBetween` | src/js/sunburst.js:126-128 | for `0 <= t <= 1` both ends of an interpolated domain or range lie between the corresponding ends of its start and target |
| `Geometry.Tween.At` | src/js/sunburst.js:139 | the window applied at tick `t` is the start window at `t = 0` and the target window at `t = 1` |
| `Geometry.TweenStaysBetween` | src/js/sunburst.js:139 | for `0 <= t <= 1` every window a zoom passes through lies, end by end, between its start window and its target window |
| `Sunburst.RadiusFor` | src/js/sunburst.js:29 | the radius plus 15 is at most half of each side and equals half of one of them |
| `Sunburst.Transition.constructor` | src/js/sunburst.js:132 | a new transition carries the zoom's interpolation and the 1000 ms duration and is not cancelled |
| `Sunburst.Transition.Cancel` | src/js/sunburst.js:131 | a cancelled transition stays cancelled |
| `Sunburst.Chart.AtMostOneLive` | src/js/sunburst.js:130-133 | at most one started transition is live, and it is the stored `lastTransition` |
| `Sunburst.Chart.Shape` | src/js/sunburst.js:64-74 | the arc or hover arc of a node under the chart's current scales is within bounds |
| `Sunburst.Chart.constructor` | src/js/sunburst.js:8-81 | a new chart keeps the given surface capability and scale laws, and has radius `min(w,h)/2 - 15`, the unzoomed window, every node drawn at rest, nothing clicked or hovered, no transition |
| `Sunburst.Chart.Redraw` | src/js/sunburst.js:83-108 | it cancels and forgets the last transition, so none is live, and it draws every new node at rest. Without `retainZoom` the window is reset. With `retainZoom` and a clicked node it is exactly that node's zoom window, the `t = 1` target of `onClick`. With `retainZoom` and no clicked node it is unchanged. Clicked node and transition flag are untouched |
| `Sunburst.Chart.RepaintArcs` | src/js/sunburst.js:141-143 | every element shows the resting arc of its own node under the current scales, within bounds |
| `Sunburst.Chart.OnTick` | src/js/sunburst.js:138-148 | a tick sets the window to the interpolation at `t` and redraws every arc; it clears the transition flag at `t = 1` and at no other `t` |
| `Sunburst.Chart.OnClick` | src/js/sunburst.js:122-136 | the clicked node is recorded. With animation, the previous transition is cancelled, a fresh one from the current window to the node's zoom window is stored, it is the only live one, and the flag is raised. Without animation, the window is the zoom window, all arcs are redrawn, the flag is down and no transition is created |
| `Sunburst.Chart.Click` | src/js/sunburst.js:100-102 | clicking the already-clicked node changes nothing; any other node starts the zoom onto it |
| `Sunburst.Chart.Deliver` | src/js/sunburst.js:130-148 | a tick of a cancelled transition changes nothing; a tick that gets through belongs to the stored transition and applies its interpolation |
| `Sunburst.Chart.HoverAnimation` | src/js/sunburst.js:177-188 | exactly the elements of the hovered node's group take the hover (or resting) shape; every other element is unchanged |
| `Sunburst.Chart.Hover` | src/js/sunburst.js:151-165 | hovering the hovered node is a no-op. Otherwise the node becomes hovered and labelled. Its group is highlighted only when no zoom transition runs, and no arc changes while one does |
| `Sunburst.Chart.Mouseout` | src/js/sunburst.js:167-175 | the hovered node is cleared. The group returns to rest only when no zoom transition runs, and no arc changes while one does |
| `Sunburst.Chart.Resize` | src/js/sunburst.js:26-47 | radius becomes `min(w,h)/2 - 15` and the radius scale becomes domain `[0,1]`, range `[0, radius]`. With arcs, the zoom onto the clicked node (or the first node) is replayed from there. Without arcs nothing else changes |
| `Scenarios.SupersededZoomIsSilent` | src/js/sunburst.js:130-133 | after a second click, a late tick of the first transition leaves both the window and every drawn arc as they were, and only the second transition is live |
| `Scenarios.HoverDuringZoomStaysUnlit` | src/js/sunburst.js:158-164 | a node hovered during a zoom stays hovered and labelled, but after the final tick every arc is at rest: its highlight is never drawn |
| `Scenarios.ClickBackToRoot` | src/js/sunburst.js:122-128 | without animation, clicking the root after another node restores domains `[0,1]` and a radius range starting at 0 |
| `Scenarios.ResizeKeepsZoom` | src/js/sunburst.js:26-47 | without animation, a resize re-fits the clicked node's zoom window to the new radius at once |
| `Scenarios.RedrawMidZoomFreezesHover` | src/js/sunburst.js:83-97 | a redraw during a zoom leaves the transition flag raised with no live transition, so a following hover changes no arc |

## Left out

- The partition layout (`d3.layout.partition`, lines 61-62 and 88) is library code. The node list with `x`, `dx`, `y`, `dy`, `depth` and `text` is an input to `Chart` and `Redraw`.
- The d3 scale laws (linear and square root) are kept abstract, and `d3.svg.arc` path strings are not modelled. An element's drawn path is the `ArcShape` it was given.
- `d3.interpolate` is library code. It is modelled as the componentwise `a + (b - a) * t` it documents.
- Floating point is not modelled: `Math.PI`, rounding, `NaN` and infinities. Numbers are reals, and `TwoPi` is the double value of `2 * Math.PI`.
- The transition module is not part of this model. Its timer, its 1000 ms schedule and the order in which it delivers ticks are left out. `Chart.Deliver` states its one promise: a cancelled transition delivers no tick.
- `Sunburst.Chart.Deliver` requires the transition to be one the chart started, because the source never hands ticks of foreign transitions to the chart.
- The 100 ms hover animation and the fade-in on redraw (`animate`, lines 110-113) are timing only. The model gives the final shape of each element, and `Redraw` has no `animate` parameter.
- The following Raphael and jQuery work is rendering glue: creating the paper, `setSize`/`setViewBox`, `vmlPositionFix`, removing old elements, the fill colour (`category20c`, `colorFn`), the stroke, and the label's markup and position.
- `Sunburst.Chart.Hover`: the centre label is recorded only as the node it was last shown for (`labelFor`). Its HTML from `labelFormatter(d, prevClicked)` is not modelled.
- The options `sizeAttr`, `nameAttr` and `i18n` only configure the left-out layout and label.
