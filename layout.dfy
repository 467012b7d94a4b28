/**
 * The flat node list that the partition layout hands to the chart, and the
 * rule that picks which arcs light up when a node is hovered.
 */
module Layout {

  datatype Option<+T> = None | Some(value: T)

  /**
   * One node of the partition layout. The chart never changes a node, and it
   * compares nodes by identity (`===`), so a node is an object with constant
   * fields. `x`/`dx` are the normalised angular start and width, `y`/`dy` the
   * normalised radial start and height. `text` is the node's `text` property,
   * which may be absent (`undefined`); two absent values compare equal.
   */
  class Node {
    const x: real
    const dx: real
    const y: real
    const dy: real
    const depth: nat
    const text: Option<string>

    constructor (x: real, dx: real, y: real, dy: real, depth: nat, text: Option<string>)
      ensures this.x == x && this.dx == dx && this.y == y && this.dy == dy
      ensures this.depth == depth && this.text == text
    {
      this.x, this.dx, this.y, this.dy := x, dx, y, dy;
      this.depth, this.text := depth, text;
    }
  }

  /** The depth at which hovering highlights a group of arcs. */
  const HighlightDepth: nat := 2

  /** Whether node `n` belongs to the highlight group of the hovered node `d`. */
  predicate InGroup(n: Node, d: Node) {
    n.depth == HighlightDepth && n.text == d.text
  }

  /**
   * The indices of `data` that hovering `d` highlights, in the order of
   * `data`: exactly the nodes at depth 2 whose `text` equals `d.text`.
   */
  function HighlightGroup(data: seq<Node>, d: Node): (g: seq<nat>)
    ensures forall k :: 0 <= k < |g| ==> g[k] < |data| && InGroup(data[g[k]], d)
    ensures forall i :: 0 <= i < |data| && InGroup(data[i], d) ==> i in g
    ensures forall j, k :: 0 <= j < k < |g| ==> g[j] < g[k]
  {
    if data == [] then []
    else
      var last := |data| - 1;
      var g := HighlightGroup(data[..last], d);
      if InGroup(data[last], d) then g + [last] else g
  }
}
