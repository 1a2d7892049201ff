/**
 * Collision test between the dragged card and one other card (`impact`) and
 * the distance used to rank collisions (`distance`), src/index.js:125-156.
 */
module Collision {
  import opened Wrappers
  import opened Geometry

  /**
   * The overlap test of `impact`: two rectangles overlap unless one lies
   * strictly to the left of, above, to the right of or below the other,
   * so rectangles whose edges touch overlap.
   */
  predicate Overlaps(a: Rect, b: Rect)
  {
    !(a.width + a.x < b.x || a.height + a.y < b.y || b.width + b.x < a.x || b.height + b.y < a.y)
  }

  /** The point lies in the closed rectangle (edges included). */
  predicate Contains(r: Rect, px: int, py: int)
  {
    r.x <= px <= r.x + r.width && r.y <= py <= r.y + r.height
  }

  /** Reference meaning of overlap: the two closed rectangles have a point in common. */
  ghost predicate ShareAPoint(a: Rect, b: Rect)
  {
    exists px, py :: Contains(a, px, py) && Contains(b, px, py)
  }

  /** For rectangles of non-negative size, the separation test is exactly "share a point". */
  lemma OverlapsIffShareAPoint(a: Rect, b: Rect)
    requires a.width >= 0 && a.height >= 0 && b.width >= 0 && b.height >= 0
    ensures Overlaps(a, b) <==> ShareAPoint(a, b)
  {
    if Overlaps(a, b) {
      var px := if a.x < b.x then b.x else a.x;
      var py := if a.y < b.y then b.y else a.y;
      assert Contains(a, px, py) && Contains(b, px, py);
    }
    if ShareAPoint(a, b) {
      var px, py :| Contains(a, px, py) && Contains(b, px, py);
    }
  }

  /**
   * `impact(node, offsetX, offsetY)`: the active card's stored rectangle moved
   * by the drag offset is tested against the candidate `node`; on a collision
   * the candidate's top-left corner is returned, otherwise `false` (`None`).
   */
  function Impact(active: Rect, offsetX: int, offsetY: int, node: Rect): (r: Option<Point>)
    ensures r.Some? <==> Overlaps(Shift(active, offsetX, offsetY), node)
    ensures r.Some? ==> r.value == Point(node.x, node.y)
  {
    var nodeALeft := active.x + offsetX;
    var nodeATop := active.y + offsetY;
    if active.width + nodeALeft < node.x
       || active.height + nodeATop < node.y
       || node.width + node.x < nodeALeft
       || node.height + node.y < nodeATop
    then None
    else Some(Point(node.x, node.y))
  }

  /** Whether a collision is reported does not depend on which card is the dragged one. */
  lemma ImpactSymmetric(active: Rect, offsetX: int, offsetY: int, node: Rect)
    ensures Impact(active, offsetX, offsetY, node).Some?
        <==> Impact(node, 0, 0, Shift(active, offsetX, offsetY)).Some?
  {
  }

  /** Dragging by an offset is the same as moving the candidate the opposite way. */
  lemma ImpactRelative(active: Rect, offsetX: int, offsetY: int, node: Rect)
    ensures Impact(active, offsetX, offsetY, node).Some?
        <==> Impact(active, 0, 0, Shift(node, -offsetX, -offsetY)).Some?
  {
  }

  /**
   * `distance(x, y, offsetX, offsetY)`, squared: the source takes the square
   * root of this sum, which preserves both the order of distances and
   * whether a distance is zero.
   */
  function SquaredDistance(active: Rect, offsetX: int, offsetY: int, x: int, y: int): (d: nat)
    ensures d == 0 <==> active.x + offsetX == x && active.y + offsetY == y
  {
    var a := active.x + offsetX - x;
    var b := active.y + offsetY - y;
    SquareNonNegative(a);
    SquareNonNegative(b);
    a * a + b * b
  }

  lemma SquareNonNegative(a: int)
    ensures a * a >= 0
    ensures a != 0 ==> a * a > 0
  {
    if a < 0 {
      assert a * a == (-a) * (-a);
    }
  }

  /** A worked example of a drag frame: (100,100) moved by (40,40) hits the card at (150,150). */
  lemma DragFrameExample()
    ensures Impact(Rect(100, 100, 50, 50), 40, 40, Rect(150, 150, 50, 50)) == Some(Point(150, 150))
    ensures SquaredDistance(Rect(100, 100, 50, 50), 40, 40, 150, 150) == 200
  {
  }
}
