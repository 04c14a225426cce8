/** The integer rectangles of `pygame.Rect`, its `colliderect` test, and Python's `int()` on a float. */
module Geometry {

  datatype Rect = Rect(x: int, y: int, w: int, h: int)
  {
    function Top(): int { y }
    function Right(): int { x + w }
    function Bottom(): int { y + h }

    /** The pixel (px, py) lies inside the rectangle (left and top edges inclusive). */
    predicate Contains(px: int, py: int) { x <= px < Right() && y <= py < Bottom() }
  }

  /** `a.colliderect(b)`: the interiors overlap; rectangles that only touch at an edge do not collide. */
  predicate Collide(a: Rect, b: Rect)
  {
    a.x < b.Right() && b.x < a.Right() && a.y < b.Bottom() && b.y < a.Bottom()
  }

  /** For rectangles of positive size, colliding is the same as sharing a pixel. */
  lemma CollideIffSharedPixel(a: Rect, b: Rect)
    requires a.w > 0 && a.h > 0 && b.w > 0 && b.h > 0
    ensures Collide(a, b) <==> exists px, py :: a.Contains(px, py) && b.Contains(px, py)
  {
    if Collide(a, b) {
      var px := if a.x < b.x then b.x else a.x;
      var py := if a.y < b.y then b.y else a.y;
      assert a.Contains(px, py) && b.Contains(px, py);
    }
  }

  /** Python's `int(r)` for a float: truncation toward zero, which differs from `Floor` for negative
      non-integral values. */
  function Trunc(r: real): (i: int)
    ensures r >= 0.0 ==> i as real <= r < i as real + 1.0
    ensures r < 0.0 ==> i as real - 1.0 < r <= i as real
  {
    if r >= 0.0 then r.Floor else -((-r).Floor)
  }
}
