/** Integer screen rectangles as the game uses them (pygame's Rect), and
    Python's `int()` conversion of a float. */
module Geometry {

  /** Python `int(r)` on a float: truncation toward zero (not floor). */
  function Trunc(r: real): (t: int)
    ensures r >= 0.0 ==> 0 <= t && t as real <= r < t as real + 1.0
    ensures r < 0.0 ==> t <= 0 && t as real - 1.0 < r <= t as real
  {
    if r >= 0.0 then r.Floor else -((-r).Floor)
  }

  /** A rectangle with its top-left corner at (left, top). */
  datatype Rect = Rect(left: int, top: int, width: int, height: int) {
    function Right(): int { left + width }
    function Bottom(): int { top + height }
  }

  /** `Rect.colliderect` for the positive-size rectangles of the game: the two
      rectangles overlap strictly; sharing only an edge is not a collision. */
  predicate Collides(a: Rect, b: Rect) {
    && a.left < b.Right() && b.left < a.Right()
    && a.top < b.Bottom() && b.top < a.Bottom()
  }

  /** The point (px, py) lies in the open interior of `r`. */
  predicate Inside(r: Rect, px: real, py: real) {
    && (r.left as real) < px < (r.Right() as real)
    && (r.top as real) < py < (r.Bottom() as real)
  }

  function Max(a: int, b: int): int { if a < b then b else a }
  function Min(a: int, b: int): int { if a < b then a else b }

  /** For positive-size rectangles, collision is exactly "the open rectangles share a point". */
  lemma {:induction false} CollidesIffSharedPoint(a: Rect, b: Rect)
    requires a.width > 0 && a.height > 0 && b.width > 0 && b.height > 0
    ensures Collides(a, b) <==> exists px: real, py: real :: Inside(a, px, py) && Inside(b, px, py)
  {
    if Collides(a, b) {
      var x0, x1 := Max(a.left, b.left), Min(a.Right(), b.Right());
      var y0, y1 := Max(a.top, b.top), Min(a.Bottom(), b.Bottom());
      assert x0 < x1 && y0 < y1;
      var px := (x0 as real + x1 as real) / 2.0;
      var py := (y0 as real + y1 as real) / 2.0;
      assert x0 as real < px < x1 as real && y0 as real < py < y1 as real;
      assert Inside(a, px, py) && Inside(b, px, py);
    }
  }

  /** Touching along a vertical or horizontal edge is never a collision. */
  lemma TouchingIsNotCollision(a: Rect, b: Rect)
    requires a.Right() == b.left || b.Right() == a.left || a.Bottom() == b.top || b.Bottom() == a.top
    ensures !Collides(a, b)
  {
  }
}
