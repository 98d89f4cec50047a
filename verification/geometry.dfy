/** Pixel rectangles and the numeric conventions of the host platform. */
module Geometry {

  /** A pixel position on the canvas. */
  datatype Pos = Pos(x: int, y: int)

  /** An axis-aligned pixel rectangle, half-open: it covers [x, x + width) by [y, y + height). */
  datatype Rect = Rect(x: int, y: int, width: int, height: int)

  function Min(a: int, b: int): (m: int)
    ensures m <= a && m <= b && (m == a || m == b)
  {
    if a < b then a else b
  }

  /** `inner` lies inside `outer`. */
  predicate Within(inner: Rect, outer: Rect) {
    && outer.x <= inner.x && inner.x + inner.width <= outer.x + outer.width
    && outer.y <= inner.y && inner.y + inner.height <= outer.y + outer.height
  }

  /** The two rectangles share no pixel. */
  predicate Disjoint(a: Rect, b: Rect) {
    || a.x + a.width <= b.x || b.x + b.width <= a.x
    || a.y + a.height <= b.y || b.y + b.height <= a.y
  }

  /** The number the host platform calls pi: the shortest decimal that reads back as its `Math.PI`. */
  const Pi: real := 3.141592653589793

  /** Rounding to the nearest integer with halves going up, as the platform's `round` does. */
  function Round(v: real): (r: int)
    ensures v - 0.5 < r as real <= v + 0.5
  {
    (v + 0.5).Floor
  }

  /** A full turn, `2 * Math.PI`. */
  const TwoPi: real := 2.0 * Pi

  /**
   * The platform's `a % (2 * Math.PI)`: the quotient is truncated toward zero,
   * so the remainder takes the sign of the dividend (Dafny's own `%` would not).
   */
  function RemTwoPi(a: real): (r: real)
    ensures -TwoPi < r < TwoPi
    ensures a >= 0.0 ==> r >= 0.0
    ensures a <= 0.0 ==> r <= 0.0
    ensures ((a - r) / TwoPi).Floor as real == (a - r) / TwoPi
  {
    var q := a / TwoPi;
    var t := if q >= 0.0 then q.Floor else -((-q).Floor);
    a - t as real * TwoPi
  }
}
