/** Numeric conversions the sources use: JavaScript's `Math.trunc`, Python's
    `int(x)` on a float, and Python's `max(0, x)`. */
module Numeric {

  /** Truncation toward zero (`Math.trunc`, Python `int(x)`). Dafny's `Floor`
      rounds toward minus infinity, so negative values are mirrored. */
  function Trunc(x: real): (r: int)
    ensures x >= 0.0 ==> 0 <= r && r as real <= x < r as real + 1.0
    ensures x < 0.0 ==> r <= 0 && r as real - 1.0 < x <= r as real
  {
    if x >= 0.0 then x.Floor else -((-x).Floor)
  }

  /** Truncation leaves integers alone and never reverses an order. */
  lemma TruncMonotone(x: real, y: real)
    requires x <= y
    ensures Trunc(x) <= Trunc(y)
  {
  }

  lemma TruncOfInt(n: int)
    ensures Trunc(n as real) == n
  {
  }

  /** Python's `max(0, x)` on a number. */
  function AtLeastZero(x: real): (r: real)
    ensures r >= 0.0 && r >= x
    ensures r == 0.0 || r == x
  {
    if x > 0.0 then x else 0.0
  }
}
