/** Facts about quotients of real numbers. */
module Fractions {

  lemma {:induction false} Quotient(x: real, y: real, d: real)
    requires d > 0.0
    ensures (x - y) / d == x / d - y / d
  {
  }

  /** A larger discount leaves less, unless there was nothing. */
  lemma {:induction false} Shrinks(x: real, small: real, large: real)
    requires x >= 0.0 && 0.0 < small <= large
    ensures x / small >= x / large >= 0.0
    ensures small < large && x / small == x / large ==> x == 0.0
    ensures x / large == 0.0 ==> x == 0.0
  {
  }

  lemma {:induction false} Ratio(x: real, y: real)
    requires 0.0 <= x <= y && y > 0.0
    ensures 0.0 <= x / y <= 1.0 && (x / y == 1.0 <==> x == y) && (x / y > 0.0 <==> x > 0.0)
  {
  }
}
