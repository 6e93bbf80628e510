/** Real-number helpers standing in for the java.lang.Math calls the scroller uses.
    Java's `double` is modelled as an exact `real`: IEEE rounding, infinities and NaN
    are not represented. */
module Numerics {

  /** Math.abs on a double. */
  function Abs(x: real): (r: real)
    ensures r >= 0.0
    ensures r == x || r == -x
  {
    if x < 0.0 then -x else x
  }

  /** Math.signum on a double: -1.0, 0.0 or 1.0 according to the sign of x. */
  function Signum(x: real): (r: real)
    ensures r * Abs(x) == x
    ensures x != 0.0 ==> Abs(r) == 1.0
    ensures x == 0.0 ==> r == 0.0
  {
    if x > 0.0 then 1.0 else if x < 0.0 then -1.0 else 0.0
  }

  /** Math.round on a double: the nearest integer, halves rounded up
      (the value floor(x + 1/2)). */
  function JavaRound(x: real): (r: int)
    ensures r as real - 0.5 <= x < r as real + 0.5
  {
    (x + 0.5).Floor
  }

  lemma ProductNonNegative(x: real, y: real)
    requires x >= 0.0 && y >= 0.0
    ensures x * y >= 0.0
  {
  }

  /** x lies between a and b, in whichever order they come. */
  predicate Between(a: real, x: real, b: real) {
    (a <= x <= b) || (b <= x <= a)
  }
}
