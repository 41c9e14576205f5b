/** Go's conversions of floating-point numbers, over real numbers, and powers of two. */
module Arithmetic {

  /** A conversion to an integer type drops the fraction. */
  function Truncated(x: real): int { if x >= 0.0 then x.Floor else -((-x).Floor) }

  function Pow2(n: nat): (p: nat)
    ensures p >= 1
  {
    if n == 0 then 1 else 2 * Pow2(n - 1)
  }
}
