/** Values of `Math.random()`, which both the attitude pick and the path generator scale. */
module Draws {

  /** A value of `Math.random()`: a real in [0, 1). */
  type Fraction = u: real | 0.0 <= u < 1.0

  /** `u * n`: a draw stretched over [0, n) whenever `n` is positive. */
  function Scale(u: Fraction, n: int): (x: real)
    ensures n > 0 ==> 0.0 <= x < n as real
  {
    if n <= 0 then u * n as real
    else
      MulBelow(u, n as real);
      u * n as real
  }

  lemma MulBelow(u: real, m: real)
    requires 0.0 <= u < 1.0 && 0.0 < m
    ensures 0.0 <= u * m < m
  {
    assert m - u * m == (1.0 - u) * m;
    assert (1.0 - u) * m > 0.0;
  }
}
