/** Integer division as C++ defines it for `int64_t`: the quotient is
    truncated toward zero and the remainder takes the sign of the dividend.
    Dafny's own `/` and `%` are Euclidean, so both are written out here. */
module Truncated {

  /** `a / b` in C++ for a positive divisor. */
  function Div(a: int, b: int): (q: int)
    requires b > 0
    ensures a >= 0 ==> q >= 0
    ensures a <= 0 ==> q <= 0
  {
    if a >= 0 then a / b else -((-a) / b)
  }

  /** `a % b` in C++ for a positive divisor. */
  function Mod(a: int, b: int): (r: int)
    requires b > 0
    ensures b * Div(a, b) + r == a
    ensures -b < r < b
    ensures a >= 0 ==> r >= 0
    ensures a <= 0 ==> r <= 0
  {
    if a >= 0 then a % b else -((-a) % b)
  }
}
