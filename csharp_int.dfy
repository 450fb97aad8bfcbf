/**
 * The parts of C#'s 32-bit `int` arithmetic that the rasteriser relies on.
 * Dafny's `/` and `%` are Euclidean; C# truncates the quotient toward zero,
 * so the remainder takes the sign of the dividend.
 */
module CSharpInt {

  const IntMax := 0x7FFF_FFFF
  const IntMin := -0x8000_0000

  predicate IsInt32(x: int) {
    IntMin <= x <= IntMax
  }

  /** C#'s unchecked int arithmetic: x brought into the int range modulo 2^32. */
  function Wrap32(x: int): (r: int)
    ensures IsInt32(r) && (x - r) % 0x1_0000_0000 == 0
  {
    (x - IntMin) % 0x1_0000_0000 + IntMin
  }

  /** Math.Abs */
  function Abs(x: int): (r: nat)
    ensures r == x || r == -x
  {
    if x < 0 then -x else x
  }

  /** C#'s `a / b` for a positive divisor: the quotient is rounded toward zero. */
  function TruncDiv(a: int, b: int): (q: int)
    requires b > 0
    ensures a >= 0 ==> 0 <= q * b <= a < q * b + b
    ensures a <= 0 ==> q * b - b < a <= q * b <= 0
  {
    if a >= 0 then a / b else -((-a) / b)
  }

  /** C#'s `a % b` for a positive divisor: what is left after TruncDiv. */
  function TruncMod(a: int, b: int): (m: int)
    requires b > 0
    ensures a == TruncDiv(a, b) * b + m
    ensures a >= 0 ==> 0 <= m < b
    ensures a <= 0 ==> -b < m <= 0
  {
    a - TruncDiv(a, b) * b
  }
}
