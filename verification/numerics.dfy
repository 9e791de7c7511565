/** C#'s fixed-width integer arithmetic and rounding, written out on unbounded integers. */
module Numerics {

  const Int32Min: int := -0x8000_0000
  const Int32Max: int := 0x7FFF_FFFF

  /** C#'s `int`. */
  type int32 = x: int | -0x8000_0000 <= x < 0x8000_0000

  function Abs(x: int): (r: nat)
    ensures r == x || r == -x
  {
    if x < 0 then -x else x
  }

  /** The result of an unchecked 32-bit `+`, `++` or `+=`: the mathematical
      value reduced modulo 2^32 into the int range. */
  function Wrap32(x: int): (r: int32)
    ensures Int32Min <= x <= Int32Max ==> r == x
    ensures (x - r) % 0x1_0000_0000 == 0
  {
    (x + 0x8000_0000) % 0x1_0000_0000 - 0x8000_0000
  }

  /** C#'s `a / b` on `int`: division truncated toward zero. */
  function TruncDiv(a: int, b: int): int
    requires b != 0
  {
    if a >= 0 then a / b else -((-a) / b)
  }

  /** C#'s `a % b` on `int`: the remainder of division truncated toward zero,
      so it takes the sign of the dividend. */
  function TruncRem(a: int, b: int): (r: int)
    requires b != 0
    ensures a >= 0 ==> 0 <= r < Abs(b)
    ensures a < 0 ==> r <= 0 && -r < Abs(b)
    ensures a == TruncDiv(a, b) * b + r
  {
    if a >= 0 then a % b else -((-a) % b)
  }

  /** The integer nearest to `num / den`, a tie going to the even neighbour
      (`MidpointRounding.ToEven`, the default of `Math.Round`). */
  function RoundHalfEven(num: int, den: int): (r: int)
    requires den > 0
    ensures den * (2 * r - 1) <= 2 * num <= den * (2 * r + 1)
    ensures 2 * num == den * (2 * r - 1) || 2 * num == den * (2 * r + 1) ==> r % 2 == 0
  {
    var q, rem := num / den, num % den;
    assert num == den * q + rem;
    // every product below is a multiple of den * q plus a multiple of den
    assert den * (2 * q - 1) == 2 * (den * q) - den;
    assert den * (2 * q + 1) == 2 * (den * q) + den;
    assert den * (2 * (q + 1) - 1) == 2 * (den * q) + den;
    assert den * (2 * (q + 1) + 1) == 2 * (den * q) + 3 * den;
    if 2 * rem < den then q
    else if 2 * rem > den then q + 1
    else if q % 2 == 0 then q
    else q + 1
  }
}
