/**
 * Views of C integer types used by the firmware: the signed value of a
 * 16- or 32-bit pattern (two's complement), wrap-around into int16_t, and
 * C's division, which truncates toward zero.
 */
module CInt {

  lemma BvBound16(b: bv16)
    ensures 0 <= b as int < 0x1_0000
  {}

  lemma BvBound32(b: bv32)
    ensures 0 <= b as int < 0x1_0000_0000
  {}

  /** The value an int16_t holding the bit pattern `b` has. */
  function ToInt16(b: bv16): (r: int)
    ensures -0x8000 <= r < 0x8000
    ensures r == b as int || r == b as int - 0x1_0000
  {
    var n := b as int;
    BvBound16(b);
    if n < 0x8000 then n else n - 0x1_0000
  }

  /** The value an int32_t holding the bit pattern `b` has. */
  function ToInt32(b: bv32): (r: int)
    ensures -0x8000_0000 <= r < 0x8000_0000
    ensures r == b as int || r == b as int - 0x1_0000_0000
  {
    var n := b as int;
    BvBound32(b);
    if n < 0x8000_0000 then n else n - 0x1_0000_0000
  }

  /** The value an int16_t takes when assigned the int `x` (wrap-around modulo 2^16). */
  function Wrap16(x: int): (r: int)
    ensures -0x8000 <= r < 0x8000
    ensures (r - x) % 0x1_0000 == 0
  {
    (x + 0x8000) % 0x1_0000 - 0x8000
  }

  /** C's `a / b`: the quotient truncated toward zero. */
  function TruncDiv(a: int, b: int): (q: int)
    requires b != 0
    ensures 0 <= a && 0 < b ==> q == a / b
    ensures a < 0 && 0 < b ==> q == -((-a) / b)
  {
    if (a < 0) == (b < 0) then Abs(a) / Abs(b) else -(Abs(a) / Abs(b))
  }

  function Abs(x: int): nat { if x < 0 then -x else x }
}
