/** C#'s `int`: 32-bit two's complement, with unchecked (wrapping) arithmetic. */
module Int32 {
  const MIN: int := -0x8000_0000
  const MAX: int := 0x7FFF_FFFF
  const MODULUS: int := 0x1_0000_0000

  type int32 = x: int | -0x8000_0000 <= x <= 0x7FFF_FFFF

  /** The value an unchecked C# `int` expression yields for the mathematical result `x`. */
  function Wrap(x: int): (r: int32)
    ensures MIN <= x <= MAX ==> r == x
    ensures MAX < x <= MAX + MODULUS ==> r == x - MODULUS
    ensures MIN - MODULUS <= x < MIN ==> r == x + MODULUS
    ensures (x - r) % MODULUS == 0
  {
    var k := (x - MIN) / MODULUS;
    assert x - MIN == k * MODULUS + (x - MIN) % MODULUS;
    assert MIN <= x <= MAX ==> k == 0;
    assert MAX < x <= MAX + MODULUS ==> k == 1;
    assert MIN - MODULUS <= x < MIN ==> k == -1;
    (x - MIN) % MODULUS + MIN
  }
}
