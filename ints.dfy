/** The fixed-width integer types of the .NET runtime, as ranges of `int`,
    with the truncating conversions C# performs in an `unchecked` context. */
module Ints {

  const TWO_8: int := 0x100
  const TWO_16: int := 0x1_0000
  const TWO_31: int := 0x8000_0000
  const TWO_32: int := 0x1_0000_0000
  const TWO_63: int := 0x8000_0000_0000_0000

  type uint8 = x: int | 0 <= x < TWO_8
  type uint16 = x: int | 0 <= x < TWO_16
  type uint32 = x: int | 0 <= x < TWO_32
  type int16 = x: int | -0x8000 <= x < 0x8000
  type int32 = x: int | -TWO_31 <= x < TWO_31
  type int64 = x: int | -TWO_63 <= x < TWO_63

  /** `(ushort)x`: keep the low 16 bits. */
  function ToUInt16(x: int): (r: uint16)
    ensures 0 <= x < TWO_16 ==> r == x
    ensures (r - x) % TWO_16 == 0
  {
    x % TWO_16
  }

  /** `(uint)x`: keep the low 32 bits. */
  function ToUInt32(x: int): (r: uint32)
    ensures 0 <= x < TWO_32 ==> r == x
    ensures (r - x) % TWO_32 == 0
  {
    x % TWO_32
  }

  /** `(int)x` for a `long`, and the result of `int` arithmetic that
      overflows: keep the low 32 bits as two's complement. */
  function ToInt32(x: int): (r: int32)
    ensures -TWO_31 <= x < TWO_31 ==> r == x
    ensures (r - x) % TWO_32 == 0
  {
    var u := x % TWO_32;
    if u < TWO_31 then u else u - TWO_32
  }

  /** Quotient and remainder of a natural number by a positive one. */
  lemma DivBounds(a: int, b: int)
    requires a >= 0 && b > 0
    ensures a / b >= 0 && 0 <= a % b < b
  {
    var q, r := a / b, a % b;
    assert a == q * b + r;
    NegativeTimesPositive(q, b);
  }

  lemma NegativeTimesPositive(q: int, b: int)
    requires b > 0
    ensures q < 0 ==> q * b <= -b
  {
    if q < 0 {
      var m := -q - 1;
      assert q * b == -(m * b) - b;
      assert m * b >= 0;
    }
  }

  lemma ModSmall(x: int)
    requires 0 <= x < TWO_32
    ensures x % TWO_32 == x
  {
  }

  /** Reducing modulo 2^32 early does not change the final reduction. */
  lemma ModAbsorb(r: int, a: int, b: int)
    requires r == a % TWO_32
    ensures (r + b) % TWO_32 == (a + b) % TWO_32
  {
    var q := a / TWO_32;
    assert a == q * TWO_32 + r;
    assert a + b == (r + b) + q * TWO_32;
  }

  /** `(int)u` for a `uint`: reinterpret the 32 bits as two's complement. */
  function UInt32ToInt32(u: uint32): (r: int32)
    ensures ToUInt32(r) == u
  {
    if u < TWO_31 then u else u - TWO_32
  }
}
