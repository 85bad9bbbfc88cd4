/** Fixed-width C integer types and the C operators whose meaning differs
    from Dafny's unbounded, Euclidean integer arithmetic. */
module CTypes {

  /** uint8_t */
  type Byte = x: int | 0 <= x < 0x100
  /** int8_t */
  type Int8 = x: int | -0x80 <= x < 0x80
  /** int16_t */
  type Int16 = x: int | -0x8000 <= x < 0x8000
  /** uint16_t */
  type Uint16 = x: int | 0 <= x < 0x1_0000
  /** uint32_t */
  type Uint32 = x: int | 0 <= x < 0x1_0000_0000

  /** Conversion of an int to uint8_t: reduction modulo 2^8. */
  function ToByte(x: int): (r: Byte)
    ensures 0 <= x < 0x100 ==> r == x
    ensures (x - r) % 0x100 == 0
  {
    x % 0x100
  }

  /** Conversion of an int to int16_t as the ESP32 compiler performs it:
      the value is reduced modulo 2^16 into [-2^15, 2^15). */
  function ToInt16(x: int): (r: Int16)
    ensures -0x8000 <= x < 0x8000 ==> r == x
    ensures (x - r) % 0x1_0000 == 0
  {
    (x + 0x8000) % 0x1_0000 - 0x8000
  }

  /** Conversion of an int to uint32_t: reduction modulo 2^32. */
  function ToUint32(x: int): (r: Uint32)
    ensures 0 <= x < 0x1_0000_0000 ==> r == x
    ensures (x - r) % 0x1_0000_0000 == 0
  {
    x % 0x1_0000_0000
  }

  /** C's `%` on int: the quotient truncates toward zero, so the remainder
      takes the sign of the dividend. */
  function CRem(a: int, b: int): (r: int)
    requires b > 0
    ensures -b < r < b
    ensures a >= 0 ==> 0 <= r <= a
    ensures a < 0 ==> a <= r <= 0
    ensures -b < a < b ==> r == a
  {
    if a >= 0 then
      NatMod(a, b); a % b
    else
      NatMod(-a, b); -((-a) % b)
  }

  /** The Euclidean remainder of a natural number is no larger than it, and is
      the number itself below the divisor. */
  lemma NatMod(a: nat, b: nat)
    requires b > 0
    ensures 0 <= a % b <= a
    ensures a < b ==> a % b == a
  {
    assert a == b * (a / b) + a % b;
    assert a / b >= 0;
    assert b * (a / b) >= 0;
  }

  /** C's abs() on int. */
  function CAbs(x: int): (r: nat)
    ensures r == x || r == -x
  {
    if x < 0 then -x else x
  }

  /** Adding a multiple of the modulus does not change a Euclidean remainder. */
  lemma ModShift(a: int, m: int, q: int)
    requires m > 0
    ensures (a + m * q) % m == a % m
  {
    var b := a + m * q;
    var k := a / m + q - b / m;
    assert b % m - a % m == m * k;
  }

  /** Narrowing to int16_t ignores multiples of 2^16. */
  lemma Int16Shift(x: int, q: int)
    ensures ToInt16(x + 0x1_0000 * q) == ToInt16(x)
  {
    ModShift(x + 0x8000, 0x1_0000, q);
  }

  /** Narrowing to uint32_t first and then to int16_t is the same as narrowing
      to int16_t directly: 2^16 divides 2^32. */
  lemma Int16OfUint32(x: int)
    ensures ToInt16(ToUint32(x)) == ToInt16(x)
  {
    var q := x / 0x1_0000_0000;
    assert ToUint32(x) == x + 0x1_0000 * (-0x1_0000 * q);
    Int16Shift(x, -0x1_0000 * q);
  }
}
