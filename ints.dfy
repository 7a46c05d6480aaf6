/** Fixed-width integers of the AVR target (where `int` is 16 bits wide) and the
    C conversions and operators between them. Values are mathematical integers
    restricted to their range; every narrowing conversion is written out. */
module Ints {

  type uint8 = x: int | 0 <= x < 0x100
  type uint16 = x: int | 0 <= x < 0x1_0000
  type int16 = x: int | -0x8000 <= x < 0x8000

  /** Conversion to uint8: keeps the low 8 bits. */
  function ToU8(x: int): (r: uint8)
    ensures (r - x) % 0x100 == 0
    ensures 0 <= x < 0x100 ==> r == x
  {
    x % 0x100
  }

  /** Conversion to uint16: keeps the low 16 bits. */
  function ToU16(x: int): (r: uint16)
    ensures (r - x) % 0x1_0000 == 0
    ensures 0 <= x < 0x1_0000 ==> r == x
  {
    x % 0x1_0000
  }

  /** Conversion to int16: the two's complement reading of the low 16 bits. */
  function ToI16(x: int): (r: int16)
    ensures (r - x) % 0x1_0000 == 0
    ensures -0x8000 <= x < 0x8000 ==> r == x
  {
    var u := x % 0x1_0000;
    if u < 0x8000 then u else u - 0x1_0000
  }

  /** Reading an int16 as uint16 and back gives the original value. */
  lemma I16U16RoundTrip(v: int16)
    ensures ToI16(ToU16(v)) == v
    ensures ToU16(ToI16(v)) == ToU16(v)
  {
  }

  /** Storing any int in a uint16 and reading it back as int16 is the int16 conversion. */
  lemma I16OfU16(x: int)
    ensures ToI16(ToU16(x)) == ToI16(x)
  {
  }

  /** C's `/`: truncates toward zero. */
  function CDiv(a: int, b: int): (q: int)
    requires b > 0
    ensures a >= 0 ==> q * b <= a < q * b + b
    ensures a < 0 ==> q * b - b < a <= q * b
  {
    if a >= 0 then a / b else -((-a) / b)
  }

  /** C's `%`: the remainder takes the sign of the dividend. */
  function CRem(a: int, b: int): (r: int)
    requires b > 0
    ensures a == CDiv(a, b) * b + r
    ensures a >= 0 ==> 0 <= r < b
    ensures a < 0 ==> -b < r <= 0
  {
    if a >= 0 then a % b else -((-a) % b)
  }
}
