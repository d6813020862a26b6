/**
 * Fixed-width unsigned integers of the C programs and the conversions
 * between them: `uint8_t` bytes, `uint16_t` register values, and the
 * big-endian `hi << 8 | lo` composition Modbus uses for 16-bit fields.
 */
module Bytes {

  /** A C `uint8_t`. */
  type byte = b: int | 0 <= b < 0x100

  /** A C `uint16_t`: one Modbus register. */
  type u16 = w: int | 0 <= w < 0x1_0000

  /** Conversion of a C `int` to `uint8_t` (reduction modulo 2^8). */
  function Trunc8(x: int): (b: byte)
    ensures 0 <= x < 0x100 ==> b == x
    ensures (x - b) % 0x100 == 0
  {
    x % 0x100
  }

  /** Conversion of a C `int`/`long` to `uint16_t` (reduction modulo 2^16). */
  function Trunc16(x: int): (w: u16)
    ensures 0 <= x < 0x1_0000 ==> w == x
    ensures (x - w) % 0x1_0000 == 0
  {
    x % 0x1_0000
  }

  /** `hi << 8 | lo` for two bytes: a big-endian 16-bit field. */
  function Word(hi: byte, lo: byte): (w: u16)
    ensures HighByte(w) == hi && LowByte(w) == lo
  {
    hi * 0x100 + lo
  }

  /** `(w >> 8) & 0xFF`: the byte sent first. */
  function HighByte(w: u16): byte
  {
    w / 0x100
  }

  /** `w & 0xFF`: the byte sent second. */
  function LowByte(w: u16): byte
  {
    w % 0x100
  }

  /** Splitting a register into its two bytes and joining them again gives it back. */
  lemma WordOfBytes(w: u16)
    ensures Word(HighByte(w), LowByte(w)) == w
  {
  }

  /**
   * Taking the two low bytes of an `int` the way the C code does,
   * `(uint8_t)(x >> 8)` and `(uint8_t)x` (with an arithmetic right shift),
   * and joining them again gives `(uint16_t)x`.
   */
  lemma WordOfTruncatedBytes(x: int)
    ensures Word(Trunc8(x / 0x100), Trunc8(x)) == Trunc16(x)
  {
    var q, r := x / 0x100, x % 0x100;
    var qq, qr := q / 0x100, q % 0x100;
    assert Trunc8(x) == r && Trunc8(q) == qr;
    assert x == qq * 0x1_0000 + (qr * 0x100 + r);
    EuclideanUnique(x, qq, qr * 0x100 + r);
  }

  /** Euclidean division by 2^16 is determined by quotient and remainder. */
  lemma EuclideanUnique(x: int, q: int, r: int)
    requires 0 <= r < 0x1_0000 && x == q * 0x1_0000 + r
    ensures x % 0x1_0000 == r
  {
  }
}
