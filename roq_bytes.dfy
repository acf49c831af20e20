/**
 * Bytes and the little-endian fields of a RoQ stream: 16-bit and 24-bit
 * unsigned values, and the signed char the motion offsets are read as.
 */
module RoqBytes {
  /** One byte of the stream. */
  type Byte = b: int | 0 <= b < 256

  /** `lo + hi * 256`, how every 16-bit field of the stream is assembled. */
  function LE16(lo: Byte, hi: Byte): (v: int)
    ensures 0 <= v < 0x1_0000
    ensures v % 256 == lo && v / 256 == hi
  {
    lo + hi * 256
  }

  /** `b0 + b1 * 256 + b2 * 65536`, the 24-bit chunk size. */
  function LE24(b0: Byte, b1: Byte, b2: Byte): (v: int)
    ensures 0 <= v < 0x100_0000
    ensures v % 256 == b0 && (v / 256) % 256 == b1 && v / 0x1_0000 == b2
  {
    b0 + b1 * 256 + b2 * 0x1_0000
  }

  /** The two bytes of a 16-bit value, low byte first. */
  function Bytes16(v: int): (b: seq<Byte>)
    requires 0 <= v < 0x1_0000
    ensures |b| == 2
  {
    [v % 256, v / 256]
  }

  /** The three bytes of a 24-bit value, low byte first. */
  function Bytes24(v: int): (b: seq<Byte>)
    requires 0 <= v < 0x100_0000
    ensures |b| == 3
  {
    [v % 256, (v / 256) % 256, v / 0x1_0000]
  }

  /** Reading the bytes of a value back gives the value; so no two values share their bytes. */
  lemma LittleEndianRoundTrip(v16: int, v24: int)
    requires 0 <= v16 < 0x1_0000 && 0 <= v24 < 0x100_0000
    ensures LE16(Bytes16(v16)[0], Bytes16(v16)[1]) == v16
    ensures LE24(Bytes24(v24)[0], Bytes24(v24)[1], Bytes24(v24)[2]) == v24
  {
    assert v16 == v16 % 256 + (v16 / 256) * 256;
    var m := v24 / 256;
    assert v24 == v24 % 256 + m * 256 && m == m % 256 + (m / 256) * 256;
    assert m / 256 == v24 / 0x1_0000;
  }

  /**
   * `(char)b` on the compilers the stream targets: a byte at or above 128
   * stands for b - 256.
   */
  function SignedChar(b: Byte): (c: int)
    ensures -128 <= c < 128
    ensures (c - b) % 256 == 0
    ensures b < 128 <==> c == b
  {
    if b < 128 then b else b - 256
  }
}
