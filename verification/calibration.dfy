/** The temperature calibration coefficients of a BMP280 and their layout in
    the six-byte block at register 0x88 (section 3.11.2 of the Bosch BMP280
    datasheet): dig_T1 unsigned, dig_T2 and dig_T3 signed, each 16 bits,
    little-endian. */
module Calibration {
  import opened CInt

  datatype Calib = Calib(t1: uint16, t2: int16, t3: int16)

  /** The driver keeps the coefficients in zero-initialised static storage. */
  const Uncalibrated: Calib := Calib(0, 0, 0)

  /** The six calibration bytes, in register order 0x88..0x8D. */
  type Block6 = s: seq<byte> | |s| == 6 witness [0, 0, 0, 0, 0, 0]

  /** `(hi << 8) | lo` on two bytes: the two operands occupy disjoint bits. */
  function Word(lo: byte, hi: byte): (w: uint16)
    ensures w % 0x100 == lo && w / 0x100 == hi
  {
    hi * 0x100 + lo
  }

  /** On 32-bit patterns of two bytes, the C expression's OR is the sum `Word` computes. */
  lemma WordIsBitwiseOr(lo: bv8, hi: bv8)
    ensures ((hi as bv32) << 8) | (lo as bv32) == (hi as bv32) * 0x100 + (lo as bv32)
  {
  }

  /** The coefficient assignments of the calibration read. */
  function Decode(b: Block6): (c: Calib)
    ensures c.t1 % 0x100 == b[0] && c.t1 / 0x100 == b[1]
    ensures (c.t2 - b[2] - b[3] as int * 0x100) % 0x1_0000 == 0
    ensures (c.t3 - b[4] - b[5] as int * 0x100) % 0x1_0000 == 0
  {
    Calib(Word(b[0], b[1]), ToInt16(Word(b[2], b[3])), ToInt16(Word(b[4], b[5])))
  }

  /** The calibration block a sensor holding `c` presents. */
  function Encode(c: Calib): (b: Block6)
    ensures b[0] + b[1] as int * 0x100 == c.t1
  {
    var p2 := FromInt16(c.t2);
    var p3 := FromInt16(c.t3);
    [c.t1 % 0x100, c.t1 / 0x100, p2 % 0x100, p2 / 0x100, p3 % 0x100, p3 / 0x100]
  }

  /** Every coefficient triple survives being laid out and decoded again. */
  lemma DecodeEncode(c: Calib)
    ensures Decode(Encode(c)) == c
  {
    var b := Encode(c);
    assert Word(b[2], b[3]) == FromInt16(c.t2);
    assert Word(b[4], b[5]) == FromInt16(c.t3);
    Int16RoundTrip(c.t2, 0);
    Int16RoundTrip(c.t3, 0);
  }

  /** Decoding loses nothing: every block is the layout of the triple it decodes to. */
  lemma EncodeDecode(b: Block6)
    ensures Encode(Decode(b)) == b
  {
    var c := Decode(b);
    Int16RoundTrip(0, Word(b[2], b[3]));
    Int16RoundTrip(0, Word(b[4], b[5]));
    assert FromInt16(c.t2) == Word(b[2], b[3]);
    assert FromInt16(c.t3) == Word(b[4], b[5]);
  }
}
