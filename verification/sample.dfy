/** The raw 20-bit temperature sample and its layout in registers 0xFA..0xFC
    (temp_msb, temp_lsb, temp_xlsb; sections 3.11.2 and 4.3.7 of the Bosch
    BMP280 datasheet): bits 19..12, bits 11..4, and bits 3..0 in the high
    nibble of temp_xlsb. */
module Sample {
  import opened CInt

  const SampleLimit: int := 0x10_0000

  /** The three temperature data bytes, in register order 0xFA..0xFC. */
  type Block3 = s: seq<byte> | |s| == 3 witness [0, 0, 0]

  /** `(data[0] << 12) | (data[1] << 4) | (data[2] >> 4)`; the three operands
      occupy disjoint bits, so the OR is their sum. */
  function Assemble(data: Block3): (raw: int)
    ensures 0 <= raw < SampleLimit
    ensures raw / 0x1000 == data[0]
    ensures (raw / 0x10) % 0x100 == data[1]
    ensures raw % 0x10 == data[2] / 0x10
  {
    Pow2Values();
    var raw := Shl(data[0], 12) + Shl(data[1], 4) + Asr(data[2], 4);
    var hi: int, mid: int, low: int := data[0], data[1], data[2] / 0x10;
    assert raw == hi * 0x1000 + (mid * 0x10 + low);
    assert raw / 0x10 == hi * 0x100 + mid;
    raw
  }

  /** On 32-bit patterns of three bytes, the C expression's ORs are the sum `Assemble` computes. */
  lemma AssembleIsBitwiseOr(d0: bv8, d1: bv8, d2: bv8)
    ensures ((d0 as bv32) << 12) | ((d1 as bv32) << 4) | ((d2 as bv32) >> 4)
         == (d0 as bv32) * 0x1000 + (d1 as bv32) * 0x10 + (d2 as bv32) / 0x10
  {
  }

  /** The registers of a sensor holding sample `raw`, with `junk` in the low
      nibble of temp_xlsb (which the driver discards). */
  function Registers(raw: int, junk: int): (data: Block3)
    requires 0 <= raw < SampleLimit
    requires 0 <= junk < 0x10
    ensures data[2] % 0x10 == junk
  {
    [raw / 0x1000, (raw / 0x10) % 0x100, (raw % 0x10) * 0x10 + junk]
  }

  /** Every 20-bit sample is recovered from its registers, whatever the discarded nibble. */
  lemma AssembleRegisters(raw: int, junk: int)
    requires 0 <= raw < SampleLimit
    requires 0 <= junk < 0x10
    ensures Assemble(Registers(raw, junk)) == raw
  {
    Pow2Values();
    var hi, mid, lo := raw / 0x1000, (raw / 0x10) % 0x100, raw % 0x10;
    assert raw / 0x10 == hi * 0x100 + mid;
    assert raw == (raw / 0x10) * 0x10 + lo;
    assert ((raw % 0x10) * 0x10 + junk) / 0x10 == lo;
  }

  /** Register contents are determined by the sample they assemble to, except the low nibble of temp_xlsb. */
  lemma RegistersAssemble(data: Block3)
    ensures Registers(Assemble(data), data[2] % 0x10) == data
  {
    Pow2Values();
  }
}
