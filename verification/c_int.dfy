/** C integer types and operators of the driver, stated over unbounded `int`.
    Widths are explicit subset types; `>>` on a signed value is GCC's
    arithmetic shift, which rounds toward minus infinity; conversions to a
    narrower signed type keep the value modulo 2^width, as GCC defines them. */
module CInt {

  /** `uint8_t` */
  type byte = b: int | 0 <= b < 0x100

  /** `uint16_t` */
  type uint16 = x: int | 0 <= x < 0x1_0000

  /** `int16_t` */
  type int16 = x: int | -0x8000 <= x < 0x8000

  const INT32_MIN: int := -0x8000_0000
  const INT32_MAX: int := 0x7FFF_FFFF

  /** The value is representable in `int32_t`; outside it signed arithmetic is undefined. */
  predicate InInt32(x: int) {
    INT32_MIN <= x <= INT32_MAX
  }

  /** The value is representable in a 16-bit `int` (the AVR's). */
  predicate InInt16(x: int) {
    -0x8000 <= x < 0x8000
  }

  function Pow2(k: nat): (p: nat)
    ensures p >= 1
  {
    if k == 0 then 1 else 2 * Pow2(k - 1)
  }

  /** The shift distances the driver uses. */
  lemma Pow2Values()
    ensures Pow2(3) == 8 && Pow2(4) == 16 && Pow2(8) == 256
    ensures Pow2(11) == 2048 && Pow2(12) == 4096 && Pow2(14) == 16384
  {
  }

  /** `x << k`, for a result that does not overflow. */
  function Shl(x: int, k: nat): int {
    x * Pow2(k)
  }

  /** `x >> k` on a signed value (GCC: arithmetic shift). */
  function Asr(x: int, k: nat): (r: int)
    ensures Pow2(k) * r <= x < Pow2(k) * r + Pow2(k)
  {
    x / Pow2(k)
  }

  /** Conversion of a 16-bit pattern to `int16_t`: the one `int16` congruent to it modulo 2^16. */
  function ToInt16(v: uint16): (r: int16)
    ensures (r - v) % 0x1_0000 == 0
  {
    if v < 0x8000 then v else v - 0x1_0000
  }

  /** The 16-bit two's-complement pattern of an `int16_t`. */
  function FromInt16(x: int16): (v: uint16)
    ensures (x - v) % 0x1_0000 == 0
  {
    if x < 0 then x + 0x1_0000 else x
  }

  /** The two conversions are inverse bijections between `uint16` and `int16`. */
  lemma Int16RoundTrip(x: int16, v: uint16)
    ensures ToInt16(FromInt16(x)) == x
    ensures FromInt16(ToInt16(v)) == v
  {
  }
}
