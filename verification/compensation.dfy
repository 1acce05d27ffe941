/** The 32-bit fixed-point temperature compensation of section 3.11.3 of the
    Bosch BMP280 datasheet, as `bmp280_compensate_temperature` computes it.
    Every value is the exact mathematical one; `Defined` says when every
    intermediate of the C expression fits `int32_t`, i.e. when the C code
    has defined behaviour and computes exactly these values. */
module Compensation {
  import opened CInt
  import opened Calibration
  import Sample

  /** The intermediates of the compensation, in evaluation order. */
  datatype Stages = Stages(
    diff1: int,   // (raw >> 3) - (T1 << 1)
    prod1: int,   // diff1 * T2
    var1: int,    // prod1 >> 11
    diff2: int,   // (raw >> 4) - T1
    square: int,  // diff2 * diff2
    prod2: int,   // (square >> 12) * T3
    var2: int,    // prod2 >> 14
    tFine: int,   // var1 + var2
    scaled: int,  // tFine * 5
    biased: int)  // tFine * 5 + 128

  /** The stages of the compensation. The two right shifts round toward minus
      infinity, the square is non-negative (so its shift is plain division),
      and t_fine is the sum of the two corrections. */
  function Pipeline(raw: int, c: Calib): (s: Stages)
    ensures 2048 * s.var1 <= s.prod1 < 2048 * s.var1 + 2048
    ensures 16384 * s.var2 <= s.prod2 < 16384 * s.var2 + 16384
    ensures 0 <= s.square
    ensures s.tFine == s.var1 + s.var2
  {
    Pow2Values();
    var diff1 := Asr(raw, 3) - Shl(c.t1, 1);
    var prod1 := diff1 * c.t2;
    var var1 := Asr(prod1, 11);
    var diff2 := Asr(raw, 4) - c.t1;
    var square := diff2 * diff2;
    var prod2 := Asr(square, 12) * c.t3;
    var var2 := Asr(prod2, 14);
    var tFine := var1 + var2;
    Stages(diff1, prod1, var1, diff2, square, prod2, var2, tFine, tFine * 5, tFine * 5 + 128)
  }

  /** Every `int32_t` intermediate of the C expression is in range. */
  predicate Defined(raw: int, c: Calib) {
    var s := Pipeline(raw, c);
    && InInt32(raw)
    && InInt32(s.diff1) && InInt32(s.prod1) && InInt32(s.var1)
    && InInt32(s.diff2) && InInt32(s.square) && InInt32(s.prod2) && InInt32(s.var2)
    && InInt32(s.tFine) && InInt32(s.scaled) && InInt32(s.biased)
  }

  /** The last step, `(t * 5 + 128) >> 8`: t * 5 / 256 rounded to the nearest
      integer, halves rounded up. */
  function RoundHundredths(t: int): (r: int)
    ensures 256 * r - 128 <= 5 * t < 256 * r + 128
  {
    Asr(t * 5 + 128, 8)
  }

  /** Temperature in hundredths of a degree Celsius: t_fine * 5 / 256 rounded
      to nearest, which fits the function's `int32_t` result whenever the C
      expression is defined. */
  function Compensate(raw: int, c: Calib): (r: int)
    ensures 256 * r - 128 <= 5 * Pipeline(raw, c).tFine < 256 * r + 128
    ensures Defined(raw, c) ==> InInt32(r)
  {
    Pow2Values();
    RoundHundredths(Pipeline(raw, c).tFine)
  }

  /** The worked example of the datasheet's calibration values. */
  const Reference: Calib := Calib(27504, 26435, -1000)

  /** With the datasheet's coefficients, raw 519888 gives t_fine 128422 and 25.08 degrees. */
  lemma ReferenceVector()
    ensures Pipeline(519888, Reference).tFine == 128422
    ensures Compensate(519888, Reference) == 2508
    ensures Defined(519888, Reference)
  {
    var s := Pipeline(519888, Reference);
    assert s.diff1 == 9978;
    assert s.var1 == 128793;
    assert s.diff2 == 4989;
    assert s.var2 == -371;
  }

  lemma SquareBound(x: int, m: int)
    requires 0 <= m
    requires -m <= x <= m
    ensures 0 <= x * x <= m * m
  {
    if x >= 0 {
      assert x * x <= x * m;
    } else {
      assert x * x == (-x) * (-x);
      assert (-x) * (-x) <= (-x) * m;
    }
    assert x * m <= m * m && (-x) * m <= m * m;
  }

  /** With the datasheet's coefficients the C code is defined on the whole 20-bit sample range. */
  lemma ReferenceDefinedEverywhere(raw: int)
    requires 0 <= raw < Sample.SampleLimit
    ensures Defined(raw, Reference)
  {
    Pow2Values();
    var s := Pipeline(raw, Reference);
    assert 0 <= Asr(raw, 3) < 131072;
    assert -55008 <= s.diff1 <= 76063;
    assert s.prod1 == s.diff1 * 26435;
    assert -1454136480 <= s.prod1 <= 2010725405;
    assert -710028 <= s.var1 <= 981799;
    assert -27504 <= s.diff2 <= 38031;
    SquareBound(s.diff2, 38031);
    assert 0 <= s.square <= 1446356961;
    assert 0 <= Asr(s.square, 12) <= 353114;
    assert s.prod2 == Asr(s.square, 12) * -1000;
    assert -353114000 <= s.prod2 <= 0;
    assert -21553 <= s.var2 <= 0;
  }

  /** Some 16-bit coefficients make the C expression overflow already at raw 0. */
  lemma ExtremeCoefficientsOverflow()
    ensures !Defined(0, Calib(65535, -32768, 0))
  {
    assert Pipeline(0, Calib(65535, -32768, 0)).prod1 == 4294901760;
  }

  /** Before calibration (all coefficients zero) every sample compensates to 0. */
  lemma UncalibratedIsZero(raw: int)
    ensures Compensate(raw, Uncalibrated) == 0
  {
    var s := Pipeline(raw, Uncalibrated);
    assert s.prod1 == 0 && s.prod2 == 0;
  }

  /** 46340 is the largest square root that fits `int32_t`. */
  lemma SquareFits(q: int)
    requires 0 <= q
    ensures InInt32(q * q) <==> q <= 46340
  {
    if q <= 46340 {
      SquareBound(q, 46340);
    } else {
      assert q * q >= 46341 * q;
      assert 46341 * q >= 46341 * 46341;
    }
  }

  /** ... but the C code is defined only up to raw 741455: above that `(raw >> 4)^2` leaves `int32_t`. */
  lemma UncalibratedDefinedExactlyBelow(raw: int)
    requires 0 <= raw < Sample.SampleLimit
    ensures Defined(raw, Uncalibrated) <==> raw < 741456
  {
    Pow2Values();
    var s := Pipeline(raw, Uncalibrated);
    var q := raw / 16;
    assert s.diff2 == q;
    assert s.prod1 == 0 && s.prod2 == 0 && s.tFine == 0;
    SquareFits(q);
    assert q <= 46340 <==> raw < 741456;
  }
}
