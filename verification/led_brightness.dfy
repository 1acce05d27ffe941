/** Five-channel LED brightness control: five `uint8_t` duty cycles in
    percent, stepped by 10 with wrap-around to 0 on every serviced timer
    overflow, and scaled to the timers' compare registers. */
module LedBrightness {
  import opened CInt
  import opened DutyCycle

  const MaxValue: int := 255
  const Channels: int := 5
  const Timers: int := 3

  /** The `dutycycle` array. */
  type Duties = s: seq<byte> | |s| == 5 witness [0, 0, 0, 0, 0]

  /** The initial contents of `dutycycle`. */
  const Initial: Duties := [10, 20, 30, 40, 50]

  /** `dutycycle[j] += 10; if (dutycycle[j] > MAXDC) dutycycle[j] = MINDC;`
      on a `uint8_t`: the sum is stored modulo 256 before the comparison. */
  function StepChannel(d: byte): (r: byte)
    ensures r <= MaxDc
    ensures OnGrid(d) ==> d + Increment < 0x100 && r == Advance(d)
  {
    var v := (d + Increment) % 0x100;
    if v > MaxDc then MinDc else v
  }

  /** One pass of the inner loop: every channel is stepped by the same rule,
      so every channel ends in [0,100], and a channel on the grid takes the
      plain update. */
  function Step(ds: Duties): (r: Duties)
    ensures forall j :: 0 <= j < Channels ==> r[j] <= MaxDc
    ensures forall j :: 0 <= j < Channels && OnGrid(ds[j]) ==> r[j] == Advance(ds[j])
  {
    seq(5, j requires 0 <= j < 5 => StepChannel(ds[j]))
  }

  /** The inner `for (j ...)` loop, in place. */
  method StepInPlace(ds: Duties) returns (r: Duties)
    ensures r == Step(ds)
  {
    r := ds;
    var j := 0;
    while j < Channels
      invariant 0 <= j <= Channels
      invariant forall k :: 0 <= k < j ==> r[k] == StepChannel(ds[k])
      invariant forall k :: j <= k < Channels ==> r[k] == ds[k]
    {
      r := r[j := StepChannel(r[j])];
      j := j + 1;
    }
  }

  /** The duty cycles after `n` steps. */
  function Steps(ds: Duties, n: nat): Duties {
    if n == 0 then ds else Step(Steps(ds, n - 1))
  }

  /** One channel after `n` steps. */
  function ChannelAfter(d: byte, n: nat): byte {
    if n == 0 then d else StepChannel(ChannelAfter(d, n - 1))
  }

  /** Channels evolve independently: each is driven by its own value only. */
  lemma {:induction false} StepsPerChannel(ds: Duties, n: nat, j: int)
    requires 0 <= j < Channels
    ensures Steps(ds, n)[j] == ChannelAfter(ds[j], n)
  {
    if n > 0 {
      StepsPerChannel(ds, n - 1, j);
    }
  }

  /** A channel that starts on the grid follows the grid cycle. */
  lemma {:induction false} ChannelAfterOnGrid(d: byte, n: nat)
    requires OnGrid(d)
    ensures ChannelAfter(d, n) == Iterate(d, n)
  {
    if n > 0 {
      ChannelAfterOnGrid(d, n - 1);
      IteratePeriod(d, n - 1);
    }
  }

  lemma InitialOnGrid(j: int)
    requires 0 <= j < Channels
    ensures Initial[j] == 10 * (j + 1) && OnGrid(Initial[j])
  {
  }

  /** From the initial values every channel stays on the grid, whatever the number of steps. */
  lemma InitialStaysOnGrid(n: nat, j: int)
    requires 0 <= j < Channels
    ensures OnGrid(Steps(Initial, n)[j])
  {
    InitialOnGrid(j);
    StepsPerChannel(Initial, n, j);
    ChannelAfterOnGrid(Initial[j], n);
    IteratePeriod(Initial[j], n);
  }

  /** From the initial values each channel, and so the whole array, returns
      to its start after exactly 11 steps, and not before. */
  lemma InitialPeriod(n: nat, j: int)
    requires 0 <= j < Channels
    ensures Steps(Initial, n + 11)[j] == Steps(Initial, n)[j]
    ensures 0 < n < 11 ==> Steps(Initial, n)[j] != Initial[j]
  {
    InitialOnGrid(j);
    StepsPerChannel(Initial, n + 11, j);
    StepsPerChannel(Initial, n, j);
    ChannelAfterOnGrid(Initial[j], n + 11);
    ChannelAfterOnGrid(Initial[j], n);
    IteratePeriod(Initial[j], n);
  }

  /** Channel `j` starts at 10(j+1), reaches 100 after 9 - j steps, and is 0 on the next one. */
  lemma InitialReachesFullThenWraps(j: int)
    requires 0 <= j < Channels
    ensures Steps(Initial, 9 - j)[j] == MaxDc
    ensures Steps(Initial, 10 - j)[j] == MinDc
  {
    InitialOnGrid(j);
    StepsPerChannel(Initial, 9 - j, j);
    StepsPerChannel(Initial, 10 - j, j);
    ChannelAfterOnGrid(Initial[j], 9 - j);
    ChannelAfterOnGrid(Initial[j], 10 - j);
    IterateClosedForm(Initial[j], 9 - j);
    IterateClosedForm(Initial[j], 10 - j);
    assert (j + 1 + (9 - j)) % 11 == 10;
    assert (j + 1 + (10 - j)) % 11 == 0;
  }

  /** `(d * MAX_VALUE) / MAXDC`: the largest compare value whose share of
      255 does not exceed the duty cycle's share of 100. */
  function Scale(d: byte): (r: nat)
    ensures 100 * r <= 255 * d < 100 * r + 100
  {
    (d * MaxValue) / MaxDc
  }

  /** On the AVR `int` is 16 bits, and `dutycycle[j] * MAX_VALUE` is computed
      in it: the product is defined exactly for duty cycles up to 128. */
  lemma ScaleDefinedExactlyBelow(d: byte)
    ensures InInt16(d * MaxValue) <==> d <= 128
  {
  }

  /** Duty cycles reached from the initial values never overflow the product. */
  lemma ReachableScaleDefined(n: nat, j: int)
    requires 0 <= j < Channels
    ensures InInt16(Steps(Initial, n)[j] * MaxValue)
  {
    InitialStaysOnGrid(n, j);
    ScaleDefinedExactlyBelow(Steps(Initial, n)[j]);
  }

  /** Duty cycles in [0,100] map onto [0,255], monotonically wherever the
      16-bit product is defined, 0 to 0 and 100 to 255. */
  lemma ScaleRange(d: byte, e: byte)
    ensures d <= MaxDc ==> Scale(d) <= MaxValue
    ensures d <= e && InInt16(e * MaxValue) ==> Scale(d) <= Scale(e)
    ensures Scale(0) == 0 && Scale(100) == MaxValue
  {
  }

  /** The five compare registers: OCR0A, OCR0B, OCR2A are 8-bit, OCR1A and
      OCR1B (Timer1) 16-bit; an assignment keeps the low bits that fit. */
  datatype Compare = Compare(ocr0a: byte, ocr0b: byte, ocr1a: uint16, ocr1b: uint16, ocr2a: byte)

  /** Assigning `v` to an 8-bit register keeps its low byte. */
  function Reg8(v: nat): (b: byte)
    ensures v <= MaxValue ==> b == v
  {
    v % 0x100
  }

  /** Assigning `v` to a 16-bit register keeps its low 16 bits. */
  function Reg16(v: nat): (w: uint16)
    ensures v <= MaxValue ==> w == v
  {
    v % 0x1_0000
  }

  /** `update_PWM`. */
  function UpdatePwm(ds: Duties): (r: Compare)
    ensures ds[0] <= MaxDc ==> r.ocr0a == Scale(ds[0])
    ensures ds[1] <= MaxDc ==> r.ocr0b == Scale(ds[1])
    ensures ds[2] <= MaxDc ==> r.ocr1a == Scale(ds[2])
    ensures ds[3] <= MaxDc ==> r.ocr1b == Scale(ds[3])
    ensures ds[4] <= MaxDc ==> r.ocr2a == Scale(ds[4])
  {
    Compare(Reg8(Scale(ds[0])), Reg8(Scale(ds[1])),
            Reg16(Scale(ds[2])), Reg16(Scale(ds[3])), Reg8(Scale(ds[4])))
  }

  /** The register channel `j` drives. */
  function CompareOf(c: Compare, j: int): int
    requires 0 <= j < Channels
  {
    if j == 0 then c.ocr0a
    else if j == 1 then c.ocr0b
    else if j == 2 then c.ocr1a
    else if j == 3 then c.ocr1b
    else c.ocr2a
  }

  /** Each register depends on its own channel only. */
  lemma UpdatePwmPerChannel(ds: Duties, es: Duties, j: int)
    requires 0 <= j < Channels
    requires ds[j] == es[j]
    ensures CompareOf(UpdatePwm(ds), j) == CompareOf(UpdatePwm(es), j)
  {
  }

  /** The `for (i ...)` loop of one pass of `main`: each set flag triggers
      one step and is cleared; unset flags stay as they are. */
  method ServiceFlags(ds: Duties, flags: seq<bool>) returns (ds': Duties, flags': seq<bool>)
    requires |flags| == Timers
    ensures |flags'| == Timers
    ensures forall i :: 0 <= i < Timers ==> !flags'[i]
    ensures ds' == Steps(ds, CountSet(flags))
  {
    ds', flags' := ds, flags;
    var i := 0;
    while i < Timers
      invariant 0 <= i <= Timers
      invariant |flags'| == Timers
      invariant forall k :: 0 <= k < i ==> !flags'[k]
      invariant forall k :: i <= k < Timers ==> flags'[k] == flags[k]
      invariant ds' == Steps(ds, CountSet(flags[..i]))
    {
      assert flags[..i + 1][..i] == flags[..i];
      assert CountSet(flags[..i + 1]) == CountSet(flags[..i]) + (if flags[i] then 1 else 0);
      if flags'[i] {
        ds' := StepInPlace(ds');
        flags' := flags'[i := false];
      }
      i := i + 1;
    }
    assert flags[..Timers] == flags;
  }

  /** One pass of the `while (1)` loop: service the flags, then `update_PWM`. */
  method MainPass(ds: Duties, flags: seq<bool>) returns (ds': Duties, flags': seq<bool>, regs: Compare)
    requires |flags| == Timers
    ensures |flags'| == Timers && forall i :: 0 <= i < Timers ==> !flags'[i]
    ensures ds' == Steps(ds, CountSet(flags))
    ensures regs == UpdatePwm(ds')
  {
    ds', flags' := ServiceFlags(ds, flags);
    regs := UpdatePwm(ds');
  }
}
