/** Single-channel PWM duty cycle: an `int` percentage starting at 25,
    stepped by 10 with wrap-around to 0 each time the timer-overflow flag is
    found set. 25 is not on the grid, so the cycle only starts after the
    first wrap. */
module PwmDuty {
  import opened DutyCycle

  const InitialDuty: int := 25

  /** The duty cycle after `n` updates. */
  function Duty(n: nat): int {
    Iterate(InitialDuty, n)
  }

  /** The first eight values are 25, 35, ..., 95; from the eighth update on
      the duty cycle follows the grid cycle from 0. */
  lemma {:induction false} DutyShape(n: nat)
    ensures n < 8 ==> Duty(n) == InitialDuty + Increment * n
    ensures n >= 8 ==> Duty(n) == Iterate(MinDc, n - 8)
  {
    if n > 0 {
      DutyShape(n - 1);
    }
  }

  /** Closed form: 25 + 10n before the first wrap, then the multiples of 10
      from 0 to 100 over and over. */
  lemma DutyClosedForm(n: nat)
    ensures n < 8 ==> Duty(n) == InitialDuty + Increment * n
    ensures n >= 8 ==> Duty(n) == ((n - 8) % 11) * 10
  {
    DutyShape(n);
    if n >= 8 {
      IterateClosedForm(MinDc, n - 8);
    }
  }

  /** The duty cycle never leaves [0,100]; the 16-bit `int` never gets near overflow. */
  lemma DutyInRange(n: nat)
    ensures MinDc <= Duty(n) <= MaxDc
  {
    DutyShape(n);
    if n >= 8 {
      IteratePeriod(MinDc, n - 8);
    }
  }

  /** The first wrap happens on the eighth update, from 95 to 0. */
  lemma FirstWrap(n: nat)
    ensures Duty(7) == 95 && Duty(8) == MinDc
    ensures n < 8 ==> Duty(n) > MinDc && Duty(n) % 10 == 5
  {
    DutyShape(7);
    DutyShape(8);
    DutyShape(n);
  }

  /** After the first wrap the sequence repeats with period 11 ... */
  lemma PeriodAfterWrap(n: nat)
    requires n >= 8
    ensures Duty(n + 11) == Duty(n)
  {
    DutyShape(n);
    DutyShape(n + 11);
    IteratePeriod(MinDc, n - 8);
  }

  /** ... and takes exactly the multiples of 10 in [0,100]. */
  lemma ValuesAfterWrap(n: nat, v: int)
    requires n >= 8
    ensures OnGrid(Duty(n))
    ensures OnGrid(v) ==> Duty(8 + v / 10) == v
  {
    DutyShape(n);
    IteratePeriod(MinDc, n - 8);
    if OnGrid(v) {
      DutyClosedForm(8 + v / 10);
    }
  }

  /** The state the main loop works on: the duty cycle and `intrpt_rcvd`. */
  datatype Loop = Loop(duty: int, flag: bool)

  /** One pass of the `while (1)` loop. */
  function Pass(s: Loop): (r: Loop)
    ensures !r.flag
    ensures s.flag ==> r.duty == Advance(s.duty)
    ensures !s.flag ==> r == s
  {
    if s.flag then Loop(Advance(s.duty), false) else s
  }

  /** Passes with the flags the timer interrupt raised before each one, the
      last pass last: the duty cycle takes one update per raised flag and
      none otherwise, and the flag ends cleared. */
  function Run(duty: int, raised: seq<bool>): (r: Loop)
    ensures !r.flag
    ensures r.duty == Iterate(duty, CountSet(raised))
    decreases |raised|
  {
    if |raised| == 0 then Loop(duty, false)
    else Pass(Loop(Run(duty, raised[..|raised| - 1]).duty, raised[|raised| - 1]))
  }

  /** From the initial state the duty cycle after a run is the one after as
      many updates as flags were raised: a closed form of every run. */
  lemma RunClosedForm(raised: seq<bool>)
    ensures CountSet(raised) < 8 ==> Run(InitialDuty, raised).duty == InitialDuty + Increment * CountSet(raised)
    ensures CountSet(raised) >= 8 ==> Run(InitialDuty, raised).duty == ((CountSet(raised) - 8) % 11) * 10
  {
    DutyClosedForm(CountSet(raised));
  }
}
