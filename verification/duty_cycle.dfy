/** The duty-cycle update both AVR programs share: add 10 percent and fall
    back to 0 once past 100. On the multiples of 10 in [0,100] (the "grid")
    this walks the 11 grid values in a cycle. */
module DutyCycle {

  const Increment: int := 10
  const MaxDc: int := 100
  const MinDc: int := 0

  /** `d += 10; if (d > MAXDC) d = MINDC;` on an integer wide enough for d + 10.
      The result never exceeds 100, and from any value of at least -10 it is
      at least 0; a value passing 100 falls back to 0 rather than saturating. */
  function Advance(d: int): (r: int)
    ensures r <= MaxDc
    ensures d >= MinDc - Increment ==> MinDc <= r
    ensures d + Increment > MaxDc <==> r == MinDc && d != MinDc - Increment
  {
    if d + Increment > MaxDc then MinDc else d + Increment
  }

  /** `n` updates from `d`. */
  function Iterate(d: int, n: nat): int {
    if n == 0 then d else Advance(Iterate(d, n - 1))
  }

  /** Number of set flags: how many updates a run of flag checks triggers. */
  function CountSet(flags: seq<bool>): nat {
    if |flags| == 0 then 0
    else CountSet(flags[..|flags| - 1]) + (if flags[|flags| - 1] then 1 else 0)
  }

  /** The multiples of 10 from 0 to 100. */
  predicate OnGrid(d: int) {
    0 <= d <= MaxDc && d % Increment == 0
  }

  /** On the grid an update moves to the next grid value, 100 wrapping to 0. */
  lemma AdvanceOnGrid(d: int)
    requires OnGrid(d)
    ensures Advance(d) == if d == MaxDc then MinDc else d + Increment
    ensures OnGrid(Advance(d))
  {
  }

  lemma ModElevenStep(a: nat)
    ensures (a + 1) % 11 == if a % 11 == 10 then 0 else a % 11 + 1
  {
    var q, r := a / 11, a % 11;
    assert a == 11 * q + r;
    if r == 10 {
      assert a + 1 == 11 * (q + 1) + 0;
    } else {
      assert a + 1 == 11 * q + (r + 1);
    }
  }

  lemma ModElevenPeriod(a: nat)
    ensures (a + 11) % 11 == a % 11
  {
    var q, r := a / 11, a % 11;
    assert a + 11 == 11 * (q + 1) + r;
  }

  /** On the grid, the value after `n` updates in closed form: the grid
      position d / 10 advances by `n` modulo 11. */
  lemma {:induction false} IterateClosedForm(d: int, n: nat)
    requires OnGrid(d)
    ensures Iterate(d, n) == ((d / 10 + n) % 11) * 10
  {
    if n > 0 {
      IterateClosedForm(d, n - 1);
      var a := d / 10 + n - 1;
      ModElevenStep(a);
      assert Iterate(d, n - 1) == (a % 11) * 10;
      AdvanceOnGrid(Iterate(d, n - 1));
    }
  }

  /** Every grid value comes back after exactly 11 updates, and not before. */
  lemma IteratePeriod(d: int, n: nat)
    requires OnGrid(d)
    ensures Iterate(d, n + 11) == Iterate(d, n)
    ensures 0 < n < 11 ==> Iterate(d, n) != d
    ensures OnGrid(Iterate(d, n))
  {
    IterateClosedForm(d, n + 11);
    IterateClosedForm(d, n);
    var q := d / 10;
    ModElevenPeriod(q + n);
    if 0 < n < 11 {
      if q + n < 11 {
        assert (q + n) % 11 == q + n;
      } else {
        assert q + n == 11 + (q + n - 11);
        assert (q + n) % 11 == q + n - 11;
      }
    }
  }
}
