/** Decimal text as `snprintf(buf, n, "%d", v)` renders an `int`, and the
    reading back of such text, so that the rendering can be stated as the
    inverse of a parser. */
module Decimal {

  predicate IsDigit(c: char) {
    '0' <= c <= '9'
  }

  predicate AllDigits(s: string) {
    forall i :: 0 <= i < |s| ==> IsDigit(s[i])
  }

  /** Digit text without a superfluous leading zero, as `%d` prints it. */
  predicate Canonical(s: string) {
    |s| >= 1 && AllDigits(s) && (s[0] == '0' ==> |s| == 1)
  }

  function DigitChar(k: nat): (c: char)
    requires k < 10
    ensures IsDigit(c)
  {
    ('0' as int + k) as char
  }

  function DigitValue(c: char): (k: nat)
    requires IsDigit(c)
    ensures k < 10 && DigitChar(k) == c
  {
    c as int - '0' as int
  }

  /** The decimal digits of `n`, most significant first. */
  function Digits(n: nat): (s: string)
    ensures Canonical(s)
    ensures s[0] == '0' <==> n == 0
    decreases n
  {
    if n < 10 then [DigitChar(n)] else Digits(n / 10) + [DigitChar(n % 10)]
  }

  /** The number a digit string denotes. */
  function Value(s: string): nat
    requires AllDigits(s)
    decreases |s|
  {
    if |s| == 0 then 0 else Value(s[..|s| - 1]) * 10 + DigitValue(s[|s| - 1])
  }

  function Pow10(k: nat): (p: nat)
    ensures p >= 1
  {
    if k == 0 then 1 else 10 * Pow10(k - 1)
  }

  /** Reading the digits back gives the number. */
  lemma {:induction false} ValueOfDigits(n: nat)
    ensures Value(Digits(n)) == n
    decreases n
  {
    var s := Digits(n);
    if n < 10 {
      assert s[..|s| - 1] == [];
    } else {
      assert s[..|s| - 1] == Digits(n / 10);
      ValueOfDigits(n / 10);
    }
  }

  lemma {:induction false} ZeroValueIsAllZeros(s: string)
    requires AllDigits(s)
    requires Value(s) == 0
    ensures forall i :: 0 <= i < |s| ==> s[i] == '0'
    decreases |s|
  {
    if |s| > 0 {
      var p := s[..|s| - 1];
      assert AllDigits(p);
      ZeroValueIsAllZeros(p);
      forall i | 0 <= i < |s|
        ensures s[i] == '0'
      {
        if i < |s| - 1 {
          assert s[i] == p[i];
        } else {
          assert DigitChar(DigitValue(s[i])) == s[i];
        }
      }
    }
  }

  /** Canonical digit text is exactly what rendering its value produces. */
  lemma {:induction false} DigitsOfValue(s: string)
    requires Canonical(s)
    ensures Digits(Value(s)) == s
    decreases |s|
  {
    var d := DigitValue(s[|s| - 1]);
    if |s| == 1 {
      assert s[..0] == [];
      assert Value(s) == d;
    } else {
      var p := s[..|s| - 1];
      assert p[0] == s[0];
      assert Canonical(p);
      if Value(p) == 0 {
        ZeroValueIsAllZeros(p);
        assert false;
      }
      DigitsOfValue(p);
      assert Value(s) / 10 == Value(p) && Value(s) % 10 == d;
      assert s == p + [s[|s| - 1]];
    }
  }

  /** A number below 10^k takes at most k digits. */
  lemma {:induction false} DigitsLength(n: nat, k: nat)
    requires 1 <= k
    requires n < Pow10(k)
    ensures |Digits(n)| <= k
    decreases k
  {
    if n >= 10 {
      assert Pow10(k) == 10 * Pow10(k - 1);
      DigitsLength(n / 10, k - 1);
    }
  }

  /** Every non-negative `int32_t` takes at most ten digits. */
  lemma Int32Digits(n: nat)
    requires n <= 0x7FFF_FFFF
    ensures |Digits(n)| <= 10
  {
    assert Pow10(10) == 10_000_000_000;
    DigitsLength(n, 10);
  }

  /** `%d`: an optional minus sign followed by the digits of the magnitude. */
  function Format(v: int): (s: string)
    ensures v >= 0 ==> Canonical(s) && Value(s) == v
    ensures v < 0 ==> |s| >= 2 && s[0] == '-' && Canonical(s[1..]) && Value(s[1..]) == -v
  {
    if v < 0 then
      ValueOfDigits(-v);
      assert ("-" + Digits(-v))[1..] == Digits(-v);
      "-" + Digits(-v)
    else
      ValueOfDigits(v);
      Digits(v)
  }
}
