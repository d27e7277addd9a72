/**
 Decimal text: what `Number(text)` and `BigInt(text)` read from a string of digits, and what
 `String(n)` prints for a non-negative integer.
 */
module Decimal {

  predicate IsDigit(c: char) {
    '0' <= c <= '9'
  }

  predicate AllDigits(s: string) {
    forall i :: 0 <= i < |s| ==> IsDigit(s[i])
  }

  function DigitValue(c: char): (d: nat)
    requires IsDigit(c)
    ensures d <= 9
  {
    c as int - '0' as int
  }

  function DigitChar(d: nat): (c: char)
    requires d <= 9
    ensures IsDigit(c) && DigitValue(c) == d
  {
    (d + '0' as int) as char
  }

  function Pow10(n: nat): (p: nat)
    ensures p >= 1
  {
    if n == 0 then 1 else 10 * Pow10(n - 1)
  }

  /** The number a string of digits denotes; the empty string denotes 0, as it does for `Number`. */
  function Value(s: string): nat
    requires AllDigits(s)
  {
    if s == "" then 0 else Value(s[..|s| - 1]) * 10 + DigitValue(s[|s| - 1])
  }

  /** The text `String(n)` prints. */
  function ToDecimal(n: nat): (s: string)
    ensures AllDigits(s) && |s| >= 1
  {
    if n < 10 then [DigitChar(n)] else ToDecimal(n / 10) + [DigitChar(n % 10)]
  }

  function Zeros(n: nat): (s: string)
    ensures |s| == n && AllDigits(s)
    ensures forall i :: 0 <= i < n ==> s[i] == '0'
  {
    seq(n, i => '0')
  }

  lemma {:induction false} Pow10Add(m: nat, n: nat)
    ensures Pow10(m + n) == Pow10(m) * Pow10(n)
  {
    if m > 0 {
      Pow10Add(m - 1, n);
      assert Pow10(m + n) == 10 * Pow10(m - 1 + n);
    }
  }

  lemma {:induction false} Pow10Monotone(m: nat, n: nat)
    requires m <= n
    ensures Pow10(m) <= Pow10(n)
  {
    if m < n {
      Pow10Monotone(m, n - 1);
    }
  }

  lemma ShiftLeft(v: nat, p: nat, w: nat, d: nat)
    ensures (v * p + w) * 10 + d == v * (10 * p) + (w * 10 + d)
  {
    assert v * (10 * p) == v * p * 10;
  }

  lemma {:induction false} ValueConcat(a: string, b: string)
    requires AllDigits(a) && AllDigits(b)
    ensures AllDigits(a + b)
    ensures Value(a + b) == Value(a) * Pow10(|b|) + Value(b)
  {
    if b == "" {
      assert a + b == a;
    } else {
      var b' := b[..|b| - 1];
      ValueConcat(a, b');
      assert (a + b)[..|a + b| - 1] == a + b';
      assert Value(a + b) == Value(a + b') * 10 + DigitValue(b[|b| - 1]);
      ShiftLeft(Value(a), Pow10(|b'|), Value(b'), DigitValue(b[|b| - 1]));
      assert Pow10(|b|) == 10 * Pow10(|b'|);
    }
  }

  lemma {:induction false} ValueBound(s: string)
    requires AllDigits(s)
    ensures Value(s) < Pow10(|s|)
  {
    if s != "" {
      ValueBound(s[..|s| - 1]);
    }
  }

  lemma {:induction false} ValueOfZeros(n: nat)
    ensures Value(Zeros(n)) == 0
  {
    if n > 0 {
      ValueOfZeros(n - 1);
      assert Zeros(n)[..n - 1] == Zeros(n - 1);
    }
  }

  lemma {:induction false} ValueZeroIff(s: string)
    requires AllDigits(s)
    ensures Value(s) == 0 <==> s == Zeros(|s|)
  {
    if s != "" {
      var s' := s[..|s| - 1];
      ValueZeroIff(s');
      assert Zeros(|s|)[..|s| - 1] == Zeros(|s'|);
      if Value(s) == 0 {
        assert s == s' + [s[|s| - 1]];
        assert s[|s| - 1] == '0';
      }
    }
  }

  /** Printing and reading back: `Number(String(n))` is `n`, and only 0 prints a leading zero. */
  lemma {:induction false} ToDecimalValue(n: nat)
    ensures Value(ToDecimal(n)) == n
    ensures n > 0 ==> ToDecimal(n)[0] != '0'
    ensures |ToDecimal(n)| == 1 || n >= Pow10(|ToDecimal(n)| - 1)
  {
    if n >= 10 {
      ToDecimalValue(n / 10);
      var p := ToDecimal(n / 10);
      assert (p + [DigitChar(n % 10)])[..|p|] == p;
    } else {
      assert ToDecimal(n)[..0] == "";
    }
  }

  /** Reading and printing again gives the text back exactly when it has no redundant leading zero. */
  lemma {:induction false} ToDecimalOfValue(s: string)
    requires AllDigits(s) && |s| >= 1
    ensures ToDecimal(Value(s)) == s <==> |s| == 1 || s[0] != '0'
    ensures |ToDecimal(Value(s))| <= |s|
  {
    if |s| == 1 {
      assert Value(s) == DigitValue(s[0]) by { assert s[..0] == ""; }
    } else {
      var s' := s[..|s| - 1];
      ToDecimalOfValue(s');
      assert s == s' + [s[|s| - 1]];
      assert Value(s) / 10 == Value(s') && Value(s) % 10 == DigitValue(s[|s| - 1]);
      if Value(s) >= 10 {
        if |s'| == 1 && s'[0] == '0' {
          assert s'[..0] == "";
        }
      } else {
        ValueZeroIff(s');
        assert s[0] == s'[0] == '0';
      }
    }
  }

  lemma LastDigit(v: nat, d: nat, w: nat, e: nat)
    requires d <= 9 && e <= 9 && v * 10 + d == w * 10 + e
    ensures v == w && d == e
  {
  }

  /** With a fixed width, digits are ordered as their values are, so equal values mean equal texts. */
  lemma {:induction false} ValueInjective(a: string, b: string)
    requires AllDigits(a) && AllDigits(b) && |a| == |b|
    requires Value(a) == Value(b)
    ensures a == b
  {
    if a != "" {
      var a', b' := a[..|a| - 1], b[..|b| - 1];
      LastDigit(Value(a'), DigitValue(a[|a| - 1]), Value(b'), DigitValue(b[|b| - 1]));
      ValueInjective(a', b');
      assert a == a' + [a[|a| - 1]] && b == b' + [b[|b| - 1]];
    }
  }
}
