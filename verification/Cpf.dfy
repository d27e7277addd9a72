/** Brazilian CPF validation and the exact reach of its two modulo-11 check digits. */
module Cpf {
  import opened Decimal

  function StripNonDigits(value: string): (digits: string)
    ensures AllDigits(digits)
  {
    if value == "" then ""
    else (if IsDigit(value[0]) then [value[0]] else "") + StripNonDigits(value[1..])
  }

  /** digits[0] * top + digits[1] * (top - 1) + ... over the first n digits. */
  function WeightedSum(digits: string, n: nat, top: nat): int
    requires AllDigits(digits) && n <= |digits|
  {
    if n == 0 then 0 else WeightedSum(digits, n - 1, top) + DigitValue(digits[n - 1]) * (top - (n - 1))
  }

  function Remainder(sum: int): (r: nat)
    ensures r <= 10
  {
    (sum * 10) % 11
  }

  /** The remainder 10 has no digit of its own and is written 0. */
  function Folded(remainder: nat): nat {
    if remainder == 10 then 0 else remainder
  }

  predicate AllIdentical(digits: string) {
    forall i :: 0 <= i < |digits| ==> digits[i] == digits[0]
  }

  function First(digits: string): nat
    requires AllDigits(digits) && |digits| == 11
  {
    Remainder(WeightedSum(digits, 9, 10))
  }

  function Second(digits: string): nat
    requires AllDigits(digits) && |digits| == 11
  {
    Remainder(WeightedSum(digits, 10, 11))
  }

  predicate Accepted(digits: string) {
    && AllDigits(digits) && |digits| == 11
    && !AllIdentical(digits)
    && Folded(First(digits)) == DigitValue(digits[9])
    && Folded(Second(digits)) == DigitValue(digits[10])
  }

  method IsValidCpf(value: string) returns (valid: bool)
    ensures valid == Accepted(StripNonDigits(value))
  {
    var digits := StripNonDigits(value);
    if |digits| != 11 { return false; }
    if forall i | 0 <= i < |digits| :: digits[i] == digits[0] { return false; }

    var sum := 0;
    for i := 0 to 9
      invariant sum == WeightedSum(digits, i, 10)
    {
      sum := sum + DigitValue(digits[i]) * (10 - i);
    }
    var first := (sum * 10) % 11;
    if (if first == 10 then 0 else first) != DigitValue(digits[9]) { return false; }

    sum := 0;
    for i := 0 to 10
      invariant sum == WeightedSum(digits, i, 11)
    {
      sum := sum + DigitValue(digits[i]) * (11 - i);
    }
    var second := (sum * 10) % 11;
    valid := (if second == 10 then 0 else second) == DigitValue(digits[10]);
  }

  // ---- one mistyped digit -------------------------------------------------------------------------

  lemma {:induction false} SumAfterChange(digits: string, j: nat, c: char, n: nat, top: nat)
    requires AllDigits(digits) && n <= |digits| && j < |digits| && IsDigit(c)
    ensures WeightedSum(digits[j := c], n, top)
         == WeightedSum(digits, n, top) + (if j < n then (DigitValue(c) - DigitValue(digits[j])) * (top - j) else 0)
  {
    if n > 0 {
      SumAfterChange(digits, j, c, n - 1, top);
      if n - 1 == j {
        Distribute(DigitValue(c), DigitValue(digits[j]), top - j);
      }
    }
  }

  lemma Distribute(a: int, b: int, w: int)
    ensures a * w == b * w + (a - b) * w
  {
  }

  lemma RemainderAfterChange(sum: int, change: int)
    ensures Remainder(sum + change) == (Remainder(sum) + 10 * change) % 11
  {
  }

  /** Only the pair 0 and 10 of remainders is written with the same digit. */
  lemma FoldedSame(r: nat, s: nat)
    requires r <= 10 && s <= 10
    ensures Folded(r) == Folded(s) <==> r == s || (r == 0 && s == 10) || (r == 10 && s == 0)
  {
  }

  /**
   The changes that go unnoticed, told by the remainders of the original number: at the first digit a
   step of one, and at the sixth digit a step of two or of nine, always with both remainders at the fold.
   */
  predicate Unnoticed(j: nat, change: int, first: nat, second: nat) {
    || (j == 0 && ((change == 1 && first == 10) || (change == -1 && first == 0)))
    || (j == 5 && change in {2, -9} && first == 10 && second == 0)
    || (j == 5 && change in {-2, 9} && first == 0 && second == 10)
  }

  lemma ReduceChange(r: nat, change: int)
    ensures (r + 10 * change) % 11 == (r + 10 * (change % 11)) % 11
  {
    var q, e := change / 11, change % 11;
    assert r + 10 * change == r + 10 * e + 11 * (10 * q);
  }

  lemma FoldStep(r: nat, change: int)
    requires r <= 10
    ensures Folded(r) == Folded((r + 10 * change) % 11)
       <==> change % 11 == 0 || (change % 11 == 1 && r == 0) || (change % 11 == 10 && r == 10)
  {
    hide Folded;
    var e := change % 11;
    ReduceChange(r, change);
    FoldedSame(r, (r + 10 * e) % 11);
    SmallStep(r, e);
  }

  lemma SmallStep(r: nat, e: nat)
    requires r <= 10 && e <= 10
    ensures (r + 10 * e) % 11 == if r >= e then r - e else r - e + 11
  {
    assert r + 10 * e == (r - e) + 11 * e;
  }

  lemma NonZero(change: int, weight: nat)
    requires -9 <= change <= 9 && change != 0 && 2 <= weight <= 10
    ensures (change * weight) % 11 != 0
  {
    if weight == 2 {} else if weight == 3 {} else if weight == 4 {} else if weight == 5 {}
    else if weight == 6 {} else if weight == 7 {} else if weight == 8 {} else if weight == 9 {} else {}
  }

  lemma NextWeight(change: int, weight: nat)
    ensures (change * (weight + 1)) % 11 == ((change * weight) % 11 + change) % 11
  {
    assert change * (weight + 1) == change * weight + change;
    AddInside(change * weight, change, change * (weight + 1));
  }

  lemma AddInside(x: int, c: int, y: int)
    requires y == x + c
    ensures y % 11 == (x % 11 + c) % 11
  {
  }

  /** For a later digit than the first, the two residues are opposite units only at the sixth digit. */
  lemma OppositeUnits(j: nat, change: int)
    requires 1 <= j < 9 && -9 <= change <= 9 && change != 0
    ensures (change * (10 - j)) % 11 == 1 && (change * (11 - j)) % 11 == 10 <==> j == 5 && change in {-2, 9}
    ensures (change * (10 - j)) % 11 == 10 && (change * (11 - j)) % 11 == 1 <==> j == 5 && change in {2, -9}
    ensures !((change * (10 - j)) % 11 == 1 && (change * (11 - j)) % 11 == 1)
    ensures !((change * (10 - j)) % 11 == 10 && (change * (11 - j)) % 11 == 10)
  {
    NextWeight(change, 10 - j);
    var u := (change * (10 - j)) % 11;
    UnitStep(u, change);
    if change == -2 {} else if change == 9 {} else if change == 2 {} else if change == -9 {}
  }

  lemma UnitStep(u: nat, change: int)
    requires -9 <= change <= 9 && change != 0
    ensures u == 1 ==> (u + change) % 11 != 1 && ((u + change) % 11 == 10 <==> change in {-2, 9})
    ensures u == 10 ==> (u + change) % 11 != 10 && ((u + change) % 11 == 1 <==> change in {2, -9})
  {
  }

  lemma BothFolds(j: nat, change: int, first: nat, second: nat)
    requires j < 9 && -9 <= change <= 9 && change != 0 && first <= 10 && second <= 10
    ensures Folded(first) == Folded((first + 10 * (change * (10 - j))) % 11)
         && Folded(second) == Folded((second + 10 * (change * (11 - j))) % 11)
       <==> Unnoticed(j, change, first, second)
  {
    FoldStep(first, change * (10 - j));
    FoldStep(second, change * (11 - j));
    NonZero(change, 10 - j);
    if j == 0 {
      FirstDigit(change);
    } else {
      NonZero(change, 11 - j);
      OppositeUnits(j, change);
    }
  }

  lemma FirstDigit(change: int)
    requires -9 <= change <= 9 && change != 0
    ensures (change * 11) % 11 == 0
    ensures (change * 10) % 11 == 1 <==> change == -1
    ensures (change * 10) % 11 == 10 <==> change == 1
  {
  }

  /** Mistyping one digit of an accepted CPF is missed exactly for the unnoticed changes. */
  lemma SingleDigitExact(digits: string, j: nat, c: char)
    requires Accepted(digits) && j < 11 && IsDigit(c) && c != digits[j]
    ensures Accepted(digits[j := c])
       <==> Unnoticed(j, DigitValue(c) - DigitValue(digits[j]), First(digits), Second(digits))
  {
    var other := digits[j := c];
    var change := DigitValue(c) - DigitValue(digits[j]);
    hide WeightedSum, Remainder, Folded, AllIdentical;
    SumAfterChange(digits, j, c, 9, 10);
    SumAfterChange(digits, j, c, 10, 11);
    if j < 9 {
      RemainderAfterChange(WeightedSum(digits, 9, 10), change * (10 - j));
      RemainderAfterChange(WeightedSum(digits, 10, 11), change * (11 - j));
      BothFolds(j, change, First(digits), Second(digits));
      if Unnoticed(j, change, First(digits), Second(digits)) {
        NotIdentical(digits, j, c);
      }
    }
  }

  lemma NotIdentical(digits: string, j: nat, c: char)
    requires Accepted(digits) && j < 9 && IsDigit(c) && c != digits[j]
    requires Unnoticed(j, DigitValue(c) - DigitValue(digits[j]), First(digits), Second(digits))
    ensures !AllIdentical(digits[j := c])
  {
    var other := digits[j := c];
    if AllIdentical(other) {
      assert other[9] == digits[9] == '0' && other[0] == '0' && other[5] == '0';
      SumOfZeros(other, 9, 10);
      SumOfZeros(other, 10, 11);
      SumAfterChange(digits, j, c, 9, 10);
      SumAfterChange(digits, j, c, 10, 11);
    }
  }

  lemma {:induction false} SumOfZeros(digits: string, n: nat, top: nat)
    requires AllDigits(digits) && n <= |digits|
    requires forall i :: 0 <= i < |digits| ==> digits[i] == '0'
    ensures WeightedSum(digits, n, top) == 0
  {
    if n > 0 {
      SumOfZeros(digits, n - 1, top);
    }
  }

  /** Each unnoticed kind of change does occur: three pairs of accepted numbers one digit apart. */
  lemma UnnoticedChangesOccur()
    ensures Accepted("00000000604") && Accepted("00000000604"[0 := '1'])
    ensures Accepted("00000003700") && Accepted("00000003700"[5 := '2'])
    ensures Accepted("00000009300") && Accepted("00000009300"[5 := '9'])
  {
    FirstExample();
    SecondExample();
    ThirdExample();
    SingleDigitExact("00000000604", 0, '1');
    SingleDigitExact("00000003700", 5, '2');
    SingleDigitExact("00000009300", 5, '9');
  }

  lemma FirstExample()
    ensures Accepted("00000000604") && First("00000000604") == 10
  {
    assert "00000000604"[8] != "00000000604"[0];
  }

  lemma SecondExample()
    ensures Accepted("00000003700") && First("00000003700") == 10 && Second("00000003700") == 0
  {
    assert "00000003700"[7] != "00000003700"[0];
  }

  lemma ThirdExample()
    ensures Accepted("00000009300") && First("00000009300") == 0 && Second("00000009300") == 10
  {
    assert "00000009300"[7] != "00000009300"[0];
  }

  // ---- what is read and what is refused ---------------------------------------------------------------

  lemma {:induction false} StripConcat(a: string, b: string)
    ensures StripNonDigits(a + b) == StripNonDigits(a) + StripNonDigits(b)
  {
    if a == "" {
      assert a + b == b;
    } else {
      StripConcat(a[1..], b);
      assert (a + b)[0] == a[0] && (a + b)[1..] == a[1..] + b;
    }
  }

  /** Signs between the digits do not matter, wherever they stand, and digits do. */
  lemma SignsIgnored(a: string, c: char, b: string)
    ensures StripNonDigits(a + [c] + b)
         == if '0' <= c <= '9' then StripNonDigits(a) + [c] + StripNonDigits(b) else StripNonDigits(a + b)
  {
    StripConcat(a + [c], b);
    StripConcat(a, [c]);
    StripConcat(a, b);
    assert [c][1..] == "";
  }

  lemma {:induction false} DigitsStripped(s: string)
    requires AllDigits(s)
    ensures StripNonDigits(s) == s
  {
    if s != "" {
      DigitsStripped(s[1..]);
    }
  }

  /** The nine digits fix the two check digits. */
  lemma CheckDigitsFixed(a: string, b: string)
    requires Accepted(a) && Accepted(b) && a[..9] == b[..9]
    ensures a == b
  {
    assert forall i :: 0 <= i < 9 ==> a[i] == a[..9][i] == b[..9][i] == b[i];
    SameSum(a, b, 9, 10);
    DigitsEqual(a[9], b[9]);
    SameSum(a, b, 10, 11);
    DigitsEqual(a[10], b[10]);
  }

  lemma DigitsEqual(c: char, d: char)
    requires IsDigit(c) && IsDigit(d) && DigitValue(c) == DigitValue(d)
    ensures c == d
  {
  }

  lemma {:induction false} SameSum(a: string, b: string, n: nat, top: nat)
    requires AllDigits(a) && AllDigits(b) && n <= |a| == |b|
    requires forall i :: 0 <= i < n ==> a[i] == b[i]
    ensures WeightedSum(a, n, top) == WeightedSum(b, n, top)
  {
    if n > 0 {
      SameSum(a, b, n - 1, top);
    }
  }

  function Repeated(c: char): string {
    [c, c, c, c, c, c, c, c, c, c, c]
  }

  lemma {:induction false} RepeatedSum(c: char, n: nat, top: nat)
    requires IsDigit(c) && n <= 11
    ensures WeightedSum(Repeated(c), n, top) == DigitValue(c) * RepeatedWeights(n, top)
  {
    if n > 0 {
      RepeatedSum(c, n - 1, top);
      Distributed(DigitValue(c), RepeatedWeights(n - 1, top), top - (n - 1));
    }
  }

  function RepeatedWeights(n: nat, top: nat): int {
    if n == 0 then 0 else RepeatedWeights(n - 1, top) + (top - (n - 1))
  }

  lemma Distributed(v: int, a: int, b: int)
    ensures v * (a + b) == v * a + v * b
  {
  }

  /** Eleven times the same digit is refused, although both its check digits are right. */
  lemma RepeatedRefused(c: char)
    requires IsDigit(c)
    ensures !Accepted(Repeated(c))
    ensures Folded(First(Repeated(c))) == DigitValue(c) && Folded(Second(Repeated(c))) == DigitValue(c)
  {
    RepeatedSum(c, 9, 10);
    RepeatedSum(c, 10, 11);
    Weights();
    RightRemainder(DigitValue(c));
  }

  lemma Weights()
    ensures RepeatedWeights(9, 10) == 54 && RepeatedWeights(10, 11) == 65
  {
    assert RepeatedWeights(5, 10) == 40 && RepeatedWeights(5, 11) == 45;
    assert RepeatedWeights(9, 10) == 40 + 5 + 4 + 3 + 2;
    assert RepeatedWeights(10, 11) == 45 + 6 + 5 + 4 + 3 + 2;
  }

  lemma RightRemainder(v: nat)
    requires v <= 9
    ensures (v * 54 * 10) % 11 == v && (v * 65 * 10) % 11 == v
  {
    assert v * 54 * 10 == 11 * (49 * v) + v;
    assert v * 65 * 10 == 11 * (59 * v) + v;
  }
}
