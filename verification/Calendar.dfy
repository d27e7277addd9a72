/**
 Calendar days, their text and the order of that text. The calendar is the proleptic Gregorian one of
 `Date`; texts are compared by character codes, as `>=` compares them.
 */
module Calendar {
  import opened Decimal

  datatype Date = Date(year: nat, month: nat, day: nat)

  predicate IsLeap(year: nat) {
    year % 4 == 0 && (year % 100 != 0 || year % 400 == 0)
  }

  function DaysInMonth(year: nat, month: nat): (n: nat)
    ensures 28 <= n <= 31
  {
    if month == 2 then (if IsLeap(year) then 29 else 28)
    else if month in {4, 6, 9, 11} then 30
    else 31
  }

  /** A day of a year with four digits. */
  predicate IsDay(d: Date) {
    1000 <= d.year <= 9999 && 1 <= d.month <= 12 && 1 <= d.day <= DaysInMonth(d.year, d.month)
  }

  /** A number that orders days as the calendar does. */
  function Rank(d: Date): nat {
    (d.year * 13 + d.month) * 32 + d.day
  }

  function NextDay(d: Date): Date {
    if d.day < DaysInMonth(d.year, d.month) then d.(day := d.day + 1)
    else if d.month < 12 then Date(d.year, d.month + 1, 1)
    else Date(d.year + 1, 1, 1)
  }

  function PrevDay(d: Date): Date
    requires IsDay(d)
  {
    if d.day > 1 then d.(day := d.day - 1)
    else if d.month > 1 then Date(d.year, d.month - 1, DaysInMonth(d.year, d.month - 1))
    else Date(d.year - 1, 12, 31)
  }

  lemma NextIsLater(d: Date)
    requires IsDay(d)
    ensures Rank(NextDay(d)) > Rank(d)
    ensures d.year < 9999 ==> IsDay(NextDay(d))
    ensures d.year > 1000 ==> IsDay(PrevDay(d)) && NextDay(PrevDay(d)) == d
    ensures IsDay(NextDay(d)) ==> PrevDay(NextDay(d)) == d
  {
  }

  /** No day lies between a day and the next. */
  lemma NothingBetween(d: Date, e: Date)
    requires IsDay(d) && IsDay(e) && Rank(d) < Rank(e)
    ensures Rank(NextDay(d)) <= Rank(e)
  {
    RankOrder(d, e);
  }

  lemma RankOrder(d: Date, e: Date)
    requires IsDay(d) && IsDay(e)
    ensures Rank(d) < Rank(e)
       <==> d.year < e.year || (d.year == e.year && (d.month < e.month || (d.month == e.month && d.day < e.day)))
    ensures Rank(d) == Rank(e) <==> d == e
  {
  }

  /** The day n days later, as adding n to the day of the month gives it. */
  function Plus(d: Date, n: nat): Date {
    if n == 0 then d else NextDay(Plus(d, n - 1))
  }

  function Minus(d: Date, n: nat): Date
    requires IsDay(d) && d.year > 1000 + n
    ensures IsDay(Minus(d, n)) && Minus(d, n).year + n >= d.year
  {
    if n == 0 then d else
      assert IsDay(Minus(d, n - 1));
      PrevDay(Minus(d, n - 1))
  }

  // ---- counting days --------------------------------------------------------------------------------

  /** The years counted from March, so that the leap day comes last. */
  function MarchYear(d: Date): int {
    if d.month <= 2 then d.year - 1 else d.year
  }

  function MarchMonth(d: Date): int {
    if d.month <= 2 then d.month + 9 else d.month - 3
  }

  /** The days before a year, and before a month of it. */
  function YearStart(y: int): int {
    365 * y + y / 4 - y / 100 + y / 400
  }

  function MonthStart(m: int): int {
    (153 * m + 2) / 5
  }

  /** The day number of the Gregorian calendar, in closed form. */
  function DayNumber(d: Date): int {
    YearStart(MarchYear(d)) + MonthStart(MarchMonth(d)) + d.day
  }

  lemma YearLength(y: int)
    requires y > 0
    ensures YearStart(y) - YearStart(y - 1) == if IsLeap(y) then 366 else 365
  {
    assert y / 4 - (y - 1) / 4 == if y % 4 == 0 then 1 else 0;
    assert y / 100 - (y - 1) / 100 == if y % 100 == 0 then 1 else 0;
    assert y / 400 - (y - 1) / 400 == if y % 400 == 0 then 1 else 0;
    CenturiesAreFourths(y);
  }

  lemma CenturiesAreFourths(y: int)
    ensures y % 100 == 0 ==> y % 4 == 0
    ensures y % 400 == 0 ==> y % 100 == 0
  {
    if y % 100 == 0 {
      assert y == 4 * (25 * (y / 100));
    }
    if y % 400 == 0 {
      assert y == 100 * (4 * (y / 400));
    }
  }

  lemma MonthStarts()
    ensures MonthStart(0) == 0 && MonthStart(1) == 31 && MonthStart(2) == 61 && MonthStart(3) == 92
    ensures MonthStart(4) == 122 && MonthStart(5) == 153 && MonthStart(6) == 184 && MonthStart(7) == 214
    ensures MonthStart(8) == 245 && MonthStart(9) == 275 && MonthStart(10) == 306 && MonthStart(11) == 337
  {
  }

  /** The next day is the next number: the months have their lengths and the leap years fall as they should. */
  lemma NextIsOneMore(d: Date)
    requires IsDay(d)
    ensures DayNumber(NextDay(d)) == DayNumber(d) + 1
  {
    hide YearStart, MonthStart, IsLeap;
    MonthStarts();
    YearLength(d.year);
  }

  lemma {:induction false} PlusIsMore(d: Date, n: nat)
    requires forall k :: 0 <= k < n ==> IsDay(Plus(d, k))
    ensures DayNumber(Plus(d, n)) == DayNumber(d) + n
  {
    hide DayNumber, IsDay;
    if n > 0 {
      PlusIsMore(d, n - 1);
      NextIsOneMore(Plus(d, n - 1));
    }
  }

  /** How many days the month before that of a day has. */
  function LastMonthLength(d: Date): nat
    requires IsDay(d)
  {
    if d.month == 1 then DaysInMonth(d.year - 1, 12) else DaysInMonth(d.year, d.month - 1)
  }

  /** The same day of the month before; a day that month does not have runs over into the next. */
  function MonthBack(d: Date): Date
    requires IsDay(d)
  {
    if d.day > LastMonthLength(d) then Date(d.year, d.month, d.day - LastMonthLength(d))
    else if d.month == 1 then Date(d.year - 1, 12, d.day)
    else Date(d.year, d.month - 1, d.day)
  }

  lemma {:induction false} MinusAdd(d: Date, a: nat, b: nat)
    requires IsDay(d) && d.year > 1000 + a + b
    ensures Minus(d, a + b) == Minus(Minus(d, a), b)
  {
    hide IsDay, PrevDay;
    if b > 0 {
      MinusAdd(d, a, b - 1);
    }
  }

  lemma {:induction false} MinusInMonth(d: Date, n: nat)
    requires IsDay(d) && d.year > 1000 + n && n < d.day
    ensures Minus(d, n) == d.(day := d.day - n)
  {
    if n > 0 {
      MinusInMonth(d, n - 1);
    }
  }

  /** The day before the first of a month. */
  lemma EndOfLastMonth(d: Date)
    requires IsDay(d) && d.year > 1031
    ensures IsDay(d.(day := 1)) && IsDay(PrevDay(d.(day := 1)))
    ensures PrevDay(d.(day := 1)).day == LastMonthLength(d) <= 31 && PrevDay(d.(day := 1)).year >= d.year - 1
    ensures d.day <= LastMonthLength(d) ==> MonthBack(d) == PrevDay(d.(day := 1)).(day := d.day)
  {
    hide IsLeap;
  }

  lemma BackPastFirst(d: Date, length: nat)
    requires IsDay(d) && d.year > 1031 && IsDay(d.(day := 1)) && 1 <= d.day <= length <= 31
    requires var e := PrevDay(d.(day := 1)); IsDay(e) && e.day == length && e.year >= d.year - 1
    ensures Minus(d, length) == PrevDay(d.(day := 1)).(day := d.day)
  {
    hide IsDay, PrevDay, Minus, DaysInMonth;
    MinusInMonth(d, d.day - 1);
    MinusOne(d.(day := 1));
    MinusAdd(d, d.day - 1, 1);
    MinusAdd(d, d.day, length - d.day);
    MinusInMonth(PrevDay(d.(day := 1)), length - d.day);
  }

  /** Going back a month is going back as many days as the month before has, overflow and all. */
  lemma MonthBackIsDays(d: Date)
    requires IsDay(d) && d.year > 1031
    ensures LastMonthLength(d) <= 31
    ensures MonthBack(d) == Minus(d, LastMonthLength(d))
  {
    hide Minus, PrevDay, DaysInMonth;
    EndOfLastMonth(d);
    if d.day > LastMonthLength(d) {
      MinusInMonth(d, LastMonthLength(d));
    } else {
      BackPastFirst(d, LastMonthLength(d));
    }
  }

  lemma MinusOne(d: Date)
    requires IsDay(d) && d.year > 1001
    ensures Minus(d, 1) == PrevDay(d)
  {
    assert Minus(d, 0) == d;
  }

  // ---- text -----------------------------------------------------------------------------------------

  function Pad2(n: nat): string
    requires n < 100
  {
    (if |ToDecimal(n)| < 2 then Zeros(2 - |ToDecimal(n)|) else "") + ToDecimal(n)
  }

  function FormatDate(d: Date): string
    requires IsDay(d)
  {
    ToDecimal(d.year) + "-" + Pad2(d.month) + "-" + Pad2(d.day)
  }

  /** The day an ISO text names. */
  function ParseDate(s: string): Date
    requires |s| == 10 && AllDigits(s[0..4]) && AllDigits(s[5..7]) && AllDigits(s[8..10])
  {
    Date(Value(s[0..4]), Value(s[5..7]), Value(s[8..10]))
  }

  predicate Less(a: string, b: string) {
    if b == "" then false
    else if a == "" then true
    else a[0] < b[0] || (a[0] == b[0] && Less(a[1..], b[1..]))
  }

  lemma {:induction false} LessConcat(a: string, b: string, u: string, v: string)
    requires |a| == |b|
    ensures Less(a + u, b + v) <==> Less(a, b) || (a == b && Less(u, v))
  {
    if a == "" {
      assert a + u == u && b + v == v;
    } else {
      LessConcat(a[1..], b[1..], u, v);
      assert (a + u)[1..] == a[1..] + u && (b + v)[1..] == b[1..] + v;
      assert a == b <==> a[0] == b[0] && a[1..] == b[1..];
    }
  }

  lemma {:induction false} LessIsValue(a: string, b: string)
    requires AllDigits(a) && AllDigits(b) && |a| == |b|
    ensures Less(a, b) <==> Value(a) < Value(b)
  {
    if a != "" {
      LessIsValue(a[1..], b[1..]);
      Leading(a);
      Leading(b);
      LeadingOrder(DigitValue(a[0]), DigitValue(b[0]), Pow10(|a| - 1), Value(a[1..]), Value(b[1..]));
    }
  }

  lemma Leading(a: string)
    requires AllDigits(a) && a != ""
    ensures Value(a) == DigitValue(a[0]) * Pow10(|a| - 1) + Value(a[1..])
    ensures Value(a[1..]) < Pow10(|a| - 1)
  {
    hide Value, Pow10;
    ValueConcat(a[..1], a[1..]);
    assert a[..1] + a[1..] == a;
    OneDigit(a[..1]);
    ValueBound(a[1..]);
  }

  lemma OneDigit(s: string)
    requires AllDigits(s) && |s| == 1
    ensures Value(s) == DigitValue(s[0])
  {
    assert s[..0] == "";
  }

  lemma LeadingOrder(x: nat, y: nat, p: nat, v: nat, w: nat)
    requires v < p && w < p
    ensures x * p + v < y * p + w <==> x < y || (x == y && v < w)
  {
    if x < y {
      assert (x + 1) * p <= y * p;
    } else if y < x {
      assert (y + 1) * p <= x * p;
    }
  }

  lemma SmallPowers()
    ensures Pow10(1) == 10 && Pow10(2) == 100 && Pow10(3) == 1000 && Pow10(4) == 10000
  {
  }

  lemma FourDigits(n: nat)
    requires 1000 <= n <= 9999
    ensures |ToDecimal(n)| == 4 && Value(ToDecimal(n)) == n
  {
    hide Pow10, ToDecimal, Value;
    ToDecimalValue(n);
    ValueBound(ToDecimal(n));
    SmallPowers();
    var k := |ToDecimal(n)|;
    if k < 4 {
      Pow10Monotone(k, 3);
    } else if k > 4 {
      Pow10Monotone(4, k - 1);
    }
  }

  lemma TwoDigits(n: nat)
    requires n < 100
    ensures |Pad2(n)| == 2 && AllDigits(Pad2(n)) && Value(Pad2(n)) == n
  {
    hide Pow10, ToDecimal, Value;
    ToDecimalValue(n);
    SmallPowers();
    var t := ToDecimal(n);
    if |t| == 1 {
      ValueConcat(Zeros(1), t);
      ValueOfZeros(1);
    } else if |t| > 2 {
      Pow10Monotone(2, |t| - 1);
    } else {
      assert Pad2(n) == t;
    }
  }

  lemma FormatParts(d: Date)
    requires IsDay(d)
    ensures var s := FormatDate(d);
      && |s| == 10
      && s[4] == '-' && s[7] == '-'
      && s[0..4] == ToDecimal(d.year) && s[5..7] == Pad2(d.month) && s[8..10] == Pad2(d.day)
      && AllDigits(s[0..4]) && AllDigits(s[5..7]) && AllDigits(s[8..10])
  {
    FourDigits(d.year);
    TwoDigits(d.month);
    TwoDigits(d.day);
  }

  /** Reading a printed day gives the day back. */
  lemma ParseFormat(d: Date)
    requires IsDay(d)
    ensures var s := FormatDate(d);
      && |s| == 10 && AllDigits(s[0..4]) && AllDigits(s[5..7]) && AllDigits(s[8..10])
      && s[4] == '-' && s[7] == '-'
      && ParseDate(s) == d
  {
    hide FormatDate, Value, ToDecimal, Pad2, IsDay;
    FormatParts(d);
    assert Value(ToDecimal(d.year)) == d.year && Value(Pad2(d.month)) == d.month && Value(Pad2(d.day)) == d.day by {
      PartValues(d);
    }
  }

  lemma PartValues(d: Date)
    requires IsDay(d)
    ensures d.month < 100 && d.day < 100
    ensures |ToDecimal(d.year)| == 4 && Value(ToDecimal(d.year)) == d.year
    ensures |Pad2(d.month)| == 2 && AllDigits(Pad2(d.month)) && Value(Pad2(d.month)) == d.month
    ensures |Pad2(d.day)| == 2 && AllDigits(Pad2(d.day)) && Value(Pad2(d.day)) == d.day
  {
    FourDigits(d.year);
    TwoDigits(d.month);
    TwoDigits(d.day);
  }

  /** For years of four digits, comparing printed days as texts compares the days. */
  lemma TextOrder(d: Date, e: Date)
    requires IsDay(d) && IsDay(e)
    ensures Less(FormatDate(d), FormatDate(e)) <==> Rank(d) < Rank(e)
    ensures FormatDate(d) == FormatDate(e) <==> d == e
  {
    hide Value, ToDecimal, Pad2, IsDay, Less, Rank;
    PartValues(d);
    PartValues(e);
    RankOrder(d, e);
    var y, y', m, m', t, t' := ToDecimal(d.year), ToDecimal(e.year), Pad2(d.month), Pad2(e.month), Pad2(d.day), Pad2(e.day);
    LessIsValue(y, y');
    LessIsValue(m, m');
    LessIsValue(t, t');
    SameDigits(y, y');
    SameDigits(m, m');
    assert FormatDate(d) == y + ("-" + (m + ("-" + t)));
    assert FormatDate(e) == y' + ("-" + (m' + ("-" + t')));
    LessConcat(y, y', "-" + (m + ("-" + t)), "-" + (m' + ("-" + t')));
    LessConcat("-", "-", m + ("-" + t), m' + ("-" + t'));
    LessConcat(m, m', "-" + t, "-" + t');
    LessConcat("-", "-", t, t');
    NotLess("-");
    if FormatDate(d) == FormatDate(e) {
      ParseFormat(d);
      ParseFormat(e);
    }
  }

  lemma NotLess(s: string)
    requires |s| == 1
    ensures !Less(s, s)
  {
    assert s[1..] == "";
  }

  lemma SameDigits(a: string, b: string)
    requires AllDigits(a) && AllDigits(b) && |a| == |b|
    ensures a == b <==> Value(a) == Value(b)
  {
    if Value(a) == Value(b) {
      ValueInjective(a, b);
    }
  }
}
