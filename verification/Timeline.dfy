/**
 The cumulative waitlist timeline: one entry per day from the first sign-up to today, each with the number
 of sign-ups so far, cut down to a window by comparing the printed days.
 */
module Timeline {
  import opened Calendar

  /** A row of the daily counts: a printed day and the sign-ups of that day. */
  datatype DailyCount = DailyCount(date: string, count: nat)

  datatype Point = Point(date: string, count: nat)

  /** The rows are dated by the given days, strictly ascending and none after today. */
  ghost predicate DatedBy(rows: seq<DailyCount>, days: seq<Date>, today: Date) {
    && |rows| == |days|
    && IsDay(today)
    && (forall i :: 0 <= i < |rows| ==> IsDay(days[i]) && rows[i].date == FormatDate(days[i]))
    && (forall i :: 0 <= i < |rows| ==> Rank(days[i]) <= Rank(today))
    && (forall i, j :: 0 <= i < j < |rows| ==> Rank(days[i]) < Rank(days[j]))
  }

  /** All sign-ups of the first n rows dated on or before a day. */
  ghost function SignedUpBy(rows: seq<DailyCount>, days: seq<Date>, n: nat, day: Date): nat
    requires n <= |rows| == |days|
  {
    if n == 0 then 0
    else SignedUpBy(rows, days, n - 1, day) + (if Rank(days[n - 1]) <= Rank(day) then rows[n - 1].count else 0)
  }

  ghost function Total(rows: seq<DailyCount>, n: nat): nat
    requires n <= |rows|
  {
    if n == 0 then 0 else Total(rows, n - 1) + rows[n - 1].count
  }

  lemma {:induction false} SignedUpIsPrefix(rows: seq<DailyCount>, days: seq<Date>, n: nat, cut: nat, day: Date)
    requires n <= |rows| == |days| && cut <= n
    requires forall i :: 0 <= i < cut ==> Rank(days[i]) <= Rank(day)
    requires forall i :: cut <= i < n ==> Rank(days[i]) > Rank(day)
    ensures SignedUpBy(rows, days, n, day) == Total(rows, cut)
  {
    if n > 0 {
      SignedUpIsPrefix(rows, days, n - 1, if cut == n then n - 1 else cut, day);
    }
  }

  ghost function FirstDay(days: seq<Date>, today: Date): Date {
    if days == [] then today else days[0]
  }

  /** Entry k of the full timeline: k days after the first one, all sign-ups up to that day. */
  ghost predicate IsEntry(p: Point, k: nat, rows: seq<DailyCount>, days: seq<Date>, today: Date)
    requires |rows| == |days|
  {
    var day := Plus(FirstDay(days, today), k);
    IsDay(day) && p.date == FormatDate(day) && p.count == SignedUpBy(rows, days, |rows|, day)
  }

  /** Consecutive days from the first to today, each with everything counted so far. */
  ghost predicate IsFullTimeline(t: seq<Point>, rows: seq<DailyCount>, days: seq<Date>, today: Date)
    requires |rows| == |days|
  {
    && |t| >= 1
    && (forall k :: 0 <= k < |t| ==> IsEntry(t[k], k, rows, days, today))
    && Plus(FirstDay(days, today), |t| - 1) == today
  }

  predicate AtLeast(a: string, b: string) {
    !Less(a, b)
  }

  function From(t: seq<Point>, start: string): seq<Point> {
    if t == [] then []
    else From(t[..|t| - 1], start) + (if AtLeast(t[|t| - 1].date, start) then [t[|t| - 1]] else [])
  }

  /** The loop after k days: the next day to print and the next row to count. */
  ghost predicate Progress(rows: seq<DailyCount>, days: seq<Date>, today: Date, k: nat, cursor: Date, next: nat) {
    && DatedBy(rows, days, today)
    && IsDay(cursor) && cursor == Plus(FirstDay(days, today), k)
    && (k > 0 ==> IsDay(Plus(FirstDay(days, today), k - 1)) && Rank(Plus(FirstDay(days, today), k - 1)) <= Rank(today))
    && next <= |rows|
    && (forall i :: 0 <= i < next ==> Rank(days[i]) < Rank(cursor))
    && (forall i :: next <= i < |rows| ==> Rank(cursor) <= Rank(days[i]))
  }

  lemma OneDay(rows: seq<DailyCount>, days: seq<Date>, today: Date, k: nat, cursor: Date, next: nat)
    requires Progress(rows, days, today, k, cursor, next)
    requires Rank(cursor) <= Rank(today) && today.year < 9999
    ensures var hit := next < |rows| && rows[next].date == FormatDate(cursor);
      var next' := if hit then next + 1 else next;
      && Progress(rows, days, today, k + 1, NextDay(cursor), next')
      && SignedUpBy(rows, days, |rows|, cursor) == Total(rows, next')
      && Rank(NextDay(cursor)) > Rank(cursor)
  {
    hide FormatDate, SignedUpBy, Total, Rank;
    var hit := next < |rows| && rows[next].date == FormatDate(cursor);
    var next' := if hit then next + 1 else next;
    NextIsLater(cursor);
    assert cursor.year < 9999 by { RankOrder(cursor, today); RankOrder(today, cursor); }
    if next < |rows| {
      TextOrder(days[next], cursor);
      RankOrder(cursor, days[next]);
    }
    forall i | next' <= i < |rows| ensures Rank(days[i]) > Rank(cursor) && Rank(NextDay(cursor)) <= Rank(days[i]) {
      NothingBetween(cursor, days[i]);
    }
    SignedUpIsPrefix(rows, days, |rows|, next', cursor);
  }

  lemma AtEnd(rows: seq<DailyCount>, days: seq<Date>, today: Date, k: nat, cursor: Date, next: nat)
    requires Progress(rows, days, today, k, cursor, next) && Rank(cursor) > Rank(today)
    ensures k > 0 && Plus(FirstDay(days, today), k - 1) == today
  {
    hide Rank, FormatDate, IsDay;
    var before := Plus(FirstDay(days, today), k - 1);
    RankOrder(before, today);
    if Rank(before) < Rank(today) {
      NothingBetween(before, today);
    }
  }

  /** The loop over the days; `days` only says what the rows mean. */
  method BuildTimeline(rows: seq<DailyCount>, today: Date, ghost days: seq<Date>)
    returns (fullStart: Date, timeline: seq<Point>)
    requires DatedBy(rows, days, today) && today.year < 9999
    ensures fullStart == FirstDay(days, today)
    ensures IsFullTimeline(timeline, rows, days, today)
  {
    hide Rank, FormatDate, IsDay, Plus, SignedUpBy, ParseDate, NextDay;
    if |rows| > 0 {
      ParseFormat(days[0]);
      fullStart := ParseDate(rows[0].date);
    } else {
      fullStart := today;
    }
    AtStart(rows, days, today);
    timeline := [];
    var cursor := fullStart;
    var runningTotal := 0;
    var dataIdx := 0;
    while Rank(cursor) <= Rank(today)
      invariant Progress(rows, days, today, |timeline|, cursor, dataIdx)
      invariant runningTotal == Total(rows, dataIdx)
      invariant forall k :: 0 <= k < |timeline| ==> IsEntry(timeline[k], k, rows, days, today)
      decreases Rank(today) + 1 - Rank(cursor)
    {
      OneDay(rows, days, today, |timeline|, cursor, dataIdx);
      var dateStr := FormatDate(cursor);
      if dataIdx < |rows| && rows[dataIdx].date == dateStr {
        runningTotal := runningTotal + rows[dataIdx].count;
        dataIdx := dataIdx + 1;
      }
      timeline := timeline + [Point(dateStr, runningTotal)];
      cursor := NextDay(cursor);
    }
    AtEnd(rows, days, today, |timeline|, cursor, dataIdx);
  }

  lemma AtStart(rows: seq<DailyCount>, days: seq<Date>, today: Date)
    requires DatedBy(rows, days, today)
    ensures Progress(rows, days, today, 0, FirstDay(days, today), 0)
  {
  }

  /** The days a window reaches back from today; any unknown text means a week. */
  function DaysBack(window: string, today: Date): nat
    requires IsDay(today)
  {
    if window == "2s" then 13 else if window == "1m" then LastMonthLength(today) else 6
  }

  function WindowStart(window: string, today: Date, fullStart: Date): Date
    requires IsDay(today) && today.year > 1031
  {
    if window == "2s" then Minus(today, 13)
    else if window == "1m" then MonthBack(today)
    else if window == "all" then fullStart
    else Minus(today, 6)
  }

  /** How many of n entries a window shows. */
  function Shown(window: string, today: Date, n: nat): nat
    requires IsDay(today)
  {
    if window == "all" || n <= DaysBack(window, today) then n else DaysBack(window, today) + 1
  }

  /** The sizes of the windows: a week, two weeks, a month by the calendar, everything. */
  lemma WindowSizes(today: Date, n: nat)
    requires IsDay(today)
    ensures Shown("7d", today, n) == if n < 7 then n else 7
    ensures Shown("2s", today, n) == if n < 14 then n else 14
    ensures Shown("all", today, n) == n
    ensures today.month == 3 && IsLeap(today.year) ==> Shown("1m", today, n) == if n < 30 then n else 30
    ensures today.month == 3 && !IsLeap(today.year) ==> Shown("1m", today, n) == if n < 29 then n else 29
    ensures today.month in {5, 7, 10, 12} ==> Shown("1m", today, n) == if n < 31 then n else 31
    ensures today.month in {1, 2, 4, 6, 8, 9, 11} ==> Shown("1m", today, n) == if n < 32 then n else 32
    ensures forall window :: window !in {"7d", "2s", "all", "1m"} ==> Shown(window, today, n) == Shown("7d", today, n)
  {
  }

  predicate IsShown(shown: seq<Point>, full: seq<Point>, window: string, today: Date)
    requires IsDay(today)
  {
    shown == full[|full| - Shown(window, today, |full|)..]
  }

  method GetTimeline(rows: seq<DailyCount>, today: Date, window: string, ghost days: seq<Date>)
    returns (shown: seq<Point>)
    requires DatedBy(rows, days, today) && 1031 < today.year < 9999
    ensures exists full: seq<Point> :: IsFullTimeline(full, rows, days, today) && IsShown(shown, full, window, today)
  {
    var fullStart, timeline := BuildTimeline(rows, today, days);
    var windowStart := WindowStart(window, today, fullStart);
    WindowIsSuffix(timeline, rows, days, today, window);
    shown := From(timeline, FormatDate(windowStart));
    assert IsShown(shown, timeline, window, today);
  }

  /** The full timeline is the only one of its kind, so what is shown is determined. */
  lemma FullTimelineUnique(t: seq<Point>, u: seq<Point>, rows: seq<DailyCount>, days: seq<Date>, today: Date)
    requires |rows| == |days| && IsFullTimeline(t, rows, days, today) && IsFullTimeline(u, rows, days, today)
    ensures t == u
  {
    hide IsDay, Rank;
    EntryDays(t, rows, days, today);
    EntryDays(u, rows, days, today);
    if |t| < |u| {
      PlusIsLater(FirstDay(days, today), |t| - 1, |u| - 1);
    } else if |u| < |t| {
      PlusIsLater(FirstDay(days, today), |u| - 1, |t| - 1);
    }
    assert forall k :: 0 <= k < |t| ==> t[k] == u[k];
  }

  // ---- the window is a suffix ------------------------------------------------------------------------

  lemma {:induction false} FromIsSuffix(t: seq<Point>, start: string, cut: nat)
    requires cut <= |t|
    requires forall k :: 0 <= k < cut ==> !AtLeast(t[k].date, start)
    requires forall k :: cut <= k < |t| ==> AtLeast(t[k].date, start)
    ensures From(t, start) == t[cut..]
  {
    hide AtLeast, Less;
    if t != [] {
      var n := |t| - 1;
      if cut <= n {
        FromIsSuffix(t[..n], start, cut);
        SuffixGrows(t, cut);
      } else {
        FromIsSuffix(t[..n], start, n);
      }
    }
  }

  lemma SuffixGrows(t: seq<Point>, cut: nat)
    requires cut < |t|
    ensures t[..|t| - 1][cut..] + [t[|t| - 1]] == t[cut..]
  {
  }

  lemma {:induction false} PlusIsLater(d: Date, i: nat, j: nat)
    requires i < j && forall k :: i <= k <= j ==> IsDay(Plus(d, k))
    ensures Rank(Plus(d, i)) < Rank(Plus(d, j))
  {
    hide Rank, IsDay;
    NextIsLater(Plus(d, j - 1));
    if i < j - 1 {
      PlusIsLater(d, i, j - 1);
    }
  }

  /** Going back from a later entry gives the earlier one. */
  lemma {:induction false} MinusUndoesPlus(d: Date, n: nat, back: nat)
    requires back <= n && forall k :: 0 <= k <= n ==> IsDay(Plus(d, k))
    requires Plus(d, n).year > 1000 + back
    ensures Minus(Plus(d, n), back) == Plus(d, n - back)
  {
    if back > 0 {
      MinusUndoesPlus(d, n, back - 1);
      NextIsLater(Plus(d, n - back));
    }
  }

  lemma {:induction false} MinusIsEarlier(d: Date, i: nat, j: nat)
    requires i < j && IsDay(d) && d.year > 1000 + j
    ensures Rank(Minus(d, j)) < Rank(Minus(d, i))
  {
    hide Rank, IsDay, NextDay, PrevDay;
    NextIsLater(Minus(d, j - 1));
    NextIsLater(Minus(d, j));
    if i < j - 1 {
      MinusIsEarlier(d, i, j - 1);
    }
  }

  lemma SuffixAt(t: seq<Point>, rows: seq<DailyCount>, days: seq<Date>, today: Date, start: Date, cut: nat)
    requires |rows| == |days| && IsFullTimeline(t, rows, days, today) && IsDay(start) && cut <= |t|
    requires forall k :: 0 <= k < cut ==> Rank(Plus(FirstDay(days, today), k)) < Rank(start)
    requires forall k :: cut <= k < |t| ==> Rank(start) <= Rank(Plus(FirstDay(days, today), k))
    ensures From(t, FormatDate(start)) == t[cut..]
  {
    hide Rank, FormatDate, IsDay, Plus, SignedUpBy, From, FirstDay;
    var first := FirstDay(days, today);
    forall k | 0 <= k < |t| ensures AtLeast(t[k].date, FormatDate(start)) <==> k >= cut {
      assert IsEntry(t[k], k, rows, days, today);
      TextOrder(Plus(first, k), start);
    }
    FromIsSuffix(t, FormatDate(start), cut);
  }

  lemma EntryDays(t: seq<Point>, rows: seq<DailyCount>, days: seq<Date>, today: Date)
    requires |rows| == |days| && IsFullTimeline(t, rows, days, today)
    ensures forall k :: 0 <= k < |t| ==> IsDay(Plus(FirstDay(days, today), k))
  {
    hide FirstDay, Plus, IsDay;
    forall k | 0 <= k < |t| ensures IsDay(Plus(FirstDay(days, today), k)) {
      assert IsEntry(t[k], k, rows, days, today);
    }
  }

  /** Counting from a day that is entry `cut`, the window is everything from that entry on. */
  lemma SuffixFrom(t: seq<Point>, rows: seq<DailyCount>, days: seq<Date>, today: Date, cut: nat)
    requires |rows| == |days| && IsFullTimeline(t, rows, days, today) && cut < |t|
    ensures IsDay(Plus(FirstDay(days, today), cut))
    ensures From(t, FormatDate(Plus(FirstDay(days, today), cut))) == t[cut..]
  {
    hide Rank, FormatDate, IsDay, Plus, SignedUpBy, From, FirstDay, IsFullTimeline;
    var first := FirstDay(days, today);
    EntryDays(t, rows, days, today);
    forall k | 0 <= k < cut ensures Rank(Plus(first, k)) < Rank(Plus(first, cut)) {
      PlusIsLater(first, k, cut);
    }
    forall k | cut <= k < |t| ensures Rank(Plus(first, cut)) <= Rank(Plus(first, k)) {
      if k > cut {
        PlusIsLater(first, cut, k);
      }
    }
    SuffixAt(t, rows, days, today, Plus(first, cut), cut);
  }

  lemma LastIsToday(t: seq<Point>, rows: seq<DailyCount>, days: seq<Date>, today: Date)
    requires |rows| == |days| && IsFullTimeline(t, rows, days, today)
    ensures |t| > 0 && Plus(FirstDay(days, today), |t| - 1) == today
  {
  }

  /** A window longer than the timeline starts before the first day and shows everything. */
  lemma WholeTimeline(t: seq<Point>, rows: seq<DailyCount>, days: seq<Date>, today: Date, start: Date)
    requires |rows| == |days| && IsFullTimeline(t, rows, days, today) && IsDay(start)
    requires Rank(start) < Rank(FirstDay(days, today))
    ensures From(t, FormatDate(start)) == t[0..]
  {
    hide Rank, FormatDate, IsDay, SignedUpBy, From, FirstDay, IsFullTimeline;
    var first := FirstDay(days, today);
    EntryDays(t, rows, days, today);
    forall k | 0 <= k < |t| ensures Rank(start) <= Rank(Plus(first, k)) {
      if k > 0 {
        PlusIsLater(first, 0, k);
      }
    }
    SuffixAt(t, rows, days, today, start, 0);
  }

  lemma BackInside(t: seq<Point>, rows: seq<DailyCount>, days: seq<Date>, today: Date, back: nat)
    requires |rows| == |days| && IsFullTimeline(t, rows, days, today) && IsDay(today) && today.year > 1000 + back
    requires |t| > back
    ensures From(t, FormatDate(Minus(today, back))) == t[|t| - 1 - back..]
  {
    hide Rank, FormatDate, IsDay, IsEntry, SignedUpBy, From, FirstDay, IsFullTimeline, Minus, Plus;
    EntryDays(t, rows, days, today);
    LastIsToday(t, rows, days, today);
    MinusUndoesPlus(FirstDay(days, today), |t| - 1, back);
    SuffixFrom(t, rows, days, today, |t| - 1 - back);
  }

  lemma BackBeyond(t: seq<Point>, rows: seq<DailyCount>, days: seq<Date>, today: Date, back: nat)
    requires |rows| == |days| && IsFullTimeline(t, rows, days, today) && IsDay(today) && today.year > 1000 + back
    requires |t| <= back
    ensures From(t, FormatDate(Minus(today, back))) == t[0..]
  {
    hide Rank, FormatDate, IsDay, IsEntry, SignedUpBy, From, FirstDay, IsFullTimeline, Minus, Plus;
    var first, last := FirstDay(days, today), |t| - 1;
    EntryDays(t, rows, days, today);
    LastIsToday(t, rows, days, today);
    MinusUndoesPlus(first, last, last);
    PlusNone(first);
    MinusIsEarlier(today, last, back);
    WholeTimeline(t, rows, days, today, Minus(today, back));
  }

  lemma PlusNone(d: Date)
    ensures Plus(d, 0) == d
  {
  }

  lemma SuffixBack(t: seq<Point>, rows: seq<DailyCount>, days: seq<Date>, today: Date, back: nat)
    requires |rows| == |days| && IsFullTimeline(t, rows, days, today) && IsDay(today) && today.year > 1000 + back
    ensures From(t, FormatDate(Minus(today, back))) == t[if |t| > back then |t| - 1 - back else 0..]
  {
    hide FormatDate, IsDay, From, IsFullTimeline, Minus;
    if |t| > back {
      BackInside(t, rows, days, today, back);
    } else {
      BackBeyond(t, rows, days, today, back);
    }
  }

  lemma StartIsBack(window: string, today: Date, fullStart: Date)
    requires IsDay(today) && today.year > 1031 && window != "all"
    ensures DaysBack(window, today) <= 31
    ensures WindowStart(window, today, fullStart) == Minus(today, DaysBack(window, today))
  {
    MonthBackIsDays(today);
  }

  /** The text comparison keeps exactly the last entries that the window asks for. */
  lemma WindowIsSuffix(t: seq<Point>, rows: seq<DailyCount>, days: seq<Date>, today: Date, window: string)
    requires |rows| == |days| && IsFullTimeline(t, rows, days, today) && IsDay(today) && today.year > 1031
    ensures IsDay(WindowStart(window, today, FirstDay(days, today)))
    ensures From(t, FormatDate(WindowStart(window, today, FirstDay(days, today)))) == t[|t| - Shown(window, today, |t|)..]
  {
    hide Rank, FormatDate, IsDay, SignedUpBy, From, FirstDay, IsFullTimeline;
    if window == "all" {
      EntryDays(t, rows, days, today);
      LastIsToday(t, rows, days, today);
      SuffixFrom(t, rows, days, today, 0);
      assert Plus(FirstDay(days, today), 0) == FirstDay(days, today);
    } else {
      StartIsBack(window, today, FirstDay(days, today));
      SuffixBack(t, rows, days, today, DaysBack(window, today));
    }
  }

  /** The last entry of the full timeline carries the grand total. */
  lemma LastIsTotal(t: seq<Point>, rows: seq<DailyCount>, days: seq<Date>, today: Date)
    requires DatedBy(rows, days, today) && IsFullTimeline(t, rows, days, today)
    ensures t[|t| - 1] == Point(FormatDate(today), Total(rows, |rows|))
  {
    assert IsEntry(t[|t| - 1], |t| - 1, rows, days, today);
    SignedUpIsPrefix(rows, days, |rows|, |rows|, today);
  }

  /** Consecutive entries differ by the sign-ups of the later day, so the counts never go down. */
  lemma {:induction false} DailyDifference(rows: seq<DailyCount>, days: seq<Date>, n: nat, day: Date)
    requires n <= |rows| == |days| && IsDay(day) && (forall i :: 0 <= i < n ==> IsDay(days[i]))
    requires forall i, j :: 0 <= i < j < n ==> Rank(days[i]) < Rank(days[j])
    ensures SignedUpBy(rows, days, n, NextDay(day)) - SignedUpBy(rows, days, n, day) == OnDay(rows, days, n, NextDay(day))
  {
    if n > 0 {
      DailyDifference(rows, days, n - 1, day);
      NextIsLater(day);
      if Rank(day) < Rank(days[n - 1]) {
        NothingBetween(day, days[n - 1]);
      }
    }
  }

  /** The sign-ups dated on one day. */
  ghost function OnDay(rows: seq<DailyCount>, days: seq<Date>, n: nat, day: Date): nat
    requires n <= |rows| == |days|
  {
    if n == 0 then 0 else OnDay(rows, days, n - 1, day) + (if Rank(days[n - 1]) == Rank(day) then rows[n - 1].count else 0)
  }
}
