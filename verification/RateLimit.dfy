/**
 The in-memory limiter of the authentication endpoints: a fixed window per key, opened by a request,
 with stale windows of all keys pruned whenever one is opened.
 */
module RateLimit {
  import opened Wrappers

  const WINDOW_MS: int := 60000
  const MAX_ATTEMPTS: nat := 10

  datatype Window = Window(count: nat, start: int)

  type Windows = map<string, Window>

  function Key(path: string, ip: Option<string>): string {
    path + ":" + (if ip.Some? then ip.value else "unknown")
  }

  /** Two clients of one path are told apart, as are two paths of one client. */
  lemma KeysTellApart(path: string, ip: Option<string>, otherPath: string, otherIp: Option<string>)
    ensures Key(path, ip) == Key(path, otherIp) <==> NameOf(ip) == NameOf(otherIp)
    ensures Key(path, ip) == Key(otherPath, ip) <==> path == otherPath
    ensures Key("/auth/login", Some("10.0.0.1")) == "/auth/login:10.0.0.1" && Key("/auth/login", None) == "/auth/login:unknown"
  {
    SameTail(path + ":", NameOf(ip), NameOf(otherIp));
    SameFront(path, otherPath, ":" + NameOf(ip));
    assert Key(path, ip) == path + (":" + NameOf(ip)) && Key(otherPath, ip) == otherPath + (":" + NameOf(ip));
  }

  /** Clients without an address count as one. */
  function NameOf(ip: Option<string>): string {
    match ip
    case Some(address) => address
    case None => "unknown"
  }

  lemma SameTail(front: string, a: string, b: string)
    ensures front + a == front + b <==> a == b
  {
    if front + a == front + b {
      assert a == (front + a)[|front|..] && b == (front + b)[|front|..];
    }
  }

  lemma SameFront(a: string, b: string, tail: string)
    ensures a + tail == b + tail <==> a == b
  {
    if a + tail == b + tail {
      assert |a| == |b|;
      assert a == (a + tail)[..|a|] && b == (b + tail)[..|b|];
    }
  }

  predicate Stale(w: Window, now: int) {
    now - w.start >= WINDOW_MS
  }

  function Pruned(ws: Windows, now: int): Windows {
    map k | k in ws && !Stale(ws[k], now) :: ws[k]
  }

  predicate Opens(ws: Windows, key: string, now: int) {
    key !in ws || Stale(ws[key], now)
  }

  /** One request: the windows it leaves and whether it is let through. */
  function Step(ws: Windows, key: string, now: int): (Windows, bool) {
    if Opens(ws, key, now) then (Pruned(ws, now)[key := Window(1, now)], true)
    else
      var w := Window(ws[key].count + 1, ws[key].start);
      (ws[key := w], w.count <= MAX_ATTEMPTS)
  }

  /** A window lives for a minute from its first request; the tenth request in it is the last let through. */
  lemma StepExactly(ws: Windows, key: string, now: int, other: string)
    ensures var (after, allowed) := Step(ws, key, now);
      && (allowed <==> key !in ws || now - ws[key].start >= 60000 || ws[key].count < 10)
      && key in after
      && (if key in ws && now - ws[key].start < 60000
          then after[key] == Window(ws[key].count + 1, ws[key].start) && after.Keys == ws.Keys
               && (other in ws && other != key ==> after[other] == ws[other])
          else && after[key].count == 1 && after[key].start == now
               && (other != key ==> (other in after <==> other in ws && now - ws[other].start < 60000))
               && (other != key && other in after ==> after[other] == ws[other]))
  {
  }

  class AuthRateLimitGuard {
    var windows: Windows

    constructor ()
      ensures windows == map[]
    {
      windows := map[];
    }

    /** Refusal is the exception the guard throws. */
    method CanActivate(path: string, ip: Option<string>, now: int) returns (allowed: bool)
      modifies this
      ensures (windows, allowed) == Step(old(windows), Key(path, ip), now)
    {
      var key := path + ":" + (if ip.Some? then ip.value else "unknown");
      if key !in windows || now - windows[key].start >= WINDOW_MS {
        PruneExpired(now);
        windows := windows[key := Window(1, now)];
        return true;
      }
      windows := windows[key := Window(windows[key].count + 1, windows[key].start)];
      if windows[key].count > MAX_ATTEMPTS { return false; }
      return true;
    }

    method PruneExpired(now: int)
      modifies this
      ensures windows == Pruned(old(windows), now)
    {
      var rest := windows.Keys;
      while rest != {}
        invariant rest <= windows.Keys <= old(windows).Keys
        invariant forall k :: k in windows ==> windows[k] == old(windows)[k]
        invariant forall k :: k in old(windows) && k !in rest ==> (k in windows <==> !Stale(old(windows)[k], now))
        decreases rest
      {
        var key :| key in rest;
        rest := rest - {key};
        if now - windows[key].start >= WINDOW_MS {
          windows := windows - {key};
        }
      }
    }
  }

  // ---- runs ---------------------------------------------------------------------------------------

  datatype Request = Request(key: string, at: int)

  datatype Entry = Entry(key: string, at: int, allowed: bool)

  predicate ClockOk(trace: seq<Request>) {
    forall i, j :: 0 <= i < j < |trace| ==> trace[i].at <= trace[j].at
  }

  /** The limiter's windows and its decisions after a trace of requests. */
  function Run(trace: seq<Request>): (Windows, seq<Entry>) {
    if trace == [] then (map[], [])
    else
      var (ws, log) := Run(trace[..|trace| - 1]);
      var r := trace[|trace| - 1];
      var (ws', allowed) := Step(ws, r.key, r.at);
      (ws', log + [Entry(r.key, r.at, allowed)])
  }

  /** The same limiter without pruning. */
  function StepKeeping(ws: Windows, key: string, now: int): (Windows, bool) {
    if Opens(ws, key, now) then (ws[key := Window(1, now)], true)
    else
      var w := Window(ws[key].count + 1, ws[key].start);
      (ws[key := w], w.count <= MAX_ATTEMPTS)
  }

  function RunKeeping(trace: seq<Request>): (Windows, seq<Entry>) {
    if trace == [] then (map[], [])
    else
      var (ws, log) := RunKeeping(trace[..|trace| - 1]);
      var r := trace[|trace| - 1];
      var (ws', allowed) := StepKeeping(ws, r.key, r.at);
      (ws', log + [Entry(r.key, r.at, allowed)])
  }

  /** Pruning forgets only windows that are stale, and stale windows are replaced anyway. */
  ghost predicate Forgets(pruned: Windows, kept: Windows, now: int) {
    && (forall k :: k in pruned ==> k in kept && pruned[k] == kept[k])
    && (forall k :: k in kept && k !in pruned ==> Stale(kept[k], now))
  }

  /** Pruning never changes a decision: the limiter refines the one that never deletes a window. */
  lemma {:induction false} PruningInvisible(trace: seq<Request>)
    requires ClockOk(trace)
    ensures Run(trace).1 == RunKeeping(trace).1
    ensures trace != [] ==> Forgets(Run(trace).0, RunKeeping(trace).0, trace[|trace| - 1].at)
    ensures trace == [] ==> Run(trace).0 == RunKeeping(trace).0
  {
    if trace != [] {
      var before := trace[..|trace| - 1];
      PruningInvisible(before);
    }
  }

  // ---- how many requests an interval can hold ---------------------------------------------------------

  /** The allowed requests of one key in the half-open interval [lo, hi). */
  function Count(log: seq<Entry>, key: string, lo: int, hi: int): nat {
    if log == [] then 0
    else
      var e := log[|log| - 1];
      Count(log[..|log| - 1], key, lo, hi) + (if e.allowed && e.key == key && lo <= e.at < hi then 1 else 0)
  }

  lemma CountAppend(log: seq<Entry>, e: Entry, key: string, lo: int, hi: int)
    ensures Count(log + [e], key, lo, hi)
         == Count(log, key, lo, hi) + (if e.allowed && e.key == key && lo <= e.at < hi then 1 else 0)
  {
    assert (log + [e])[..|log|] == log;
  }

  lemma {:induction false} CountSplits(log: seq<Entry>, key: string, lo: int, mid: int, hi: int)
    requires lo <= mid <= hi
    ensures Count(log, key, lo, hi) == Count(log, key, lo, mid) + Count(log, key, mid, hi)
  {
    if log != [] {
      CountSplits(log[..|log| - 1], key, lo, mid, hi);
    }
  }

  lemma CountNarrower(log: seq<Entry>, key: string, lo: int, hi: int, lo': int, hi': int)
    requires lo' <= lo && hi <= hi'
    ensures Count(log, key, lo, hi) <= Count(log, key, lo', hi')
  {
    if lo <= hi {
      CountSplits(log, key, lo', lo, hi');
      CountSplits(log, key, lo, hi, hi');
    } else {
      CountEmpty(log, key, lo, hi);
    }
  }

  lemma {:induction false} CountEmpty(log: seq<Entry>, key: string, lo: int, hi: int)
    requires hi <= lo
    ensures Count(log, key, lo, hi) == 0
  {
    if log != [] {
      CountEmpty(log[..|log| - 1], key, lo, hi);
    }
  }

  lemma {:induction false} CountNone(log: seq<Entry>, key: string, lo: int, hi: int)
    requires forall i :: 0 <= i < |log| && log[i].key == key && log[i].allowed ==> log[i].at < lo
    ensures Count(log, key, lo, hi) == 0
  {
    if log != [] {
      CountNone(log[..|log| - 1], key, lo, hi);
    }
  }

  function AtMost(n: nat): nat {
    if n < MAX_ATTEMPTS then n else MAX_ATTEMPTS
  }

  /** What the log of one key looks like, seen from the window the key has at time `now`. */
  ghost predicate KeyInv(ws: Windows, log: seq<Entry>, key: string, now: int) {
    && (forall i :: 0 <= i < |log| ==> log[i].at <= now)
    && (key !in ws ==> forall lo, hi :: Count(log, key, lo, hi) == 0)
    && (key in ws ==>
          var w := ws[key];
          && 1 <= w.count && w.start <= now
          && (forall i :: 0 <= i < |log| && log[i].key == key && log[i].allowed ==> log[i].at < w.start + WINDOW_MS)
          && Count(log, key, w.start, now + 1) == AtMost(w.count)
          && Count(log, key, w.start, w.start + 1) >= 1
          && Count(log, key, w.start - WINDOW_MS + 1, w.start) <= MAX_ATTEMPTS - 1)
  }

  lemma Advance(ws: Windows, log: seq<Entry>, key: string, now: int, later: int)
    requires KeyInv(ws, log, key, now) && now <= later
    ensures KeyInv(ws, log, key, later)
  {
    if key in ws {
      CountSplits(log, key, ws[key].start, now + 1, later + 1);
      CountNone(log, key, now + 1, later + 1);
    }
  }

  /** Requests of the last window that are later than its first instant number at most nine. */
  lemma AfterStart(ws: Windows, log: seq<Entry>, key: string, now: int, lo: int, hi: int)
    requires KeyInv(ws, log, key, now) && key in ws && ws[key].start < lo
    ensures Count(log, key, lo, hi) <= MAX_ATTEMPTS - 1
  {
    var s := ws[key].start;
    var end := if hi < now + 1 then now + 1 else hi;
    CountNarrower(log, key, lo, hi, s + 1, end);
    CountSplits(log, key, s, s + 1, now + 1);
    CountSplits(log, key, s + 1, now + 1, end);
    CountNone(log, key, now + 1, end);
  }

  /** A request that opens a window: all earlier ones of its key are at least nine or lie before. */
  lemma OpeningStep(ws: Windows, log: seq<Entry>, key: string, now: int)
    requires KeyInv(ws, log, key, now) && Opens(ws, key, now)
    ensures KeyInv(ws[key := Window(1, now)], log + [Entry(key, now, true)], key, now)
  {
    var e := Entry(key, now, true);
    CountAppend(log, e, key, now, now + 1);
    CountAppend(log, e, key, now - WINDOW_MS + 1, now);
    if key in ws {
      AfterStart(ws, log, key, now, now - WINDOW_MS + 1, now);
      CountNone(log, key, now, now + 1);
    }
  }

  lemma JoiningStep(ws: Windows, log: seq<Entry>, key: string, now: int)
    requires KeyInv(ws, log, key, now) && !Opens(ws, key, now)
    ensures var w := Window(ws[key].count + 1, ws[key].start);
      KeyInv(ws[key := w], log + [Entry(key, now, w.count <= MAX_ATTEMPTS)], key, now)
  {
    var s := ws[key].start;
    var e := Entry(key, now, ws[key].count + 1 <= MAX_ATTEMPTS);
    CountAppend(log, e, key, s, now + 1);
    CountAppend(log, e, key, s, s + 1);
    CountAppend(log, e, key, s - WINDOW_MS + 1, s);
  }

  lemma OtherStep(ws: Windows, log: seq<Entry>, key: string, now: int, r: Request)
    requires KeyInv(ws, log, key, now) && r.key != key && r.at == now
    ensures var (ws', allowed) := StepKeeping(ws, r.key, now);
      KeyInv(ws', log + [Entry(r.key, now, allowed)], key, now)
  {
    var (ws', allowed) := StepKeeping(ws, r.key, now);
    var e := Entry(r.key, now, allowed);
    forall lo, hi ensures Count(log + [e], key, lo, hi) == Count(log, key, lo, hi) {
      CountAppend(log, e, key, lo, hi);
    }
  }

  lemma {:induction false} InvHolds(trace: seq<Request>, key: string)
    requires ClockOk(trace) && trace != []
    ensures var (ws, log) := RunKeeping(trace); KeyInv(ws, log, key, trace[|trace| - 1].at)
  {
    var before, r := trace[..|trace| - 1], trace[|trace| - 1];
    var (ws, log) := RunKeeping(before);
    if before == [] {
      assert KeyInv(ws, log, key, r.at);
    } else {
      InvHolds(before, key);
      Advance(ws, log, key, before[|before| - 1].at, r.at);
    }
    if r.key != key {
      OtherStep(ws, log, key, r.at, r);
    } else if Opens(ws, key, r.at) {
      OpeningStep(ws, log, key, r.at);
    } else {
      JoiningStep(ws, log, key, r.at);
    }
  }

  /** With one more request, an interval that contains it holds at most nineteen. */
  lemma IntervalWithLast(ws: Windows, log: seq<Entry>, key: string, now: int, lo: int)
    requires KeyInv(ws, log, key, now) && key in ws && lo <= now < lo + WINDOW_MS
    ensures Count(log, key, lo, lo + WINDOW_MS) <= 2 * MAX_ATTEMPTS - 1
  {
    var s := ws[key].start;
    var hi := lo + WINDOW_MS;
    CountSplits(log, key, lo, now + 1, hi);
    CountNone(log, key, now + 1, hi);
    if s < lo {
      AfterStart(ws, log, key, now, lo, now + 1);
    } else {
      CountSplits(log, key, lo, s, now + 1);
      CountNarrower(log, key, lo, s, s - WINDOW_MS + 1, s);
    }
  }

  lemma {:induction false} IntervalBoundKeeping(trace: seq<Request>, key: string, lo: int)
    requires ClockOk(trace)
    ensures Count(RunKeeping(trace).1, key, lo, lo + WINDOW_MS) <= 2 * MAX_ATTEMPTS - 1
  {
    if trace != [] {
      var before, r := trace[..|trace| - 1], trace[|trace| - 1];
      var (ws, log) := RunKeeping(trace);
      IntervalBoundKeeping(before, key, lo);
      if r.key == key && lo <= r.at < lo + WINDOW_MS {
        InvHolds(trace, key);
        IntervalWithLast(ws, log, key, r.at, lo);
      } else {
        CountAppend(RunKeeping(before).1, log[|log| - 1], key, lo, lo + WINDOW_MS);
      }
    }
  }

  /** In no half-open minute are more than nineteen requests of one key let through. */
  lemma IntervalBound(trace: seq<Request>, key: string, lo: int)
    requires ClockOk(trace)
    ensures Count(Run(trace).1, key, lo, lo + 60000) <= 19
  {
    PruningInvisible(trace);
    IntervalBoundKeeping(trace, key, lo);
  }

  /** A request is refused only after ten of its key were let through within the preceding minute. */
  lemma RefusalJustified(trace: seq<Request>)
    requires ClockOk(trace) && trace != []
    requires var log := Run(trace).1; !log[|log| - 1].allowed
    ensures var r := trace[|trace| - 1];
      Count(Run(trace[..|trace| - 1]).1, r.key, r.at - 59999, r.at + 1) >= 10
  {
    var before, r := trace[..|trace| - 1], trace[|trace| - 1];
    PruningInvisible(trace);
    PruningInvisible(before);
    var (ws, log) := RunKeeping(before);
    if before != [] {
      InvHolds(before, r.key);
      Advance(ws, log, r.key, before[|before| - 1].at, r.at);
      CountNarrower(log, r.key, ws[r.key].start, r.at + 1, r.at - WINDOW_MS + 1, r.at + 1);
    }
  }

  // ---- the bound is reached ---------------------------------------------------------------------------

  function Burst(key: string, at: int, n: nat): seq<Request> {
    seq(n, i => Request(key, at))
  }

  lemma OneMore(before: seq<Request>, r: Request, lo: int, hi: int)
    requires var ws := RunKeeping(before).0;
      r.key in ws && !Stale(ws[r.key], r.at) && ws[r.key].count + 1 <= MAX_ATTEMPTS
    requires lo <= r.at < hi
    ensures var (ws, log) := RunKeeping(before);
      var (ws', log') := RunKeeping(before + [r]);
      && ws' == ws[r.key := Window(ws[r.key].count + 1, ws[r.key].start)]
      && Count(log', r.key, lo, hi) == Count(log, r.key, lo, hi) + 1
  {
    assert (before + [r])[..|before|] == before;
    CountAppend(RunKeeping(before).1, Entry(r.key, r.at, true), r.key, lo, hi);
  }

  lemma {:induction false} BurstAllowed(before: seq<Request>, key: string, at: int, n: nat, lo: int, hi: int)
    requires var ws := RunKeeping(before).0;
      key in ws && !Stale(ws[key], at) && ws[key].count + n <= MAX_ATTEMPTS
    requires lo <= at < hi
    ensures var (ws, log) := RunKeeping(before);
      var (ws', log') := RunKeeping(before + Burst(key, at, n));
      && key in ws' && ws'[key] == Window(ws[key].count + n, ws[key].start)
      && Count(log', key, lo, hi) == Count(log, key, lo, hi) + n
  {
    hide RunKeeping, Count;
    if n == 0 {
      assert before + Burst(key, at, 0) == before;
    } else {
      BurstAllowed(before, key, at, n - 1, lo, hi);
      assert before + Burst(key, at, n) == before + Burst(key, at, n - 1) + [Request(key, at)];
      OneMore(before + Burst(key, at, n - 1), Request(key, at), lo, hi);
    }
  }

  function Opener(key: string, at: int): seq<Request> {
    [Request(key, at)]
  }

  /** One request, nine at the end of its window and ten in the next: nineteen within a minute. */
  function FullMinute(key: string): seq<Request> {
    Opener(key, 0) + Burst(key, 59999, 9) + Opener(key, 60000) + Burst(key, 60000, 9)
  }

  lemma BoundReached(key: string)
    ensures ClockOk(FullMinute(key))
    ensures Count(Run(FullMinute(key)).1, key, 59999, 59999 + 60000) == 19
  {
    var a := Opener(key, 0);
    assert a[..0] == [];
    assert RunKeeping(a).0 == map[key := Window(1, 0)];
    CountAppend([], Entry(key, 0, true), key, 59999, 119999);
    assert RunKeeping(a).1 == [] + [Entry(key, 0, true)];
    BurstAllowed(a, key, 59999, 9, 59999, 119999);
    var b := a + Burst(key, 59999, 9);
    var c := b + Opener(key, 60000);
    assert c[..|c| - 1] == b;
    CountAppend(RunKeeping(b).1, Entry(key, 60000, true), key, 59999, 119999);
    BurstAllowed(c, key, 60000, 9, 59999, 119999);
    PruningInvisible(FullMinute(key));
  }
}
