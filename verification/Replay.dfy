/**
 A log of contract events reaches the listener as any run of polls, failed polls, restarts and processes that
 stop in the middle of a page, with pages that start again at the last ledger. The tables are then one
 in-order pass over the log as far as it was reached, for every such run, exactly when no entry of the log
 could still take effect at any later place of that pass.
 */
module Replay {
  import opened Wrappers
  import opened Numbers
  import opened EventTypes
  import opened EscrowTables
  import opened Listener

  type Log = seq<ChainEvent>

  /** One pass over the log, without a memory of processed events. */
  ghost function Fold(t: Tables, log: Log): (r: Tables)
    requires WellFormed(t)
    ensures WellFormed(r)
  {
    if log == [] then t
    else
      var u := Fold(t, log[..|log| - 1]);
      DeliverKeeps(u, log[|log| - 1], true);
      Deliver(u, log[|log| - 1], true).0
  }

  // ---- the chain and the process ------------------------------------------------------------------------

  /**
   A poll whose page is taken to its end; one whose process stops, and starts anew, when it has taken what the
   page holds of the first `reach` entries of the log; one that gets no answer; and a restart in between.
   */
  datatype Op =
    | DoPoll(latest: nat)
    | BreaksOff(latest: nat, reach: nat, queryOk: bool)
    | PollFails(queryOk: bool)
    | Restart(queryOk: bool)

  predicate Served(ev: ChainEvent, targets: set<string>, start: Option<nat>, latest: nat) {
    ev.contractId in targets && (start.Some? ==> start.value <= ev.ledger) && ev.ledger <= latest
  }

  /** A complete page: what the log holds for the targets, from the start ledger to the latest. */
  function PageOf(log: Log, targets: set<string>, start: Option<nat>, latest: nat): seq<Option<ChainEvent>> {
    if log == [] then []
    else
      var ev := log[|log| - 1];
      PageOf(log[..|log| - 1], targets, start, latest) + if Served(ev, targets, start, latest) then [Some(ev)] else []
  }

  function First(log: Log, n: nat): Log {
    if n < |log| then log[..n] else log
  }

  function ChainRpc(log: Log, latest: nat): Rpc {
    (targets: set<string>, start: Option<nat>) => Page(PageOf(log, targets, start, latest), Some(latest))
  }

  function FailingRpc(): Rpc {
    (targets: set<string>, start: Option<nat>) => Page([], None)
  }

  ghost function Step(s: State, log: Log, configured: Option<string>, op: Op): (r: State)
    requires WellFormed(s.tables)
    ensures WellFormed(r.tables)
  {
    match op
    case DoPoll(latest) => Poll(s, configured, true, ChainRpc(log, latest), {})
    case BreaksOff(latest, reach, queryOk) =>
      Started(Poll(s, configured, true, ChainRpc(First(log, reach), latest), {}).tables, queryOk)
    case PollFails(queryOk) => Poll(s, configured, queryOk, FailingRpc(), {})
    case Restart(queryOk) => Started(s.tables, queryOk)
  }

  ghost function Run(s: State, log: Log, configured: Option<string>, ops: seq<Op>): (r: State)
    requires WellFormed(s.tables)
    ensures WellFormed(r.tables)
  {
    if ops == [] then s
    else Step(Run(s, log, configured, ops[..|ops| - 1]), log, configured, ops[|ops| - 1])
  }

  /** How many entries of the log lie in ledgers up to `m`. */
  function UpTo(log: Log, m: int): (k: nat)
    ensures k <= |log|
    ensures forall i :: 0 <= i < k ==> log[i].ledger <= m
    ensures k < |log| ==> log[k].ledger > m
  {
    if log == [] || log[0].ledger > m then 0 else 1 + UpTo(log[1..], m)
  }

  /** How far a page up to a ledger, taken as far as entry `reach`, leads on from place `k`. */
  function Reached(log: Log, k: nat, latest: nat, reach: nat): nat {
    Max(k, if reach <= UpTo(log, latest) then reach else UpTo(log, latest))
  }

  function Onward(log: Log, k: nat, op: Op): nat {
    match op
    case DoPoll(latest) => Reached(log, k, latest, |log|)
    case BreaksOff(latest, reach, _) => Reached(log, k, latest, reach)
    case _ => k
  }

  /** The place in the log that a run has reached. */
  function Place(log: Log, ops: seq<Op>): nat {
    if ops == [] then 0 else Onward(log, Place(log, ops[..|ops| - 1]), ops[|ops| - 1])
  }

  // ---- what is assumed of the log, and the condition --------------------------------------------------------

  ghost predicate Tracked(es: Escrows, configured: Option<string>, ev: ChainEvent) {
    ev.contractId != "" && (configured == Some(ev.contractId) || ByContract(es, ev.contractId).Some?)
  }

  predicate InOrder(log: Log) {
    forall i, j :: 0 <= i < j < |log| ==> log[i].ledger <= log[j].ledger && log[i].eventId != log[j].eventId
  }

  /** The entries belong to tracked contracts and lie no earlier than what the audit table has seen. */
  ghost predicate Admissible(t: Tables, log: Log, configured: Option<string>) {
    && WellFormed(t) && InOrder(log)
    && forall i :: 0 <= i < |log| ==> Tracked(t.escrows, configured, log[i]) && SavedLedger(t.audit) <= log[i].ledger
  }

  /** The event cannot be applied, whatever the reason. */
  ghost predicate Quiet(t: Tables, ev: ChainEvent) {
    Find(t, ev).Some? ==> !CanApply(t.escrows[Find(t, ev).value].status, ev.eventType)
  }

  /** At no place of the pass would an entry before it still be applied. */
  ghost predicate Settled(t: Tables, log: Log)
    requires WellFormed(t)
  {
    forall k: nat, i: nat :: i < k <= |log| ==> Quiet(Fold(t, log[..k]), log[i])
  }

  /** Every entry is applied, already processed or of an unknown escrow at its turn. */
  ghost predicate AllValid(t: Tables, log: Log)
    requires WellFormed(t)
  {
    forall i :: 0 <= i < |log| ==> !Deliver(Fold(t, log[..i]), log[i], true).1.InvalidTransition?
  }

  // ---- the fold ---------------------------------------------------------------------------------------------

  ghost predicate Later(t: Tables, u: Tables) {
    SameIndex(t, u) && (forall x :: x in t.escrows ==> Rank(t.escrows[x].status) <= Rank(u.escrows[x].status))
  }

  lemma FoldOne(t: Tables, log: Log, k: nat)
    requires WellFormed(t) && k < |log|
    ensures Fold(t, log[..k + 1]) == Deliver(Fold(t, log[..k]), log[k], true).0
  {
    assert log[..k + 1][..k] == log[..k];
  }

  lemma {:induction false} FoldRises(t: Tables, log: Log, k: nat, j: nat)
    requires WellFormed(t) && k <= j <= |log|
    ensures Later(Fold(t, log[..k]), Fold(t, log[..j]))
  {
    hide Rank, WellFormed, Deliver, Fold;
    if k < j {
      FoldRises(t, log, k, j - 1);
      FoldOne(t, log, j - 1);
      DeliverKeeps(Fold(t, log[..j - 1]), log[j - 1], true);
    }
  }

  lemma FoldStarts(t: Tables, log: Log)
    requires WellFormed(t)
    ensures Fold(t, log[..0]) == t
  {
  }

  lemma DeliverSaved(t: Tables, ev: ChainEvent, bound: nat)
    requires WellFormed(t) && SavedLedger(t.audit) <= bound && ev.ledger <= bound
    ensures SavedLedger(Deliver(t, ev, true).0.audit) <= bound
  {
    hide Find, CanApply, AlreadyDone, EscrowAfter, OrderStatusAfter;
  }

  lemma {:induction false} FoldSaved(t: Tables, log: Log, bound: nat)
    requires WellFormed(t) && SavedLedger(t.audit) <= bound
    requires forall i :: 0 <= i < |log| ==> log[i].ledger <= bound
    ensures SavedLedger(Fold(t, log).audit) <= bound
  {
    hide WellFormed, Deliver, SavedLedger;
    if log != [] {
      FoldSaved(t, log[..|log| - 1], bound);
      DeliverSaved(Fold(t, log[..|log| - 1]), log[|log| - 1], bound);
    }
  }

  lemma QuietExactly(t: Tables, ev: ChainEvent)
    requires WellFormed(t)
    ensures Quiet(t, ev) <==> Deliver(t, ev, true).0 == t
    ensures Quiet(t, ev) <==> !Deliver(t, ev, true).1.Applied?
    ensures |t.audit| <= |Deliver(t, ev, true).0.audit|
    ensures !Quiet(t, ev) ==> |t.audit| < |Deliver(t, ev, true).0.audit|
  {
    if Find(t, ev).Some? {
      AppliedIsSpent(t.escrows[Find(t, ev).value].status, ev.eventType);
    }
  }

  // ---- one page ---------------------------------------------------------------------------------------------

  /** A contract that is not asked for belongs to a closed escrow, whose events never take effect again. */
  lemma UntargetedIsQuiet(t: Tables, u: Tables, configured: Option<string>, ev: ChainEvent)
    requires WellFormed(t) && WellFormed(u) && Later(t, u) && Tracked(t.escrows, configured, ev)
    requires ev.contractId !in Targets(t.escrows, configured, true)
    ensures Quiet(u, ev)
  {
    hide WellFormed, ByContract, ByOrder;
    FindStable(t, u, ev);
    var x := ByContract(t.escrows, ev.contractId).value;
    assert !IsActive(t.escrows[x]);
    assert Rank(u.escrows[x].status) == TOP_RANK;
  }

  predicate Known(cache: set<Key>, log: Log) {
    forall key :: key in cache ==> exists i :: 0 <= i < |log| && KeyOf(log[i]) == key
  }

  /** The listener has taken in exactly the first `k` entries and will ask for all the others. */
  ghost predicate CaughtUp(s: State, t: Tables, log: Log, k: nat)
    requires WellFormed(t)
  {
    && k <= |log| && s.tables == Fold(t, log[..k]) && Known(s.cache, log[..k])
    && forall i :: k <= i < |log| ==> s.last <= log[i].ledger
  }

  lemma ReceiveRedelivered(s: State, ev: ChainEvent)
    requires WellFormed(s.tables) && Quiet(s.tables, ev)
    ensures var r := Receive(s, Some(ev), true);
      r.tables == s.tables && r.cache <= s.cache + {KeyOf(ev)} && r.last <= Max(s.last, ev.ledger)
  {
    QuietExactly(s.tables, ev);
  }

  lemma ReceiveNew(s: State, ev: ChainEvent)
    requires WellFormed(s.tables) && KeyOf(ev) !in s.cache
    ensures var r := Receive(s, Some(ev), true);
      r.tables == Deliver(s.tables, ev, true).0 && r.cache <= s.cache + {KeyOf(ev)} && r.last <= Max(s.last, ev.ledger)
  {
  }

  lemma KnownGrows(cache: set<Key>, grown: set<Key>, log: Log, k: nat, i: nat, k2: nat)
    requires k <= k2 <= |log| && i < k2 && Known(cache, log[..k]) && grown <= cache + {KeyOf(log[i])}
    ensures Known(grown, log[..k2])
  {
    forall key | key in grown ensures exists j :: 0 <= j < k2 && KeyOf(log[..k2][j]) == key {
      if key in cache {
        var j :| 0 <= j < k && KeyOf(log[..k][j]) == key;
        assert KeyOf(log[..k2][j]) == key;
      } else {
        assert KeyOf(log[..k2][i]) == key;
      }
    }
  }

  lemma NewIsUnknown(cache: set<Key>, log: Log, k: nat)
    requires k < |log| && InOrder(log) && Known(cache, log[..k])
    ensures KeyOf(log[k]) !in cache
  {
  }

  /** The first `n` entries have been taken in, and the mark is not beyond `bound`. */
  ghost predicate Taken(s: State, t: Tables, log: Log, n: nat, bound: nat)
    requires WellFormed(t)
  {
    n <= |log| && s.tables == Fold(t, log[..n]) && Known(s.cache, log[..n]) && s.last <= bound
  }

  lemma RedeliveredTaken(q: State, t: Tables, log: Log, k: nat, i: nat, bound: nat)
    requires WellFormed(t) && Settled(t, log) && i < k <= |log|
    requires Taken(q, t, log, k, bound) && log[i].ledger <= bound
    ensures Taken(Receive(q, Some(log[i]), true), t, log, k, bound)
  {
    hide Settled, Quiet, WellFormed, Fold, Known, Receive;
    SettledAt(t, log, k, i);
    ReceiveRedelivered(q, log[i]);
    KnownGrows(q.cache, Receive(q, Some(log[i]), true).cache, log, k, i, k);
  }

  lemma NewTaken(q: State, t: Tables, log: Log, i: nat, bound: nat)
    requires WellFormed(t) && InOrder(log) && i < |log|
    requires Taken(q, t, log, i, bound) && log[i].ledger <= bound
    ensures Taken(Receive(q, Some(log[i]), true), t, log, i + 1, bound)
  {
    hide WellFormed, Fold, Known, Receive, Deliver;
    NewIsUnknown(q.cache, log, i);
    ReceiveNew(q, log[i]);
    FoldOne(t, log, i);
    KnownGrows(q.cache, Receive(q, Some(log[i]), true).cache, log, i, i, i + 1);
  }

  lemma SkippedTaken(q: State, t: Tables, log: Log, i: nat, bound: nat)
    requires WellFormed(t) && i < |log| && Taken(q, t, log, i, bound)
    requires Fold(t, log[..i + 1]) == Fold(t, log[..i])
    ensures Taken(q, t, log, i + 1, bound)
  {
    hide WellFormed, Fold, Known;
    KnownGrows(q.cache, q.cache, log, i, i, i + 1);
  }

  ghost function PrefixOfPage(s: State, log: Log, targets: set<string>, latest: nat, j: nat): (r: State)
    requires WellFormed(s.tables) && j <= |log|
    ensures WellFormed(r.tables)
  {
    ReceiveAll(s, PageOf(log[..j], targets, StartLedger(s.last), latest), {})
  }

  lemma PrefixOfPageNext(s: State, log: Log, targets: set<string>, latest: nat, i: nat)
    requires WellFormed(s.tables) && i < |log|
    ensures var q := PrefixOfPage(s, log, targets, latest, i);
      PrefixOfPage(s, log, targets, latest, i + 1)
        == if Served(log[i], targets, StartLedger(s.last), latest) then Receive(q, Some(log[i]), true) else q
  {
    hide WellFormed, Receive, Served, StartLedger;
    assert log[..i + 1][..i] == log[..i];
    var before := PageOf(log[..i], targets, StartLedger(s.last), latest);
    assert (before + [Some(log[i])])[..|before|] == before;
    assert before + [] == before;
  }

  lemma {:induction false} PagePrefix(s: State, t: Tables, log: Log, configured: Option<string>, k: nat, latest: nat, j: nat)
    requires Admissible(t, log, configured) && Settled(t, log)
    requires CaughtUp(s, t, log, k) && j <= |log|
    ensures var targets := Targets(s.tables.escrows, configured, true);
      Taken(PrefixOfPage(s, log, targets, latest, j), t, log, Reached(log, k, latest, j), Max(s.last, latest))
  {
    hide Targets, Settled, Tracked, WellFormed, Fold, Known, SavedLedger, Receive, PrefixOfPage, Taken, UpTo;
    var targets := Targets(s.tables.escrows, configured, true);
    var bound := Max(s.last, latest);
    if j == 0 {
      PrefixOfPageNone(s, log, targets, latest);
      NoneTaken(s, t, log, k, bound);
    } else {
      var i := j - 1;
      PagePrefix(s, t, log, configured, k, latest, i);
      PrefixOfPageNext(s, log, targets, latest, i);
      var q := PrefixOfPage(s, log, targets, latest, i);
      UpToBounds(log, latest, i);
      if i < k {
        if Served(log[i], targets, StartLedger(s.last), latest) {
          RedeliveredTaken(q, t, log, k, i, bound);
        }
      } else if i < UpTo(log, latest) {
        if Served(log[i], targets, StartLedger(s.last), latest) {
          NewTaken(q, t, log, i, bound);
        } else {
          NotTargeted(s, t, log, configured, k, i);
          SkippedTaken(q, t, log, i, bound);
        }
      }
    }
  }

  lemma PrefixOfPageNone(s: State, log: Log, targets: set<string>, latest: nat)
    requires WellFormed(s.tables)
    ensures PrefixOfPage(s, log, targets, latest, 0) == s
  {
  }

  lemma NoneTaken(s: State, t: Tables, log: Log, k: nat, bound: nat)
    requires WellFormed(t) && CaughtUp(s, t, log, k) && s.last <= bound
    ensures Taken(s, t, log, k, bound)
  {
  }

  lemma UpToBounds(log: Log, m: nat, i: nat)
    requires InOrder(log) && i < |log|
    ensures i < UpTo(log, m) <==> log[i].ledger <= m
  {
  }

  lemma SettledAt(t: Tables, log: Log, k: nat, i: nat)
    requires WellFormed(t) && Settled(t, log) && i < k <= |log|
    ensures Quiet(Fold(t, log[..k]), log[i])
  {
  }

  lemma NotTargeted(s: State, t: Tables, log: Log, configured: Option<string>, k: nat, i: nat)
    requires Admissible(t, log, configured) && k <= i < |log| && s.tables == Fold(t, log[..k])
    requires log[i].contractId !in Targets(s.tables.escrows, configured, true)
    ensures Fold(t, log[..i + 1]) == Fold(t, log[..i])
  {
    hide Targets, Quiet, WellFormed, Fold, Deliver;
    FoldRises(t, log, 0, k);
    FoldStarts(t, log);
    FoldRises(t, log, k, i);
    FindStable(t, s.tables, log[i]);
    UntargetedIsQuiet(s.tables, Fold(t, log[..i]), configured, log[i]);
    QuietExactly(Fold(t, log[..i]), log[i]);
    FoldOne(t, log, i);
  }

  // ---- any run ----------------------------------------------------------------------------------------------

  lemma {:induction false} EmptyPage(log: Log, start: Option<nat>, latest: nat)
    ensures PageOf(log, {}, start, latest) == []
  {
    if log != [] {
      EmptyPage(log[..|log| - 1], start, latest);
    }
  }

  lemma PollTakes(s: State, t: Tables, log: Log, configured: Option<string>, k: nat, latest: nat, j: nat)
    requires Admissible(t, log, configured) && Settled(t, log)
    requires CaughtUp(s, t, log, k) && j <= |log|
    ensures Taken(Poll(s, configured, true, ChainRpc(log[..j], latest), {}), t, log, Reached(log, k, latest, j), Max(s.last, latest))
  {
    hide Targets, Settled, Tracked, WellFormed, Fold, Known, SavedLedger, ReceiveAll, PageOf, InOrder, CaughtUp, Reached;
    PagePrefix(s, t, log, configured, k, latest, j);
    CaughtUpTables(s, t, log, k);
    if Targets(s.tables.escrows, configured, true) == {} {
      EmptyPage(log[..j], StartLedger(s.last), latest);
      ReceiveNone(s);
      assert PrefixOfPage(s, log, {}, latest, j) == s;
    }
  }

  lemma PollCatchesUp(s: State, t: Tables, log: Log, configured: Option<string>, k: nat, latest: nat)
    requires Admissible(t, log, configured) && Settled(t, log) && CaughtUp(s, t, log, k)
    ensures CaughtUp(Step(s, log, configured, DoPoll(latest)), t, log, Reached(log, k, latest, |log|))
  {
    hide Settled, Tracked, WellFormed, Fold, Known, SavedLedger, PageOf, InOrder, Poll;
    PollTakes(s, t, log, configured, k, latest, |log|);
    BeyondUpTo(log, latest);
    assert log[..|log|] == log;
  }

  lemma BreakCatchesUp(s: State, t: Tables, log: Log, configured: Option<string>, k: nat, latest: nat, reach: nat, queryOk: bool)
    requires Admissible(t, log, configured) && Settled(t, log) && CaughtUp(s, t, log, k)
    ensures CaughtUp(Step(s, log, configured, BreaksOff(latest, reach, queryOk)), t, log, Reached(log, k, latest, reach))
  {
    hide Settled, Tracked, WellFormed, Fold, Known, SavedLedger, PageOf, InOrder, Poll, CaughtUp, Started;
    var j := if reach < |log| then reach else |log|;
    CaughtUpTables(s, t, log, k);
    assert log[..|log|] == log;
    PollTakes(s, t, log, configured, k, latest, j);
    RestartKeeps(Poll(s, configured, true, ChainRpc(First(log, reach), latest), {}), t, log, configured,
                 Reached(log, k, latest, reach), queryOk);
  }

  /** Wherever a process stops in a page, that is after what the page holds of some first entries. */
  lemma {:induction false} EveryStopIsReached(log: Log, targets: set<string>, start: Option<nat>, latest: nat, n: nat)
    requires n <= |PageOf(log, targets, start, latest)|
    ensures exists reach: nat ::
      reach <= |log| && PageOf(First(log, reach), targets, start, latest) == PageOf(log, targets, start, latest)[..n]
  {
    hide Served;
    var page := PageOf(log, targets, start, latest);
    if n == |page| {
      assert page[..n] == page && First(log, |log|) == log;
    } else {
      var before := log[..|log| - 1];
      var init := PageOf(before, targets, start, latest);
      EveryStopIsReached(before, targets, start, latest, n);
      var reach: nat :| reach <= |before| && PageOf(First(before, reach), targets, start, latest) == init[..n];
      FirstOfPrefix(log, reach);
      assert page[..n] == init[..n];
    }
  }

  lemma FirstOfPrefix(log: Log, n: nat)
    requires n < |log|
    ensures First(log[..|log| - 1], n) == First(log, n)
  {
  }

  lemma BeyondUpTo(log: Log, m: nat)
    requires InOrder(log)
    ensures forall i :: UpTo(log, m) <= i < |log| ==> log[i].ledger > m
  {
  }

  lemma ReceiveNone(s: State)
    requires WellFormed(s.tables)
    ensures ReceiveAll(s, [], {}) == s
  {
  }

  lemma RestartKeeps(s: State, t: Tables, log: Log, configured: Option<string>, k: nat, queryOk: bool)
    requires Admissible(t, log, configured) && k <= |log| && s.tables == Fold(t, log[..k])
    ensures CaughtUp(Started(s.tables, queryOk), t, log, k)
  {
    hide WellFormed, SavedLedger, Fold, Tracked;
    if k < |log| {
      FoldSaved(t, log[..k], log[k].ledger);
    }
  }

  ghost predicate RunFolds(t: Tables, log: Log, configured: Option<string>, queryOk: bool, ops: seq<Op>)
    requires WellFormed(t)
  {
    Run(Started(t, queryOk), log, configured, ops).tables == Fold(t, First(log, Place(log, ops)))
  }

  lemma StepCatchesUp(s: State, t: Tables, log: Log, configured: Option<string>, k: nat, op: Op)
    requires Admissible(t, log, configured) && Settled(t, log) && CaughtUp(s, t, log, k)
    ensures CaughtUp(Step(s, log, configured, op), t, log, Onward(log, k, op))
  {
    hide WellFormed, Fold, CaughtUp, Tracked, Settled, SavedLedger, PageOf, Poll, UpTo, ReceiveAll, Started, Reached;
    CaughtUpTables(s, t, log, k);
    match op
    case DoPoll(latest) => PollCatchesUp(s, t, log, configured, k, latest);
    case BreaksOff(latest, reach, q) => BreakCatchesUp(s, t, log, configured, k, latest, reach, q);
    case PollFails(q) => FailedPollKeeps(s, configured, q);
    case Restart(q) => RestartKeeps(s, t, log, configured, k, q);
  }

  lemma CaughtUpTables(s: State, t: Tables, log: Log, k: nat)
    requires WellFormed(t) && CaughtUp(s, t, log, k)
    ensures k <= |log| && s.tables == Fold(t, log[..k])
  {
  }

  lemma FailedPollKeeps(s: State, configured: Option<string>, queryOk: bool)
    requires WellFormed(s.tables)
    ensures Poll(s, configured, queryOk, FailingRpc(), {}) == s
  {
    hide Targets;
    ReceiveNone(s);
  }

  lemma {:induction false} RunCatchesUp(t: Tables, log: Log, configured: Option<string>, queryOk: bool, ops: seq<Op>)
    requires Admissible(t, log, configured) && Settled(t, log)
    ensures CaughtUp(Run(Started(t, queryOk), log, configured, ops), t, log, Place(log, ops))
  {
    hide WellFormed, Fold, Tracked, Settled, SavedLedger, Onward, CaughtUp, Step, Started;
    StartsWith(t, queryOk);
    if ops == [] {
      FoldStarts(t, log);
      RestartKeeps(Started(t, queryOk), t, log, configured, 0, queryOk);
    } else {
      var n := |ops| - 1;
      RunCatchesUp(t, log, configured, queryOk, ops[..n]);
      StepCatchesUp(Run(Started(t, queryOk), log, configured, ops[..n]), t, log, configured, Place(log, ops[..n]), ops[n]);
    }
  }

  /** A page taken to its end leaves the run at least at the end of its latest ledger. */
  lemma {:induction false} PollsReach(log: Log, ops: seq<Op>, i: nat)
    requires i < |ops| && ops[i].DoPoll?
    ensures UpTo(log, ops[i].latest) <= Place(log, ops)
  {
    hide UpTo;
    if i < |ops| - 1 {
      PollsReach(log, ops[..|ops| - 1], i);
    }
  }

  lemma StartsWith(t: Tables, queryOk: bool)
    ensures Started(t, queryOk).tables == t
  {
  }

  /** When every entry is valid or already processed at its turn, none takes effect again later. */
  lemma ValidSettles(t: Tables, log: Log)
    requires WellFormed(t) && AllValid(t, log)
    ensures Settled(t, log)
  {
    hide Fold;
    forall k: nat, i: nat | i < k <= |log| ensures Quiet(Fold(t, log[..k]), log[i]) {
      ValidStaysQuiet(t, log, i, k);
    }
  }

  lemma ValidOutcome(t: Tables, ev: ChainEvent)
    requires WellFormed(t)
    ensures var o := Deliver(t, ev, true).1; o.InvalidTransition? || o.Applied? || o.AlreadyProcessed? || Find(t, ev).None?
  {
    hide Find, ApplyEvent;
  }

  lemma ValidStaysQuiet(t: Tables, log: Log, i: nat, k: nat)
    requires WellFormed(t) && AllValid(t, log) && i < k <= |log|
    ensures Quiet(Fold(t, log[..k]), log[i])
  {
    hide Fold, WellFormed, Find, ByContract, CanApply, AlreadyDone, EscrowStatusAfter, Deliver;
    var u := Fold(t, log[..i]);
    ValidOutcome(u, log[i]);
    var v := Fold(t, log[..k]);
    DeliverKeeps(u, log[i], true);
    FoldOne(t, log, i);
    FoldRises(t, log, i, k);
    FoldRises(t, log, i + 1, k);
    FindStable(u, v, log[i]);
    var x := Find(v, log[i]);
    if x.Some? {
      AppliedIsSpent(v.escrows[x.value].status, log[i].eventType);
    }
  }

  // ---- the condition is needed ------------------------------------------------------------------------------

  lemma ReceiveAudit(s: State, entry: Option<ChainEvent>)
    requires WellFormed(s.tables)
    ensures var r := Receive(s, entry, true);
      |s.tables.audit| <= |r.tables.audit| && (|s.tables.audit| == |r.tables.audit| ==> r.tables == s.tables)
  {
    if entry.Some? {
      QuietExactly(s.tables, entry.value);
    }
  }

  /** A page that leaves the audit table as it is leaves every table as it is, at every entry. */
  lemma {:induction false} StillPage(s: State, log: Log, targets: set<string>, latest: nat, j: nat)
    requires WellFormed(s.tables) && s.cache == {} && s.last == 0 && InOrder(log) && j <= |log|
    requires |PrefixOfPage(s, log, targets, latest, j).tables.audit| == |s.tables.audit|
    ensures PrefixOfPage(s, log, targets, latest, j).tables == s.tables
    ensures Known(PrefixOfPage(s, log, targets, latest, j).cache, log[..j])
    ensures forall i :: 0 <= i < j && Served(log[i], targets, None, latest) ==> Quiet(s.tables, log[i])
  {
    hide WellFormed, Receive, Quiet, Served, PrefixOfPage, Known;
    if j == 0 {
      PrefixOfPageNone(s, log, targets, latest);
      NothingKnown(log);
    } else {
      var i := j - 1;
      PrefixOfPageNext(s, log, targets, latest, i);
      var q := PrefixOfPage(s, log, targets, latest, i);
      AuditOnlyGrows(s, log, targets, latest, i);
      if Served(log[i], targets, None, latest) {
        ReceiveAudit(q, Some(log[i]));
        StillPage(s, log, targets, latest, i);
        NewIsUnknown(q.cache, log, i);
        ReceiveNew(q, log[i]);
        QuietExactly(s.tables, log[i]);
        KnownGrows(q.cache, Receive(q, Some(log[i]), true).cache, log, i, i, j);
      } else {
        StillPage(s, log, targets, latest, i);
        KnownGrows(q.cache, q.cache, log, i, i, j);
      }
    }
  }

  lemma NothingKnown(log: Log)
    ensures Known({}, log[..0])
  {
  }

  lemma {:induction false} AuditOnlyGrows(s: State, log: Log, targets: set<string>, latest: nat, j: nat)
    requires WellFormed(s.tables) && j <= |log|
    ensures |s.tables.audit| <= |PrefixOfPage(s, log, targets, latest, j).tables.audit|
  {
    hide WellFormed, Receive, Served, PrefixOfPage;
    if j == 0 {
      PrefixOfPageNone(s, log, targets, latest);
    } else {
      AuditOnlyGrows(s, log, targets, latest, j - 1);
      PrefixOfPageNext(s, log, targets, latest, j - 1);
      ReceiveAudit(PrefixOfPage(s, log, targets, latest, j - 1), Some(log[j - 1]));
    }
  }

  /** An event that can still be applied is asked for. */
  lemma LoudIsTargeted(t: Tables, u: Tables, configured: Option<string>, ev: ChainEvent)
    requires WellFormed(t) && WellFormed(u) && Later(t, u) && Tracked(t.escrows, configured, ev) && !Quiet(u, ev)
    ensures ev.contractId in Targets(u.escrows, configured, true)
  {
    hide WellFormed, ByContract, ByOrder, Find;
    FindStable(t, u, ev);
    if ev.contractId !in Targets(u.escrows, configured, true) {
      TrackedLater(t, u, configured, ev);
      SelfLater(u);
      UntargetedIsQuiet(u, u, configured, ev);
    }
  }

  lemma SelfLater(t: Tables)
    ensures Later(t, t)
  {
  }

  lemma TrackedLater(t: Tables, u: Tables, configured: Option<string>, ev: ChainEvent)
    requires WellFormed(t) && WellFormed(u) && Later(t, u) && Tracked(t.escrows, configured, ev)
    ensures Tracked(u.escrows, configured, ev)
  {
    FindStable(t, u, ev);
  }

  /** A process started afresh over what it has taken in applies any entry that is not settled there. */
  lemma RestartRepeats(t: Tables, log: Log, configured: Option<string>, k: nat, i: nat)
    requires Admissible(t, log, configured) && i < k <= |log|
    ensures var u := Fold(t, log[..k]);
      !Quiet(u, log[i]) ==> Step(Started(u, false), log, configured, BreaksOff(log[k - 1].ledger, k, false)).tables != u
  {
    hide WellFormed, Quiet, Targets, Fold, PageOf, ReceiveAll, Tracked;
    var u := Fold(t, log[..k]);
    var s := Started(u, false);
    var latest := log[k - 1].ledger;
    var targets := Targets(u.escrows, configured, true);
    FoldRises(t, log, 0, k);
    FoldStarts(t, log);
    assert log[..|log|] == log;
    if !Quiet(u, log[i]) {
      LoudIsTargeted(t, u, configured, log[i]);
      assert Served(log[i], targets, None, latest);
    }
    if |PrefixOfPage(s, log, targets, latest, k).tables.audit| == |u.audit| {
      StillPage(s, log, targets, latest, k);
    }
  }

  /**
   Every run leaves the tables of one pass over the log, as far as it reached, exactly when the log is
   settled.
   */
  lemma ReplayExactly(t: Tables, log: Log, configured: Option<string>, queryOk: bool)
    requires Admissible(t, log, configured)
    ensures Settled(t, log) <==> forall ops: seq<Op> :: RunFolds(t, log, configured, queryOk, ops)
  {
    hide WellFormed, Tracked, Fold, SavedLedger, UpTo, Step, Started, RunFolds, Quiet, InOrder;
    if Settled(t, log) {
      forall ops: seq<Op> ensures RunFolds(t, log, configured, queryOk, ops) {
        SettledRunFolds(t, log, configured, queryOk, ops);
      }
    } else {
      var k: nat, i: nat :| i < k <= |log| && !Quiet(Fold(t, log[..k]), log[i]);
      UnsettledRun(t, log, configured, queryOk, k, i);
    }
  }

  lemma SettledRunFolds(t: Tables, log: Log, configured: Option<string>, queryOk: bool, ops: seq<Op>)
    requires Admissible(t, log, configured) && Settled(t, log)
    ensures RunFolds(t, log, configured, queryOk, ops)
  {
    hide Fold, WellFormed, Admissible, Settled, Run, Place, Known;
    RunCatchesUp(t, log, configured, queryOk, ops);
    assert log[..|log|] == log;
  }

  /** The run that tells: a process that stops after the first k entries, and the next one as well. */
  lemma UnsettledRun(t: Tables, log: Log, configured: Option<string>, queryOk: bool, k: nat, i: nat)
    requires Admissible(t, log, configured) && i < k <= |log|
    ensures !Quiet(Fold(t, log[..k]), log[i]) ==> exists ops: seq<Op> :: !RunFolds(t, log, configured, queryOk, ops)
  {
    hide Fold, WellFormed, Quiet, Step, Started, Tracked, SavedLedger;
    var stops := BreaksOff(log[k - 1].ledger, k, false);
    StopsThere(log, k);
    FirstIsPrefix(log, k);
    assert [stops, stops][..1] == [stops] && [stops][..0] == [];
    RestartRepeats(t, log, configured, k, i);
    StartsWith(t, queryOk);
    var s0 := Started(t, queryOk);
    if RunFolds(t, log, configured, queryOk, [stops]) && !Quiet(Fold(t, log[..k]), log[i]) {
      RunOne(s0, log, configured, stops);
      var s1 := Step(s0, log, configured, stops);
      assert s1.tables == Fold(t, log[..k]);
      StepStartsAnew(s0, log, configured, stops);
      assert Run(s0, log, configured, [stops, stops]) == Step(s1, log, configured, stops);
      assert !RunFolds(t, log, configured, queryOk, [stops, stops]);
    }
  }

  lemma FirstIsPrefix(log: Log, n: nat)
    requires n <= |log|
    ensures First(log, n) == log[..n]
  {
  }

  lemma RunOne(s: State, log: Log, configured: Option<string>, op: Op)
    requires WellFormed(s.tables)
    ensures Run(s, log, configured, [op]) == Step(s, log, configured, op)
  {
    hide Step, WellFormed;
    assert Run(s, log, configured, [op][..0]) == s;
  }

  lemma StepStartsAnew(s: State, log: Log, configured: Option<string>, op: Op)
    requires WellFormed(s.tables) && op.BreaksOff?
    ensures Step(s, log, configured, op) == Started(Step(s, log, configured, op).tables, op.queryOk)
  {
    hide Poll, Started;
    StartsWith(Poll(s, configured, true, ChainRpc(First(log, op.reach), op.latest), {}).tables, op.queryOk);
  }

  lemma PlaceOfTwo(log: Log, op: Op)
    ensures Place(log, [op]) == Onward(log, 0, op)
    ensures Place(log, [op, op]) == Onward(log, Onward(log, 0, op), op)
  {
    hide Onward;
    assert [op][..0] == [];
    assert [op, op][..1] == [op];
  }

  lemma StopsThere(log: Log, k: nat)
    requires InOrder(log) && 0 < k <= |log|
    ensures Place(log, [BreaksOff(log[k - 1].ledger, k, false)]) == k
    ensures Place(log, [BreaksOff(log[k - 1].ledger, k, false), BreaksOff(log[k - 1].ledger, k, false)]) == k
  {
    hide UpTo, Place;
    PlaceOfTwo(log, BreaksOff(log[k - 1].ledger, k, false));
    UpToBounds(log, log[k - 1].ledger, k - 1);
  }

  // ---- and it is not always met -------------------------------------------------------------------------------

  function OneEscrow(status: EscrowStatus): Tables {
    Tables(map["escrow" := Escrow("order", Some("C"), status, None, None)],
           map["order" := Order("buyer", "seller", OrderCreated, None)], [])
  }

  function ReleaseThenFund(): Log {
    [ChainEvent("1", EscrowReleased, "C", "", 7, 0, "", ""), ChainEvent("2", EscrowFunded, "C", "", 7, 1, "", "")]
  }

  lemma OneContract(es: Escrows, e: Escrow)
    requires es == map["escrow" := e] && e.contractId == Some("C")
    ensures ByContract(es, "C") == Some("escrow")
  {
    assert es["escrow"].contractId == Some("C");
  }

  lemma EarlyReleaseIsAdmissible()
    ensures Admissible(OneEscrow(Initialized), ReleaseThenFund(), None)
  {
    hide ByContract, ByOrder;
    OneContract(OneEscrow(Initialized).escrows, OneEscrow(Initialized).escrows["escrow"]);
  }

  /** A release that arrives before the funding of its own ledger is refused, and taken up when it comes again. */
  lemma EarlyReleaseIsUnsettled()
    ensures Admissible(OneEscrow(Initialized), ReleaseThenFund(), None)
    ensures !Settled(OneEscrow(Initialized), ReleaseThenFund())
  {
    hide Admissible, WellFormed, ByContract, ByOrder, Fold, Tracked;
    var t, log := OneEscrow(Initialized), ReleaseThenFund();
    EarlyReleaseIsAdmissible();
    AdmissibleTables(t, log, None);
    OneContract(t.escrows, t.escrows["escrow"]);
    OneEscrowFolds(t, log);
    var u := Fold(t, log[..2]);
    OneContract(u.escrows, u.escrows["escrow"]);
    assert !Quiet(u, log[0]);
  }

  lemma AdmissibleTables(t: Tables, log: Log, configured: Option<string>)
    requires Admissible(t, log, configured)
    ensures WellFormed(t)
  {
  }

  lemma OneEscrowFolds(t: Tables, log: Log)
    requires t == OneEscrow(Initialized) && log == ReleaseThenFund() && WellFormed(t)
    requires ByContract(t.escrows, "C") == Some("escrow")
    ensures Fold(t, log[..2]).escrows == map["escrow" := Escrow("order", Some("C"), Funded, None, None)]
  {
    hide WellFormed, ByContract, ByOrder;
    assert log[..0] == [];
    FoldOne(t, log, 0);
    FoldOne(t, log, 1);
    assert Deliver(t, log[0], true).0 == t;
  }
}
