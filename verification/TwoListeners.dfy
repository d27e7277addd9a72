/**
 Two listener processes over the same log, each polling from its own ledger mark: one with its memory of
 processed events and its filter on closed contracts, the other without either. They take their pages entry by
 entry, service calls fall in between at any point, and the process may stop at any point. The tables never
 differ, although the marks do.
 */
module TwoListeners {
  import opened Wrappers
  import opened Numbers
  import opened EventTypes
  import opened EscrowTables
  import opened Handlers
  import opened Listener
  import opened Replay
  import Transparency
  import Lifecycle

  // ---- the listener without memory and filter -------------------------------------------------------------

  /** All contracts the program knows, those of closed escrows too. */
  function AllTargets(es: Escrows, configured: Option<string>): set<string> {
    Configured(configured) + set x | x in es && Named(es[x].contractId) :: es[x].contractId.value
  }

  ghost function PlainReceive(s: State, entry: Option<ChainEvent>, storageOk: bool): (r: State)
    requires WellFormed(s.tables)
    ensures WellFormed(r.tables)
  {
    Receive(s.(cache := {}), entry, storageOk).(cache := {})
  }

  ghost function PlainReceiveAll(s: State, page: seq<Option<ChainEvent>>, failing: set<nat>): (r: State)
    requires WellFormed(s.tables)
    ensures WellFormed(r.tables)
  {
    if page == [] then s
    else
      var i := |page| - 1;
      PlainReceive(PlainReceiveAll(s, page[..i], failing), page[i], i !in failing)
  }

  ghost function PlainPoll(s: State, configured: Option<string>, rpc: Rpc, failing: set<nat>): (r: State)
    requires WellFormed(s.tables)
    ensures WellFormed(r.tables)
  {
    var targets := AllTargets(s.tables.escrows, configured);
    if targets == {} then s
    else
      var page := rpc(targets, StartLedger(s.last));
      var r := PlainReceiveAll(s, page.events, failing);
      r.(last := Max(r.last, GetOr0(page.latest)))
  }

  // ---- both at once ---------------------------------------------------------------------------------------

  /** A poll under way: what each of the two asked for and from where, and the next entry of the log. */
  datatype Round = Round(latest: nat, mine: set<string>, all: set<string>, mineFrom: nat, allFrom: nat, next: nat)

  /** `highest` is the highest ledger that has been polled or had been reached at the start. */
  datatype Pair = Pair(a: State, b: State, highest: nat, round: Option<Round>)

  datatype Move =
    | Begins(latest: nat)
    | Takes(storageOk: bool)
    | Ends
    | Stops(queryOk: bool)
    | Calls(handler: Handler)

  function Seen(log: Log, highest: nat): set<ChainEvent> {
    set i | 0 <= i < |log| && log[i].ledger <= highest :: log[i]
  }

  function MemoOf(p: Pair, log: Log): Transparency.Memo {
    Transparency.Memo(p.a.tables, p.a.cache, Seen(log, p.highest))
  }

  function InMine(r: Round, ev: ChainEvent): bool {
    Served(ev, r.mine, StartLedger(r.mineFrom), r.latest)
  }

  function InAll(r: Round, ev: ChainEvent): bool {
    Served(ev, r.all, StartLedger(r.allFrom), r.latest)
  }

  /** A service call hands out new ids, and no contract that the log names up to the highest ledger polled. */
  ghost predicate Enabled(p: Pair, log: Log, move: Move) {
    match move
    case Begins(_) => p.round.None?
    case Takes(_) => p.round.Some? && p.round.value.next < |log|
    case Ends => p.round.Some? && p.round.value.next == |log|
    case Stops(_) => true
    case Calls(h) => Transparency.Allowed(MemoOf(p, log), Transparency.Calls(h))
  }

  ghost predicate BothWellFormed(p: Pair) {
    WellFormed(p.a.tables) && WellFormed(p.b.tables)
  }

  function Opened(p: Pair, configured: Option<string>, latest: nat): Round {
    Round(latest, Targets(p.a.tables.escrows, configured, true), AllTargets(p.b.tables.escrows, configured),
          p.a.last, p.b.last, 0)
  }

  ghost function TakeOne(p: Pair, log: Log, storageOk: bool): Pair
    requires BothWellFormed(p) && p.round.Some? && p.round.value.next < |log|
  {
    var r := p.round.value;
    var ev := log[r.next];
    Pair(if InMine(r, ev) then Receive(p.a, Some(ev), storageOk) else p.a,
         if InAll(r, ev) then PlainReceive(p.b, Some(ev), storageOk) else p.b,
         p.highest, Some(r.(next := r.next + 1)))
  }

  function MarkAfter(s: State, targets: set<string>, latest: nat): State {
    if targets == {} then s else s.(last := Max(s.last, latest))
  }

  ghost function Apply(p: Pair, log: Log, configured: Option<string>, move: Move): Pair
    requires BothWellFormed(p) && Enabled(p, log, move)
  {
    match move
    case Begins(latest) => p.(highest := Max(p.highest, latest), round := Some(Opened(p, configured, latest)))
    case Takes(storageOk) => TakeOne(p, log, storageOk)
    case Ends =>
      var r := p.round.value;
      Pair(MarkAfter(p.a, r.mine, r.latest), MarkAfter(p.b, r.all, r.latest), p.highest, None)
    case Stops(queryOk) => Pair(Started(p.a.tables, queryOk), Started(p.b.tables, queryOk), p.highest, None)
    case Calls(h) => p.(a := p.a.(tables := Handle(p.a.tables, h)), b := p.b.(tables := Handle(p.b.tables, h)))
  }

  // ---- what every move keeps ------------------------------------------------------------------------------

  /** None of the contracts asked for has an entry from ledger `lo` up to and not including `hi`. */
  predicate Passed(t: Tables, configured: Option<string>, log: Log, lo: nat, hi: nat) {
    forall i :: 0 <= i < |log| && lo <= log[i].ledger < hi ==> log[i].contractId !in Targets(t.escrows, configured, true)
  }

  function EndOf(r: Round): nat {
    if r.mine == {} then Max(r.allFrom, r.latest) else r.allFrom
  }

  predicate Bounds(r: Round, a: nat, b: nat, highest: nat) {
    && r.mine <= r.all && r.mineFrom <= r.allFrom <= highest && r.latest <= highest
    && r.mineFrom <= a <= Max(r.mineFrom, r.latest) && (r.mine == {} ==> a == r.mineFrom)
    && r.allFrom <= b <= Max(r.allFrom, r.latest) && (r.all == {} ==> b == r.allFrom)
  }

  predicate NoneMissed(r: Round, log: Log) {
    forall i :: 0 <= i < |log| && r.mineFrom <= log[i].ledger < r.allFrom ==> log[i].contractId !in r.mine
  }

  ghost predicate RestClosed(r: Round, t: Tables) {
    forall c :: c in r.all && c !in r.mine ==> Transparency.ClosedContract(t, c)
  }

  ghost predicate MarksOk(p: Pair, log: Log, configured: Option<string>) {
    match p.round
    case None => p.a.last <= p.b.last <= p.highest && Passed(p.a.tables, configured, log, p.a.last, p.b.last)
    case Some(r) =>
      && Bounds(r, p.a.last, p.b.last, p.highest) && NoneMissed(r, log)
      && RestClosed(r, p.a.tables) && Passed(p.a.tables, configured, log, r.mineFrom, EndOf(r))
  }

  ghost predicate Inv(p: Pair, log: Log, configured: Option<string>) {
    && p.a.tables == p.b.tables && Transparency.Inv(MemoOf(p, log))
    && SavedLedger(p.a.tables.audit) <= p.highest
    && MarksOk(p, log, configured)
  }

  /** Steps on the tables that keep all and hand out no contract named so far keep what was passed over. */
  lemma PassedStays(t: Tables, u: Tables, configured: Option<string>, log: Log, lo: nat, hi: nat, highest: nat)
    requires KeepsAll(t, u) && Transparency.NewContractsOnly(t, u, Seen(log, highest)) && hi <= highest
    requires Passed(t, configured, log, lo, hi)
    ensures Passed(u, configured, log, lo, hi)
  {
    hide KeepsAll, Targets, Transparency.NewContractsOnly;
    forall i | 0 <= i < |log| && lo <= log[i].ledger < hi
      ensures log[i].contractId !in Targets(u.escrows, configured, true)
    {
      assert log[i] in Seen(log, highest);
      NoNewTarget(t, u, configured, log[i], Seen(log, highest));
    }
  }

  lemma NoNewTarget(t: Tables, u: Tables, configured: Option<string>, ev: ChainEvent, seen: set<ChainEvent>)
    requires KeepsAll(t, u) && Transparency.NewContractsOnly(t, u, seen) && ev in seen
    requires ev.contractId !in Targets(t.escrows, configured, true)
    ensures ev.contractId !in Targets(u.escrows, configured, true)
  {
    hide Rank;
    if ev.contractId in ActiveContracts(u.escrows) {
      var x :| x in u.escrows && IsActive(u.escrows[x]) && u.escrows[x].contractId.value == ev.contractId;
      assert !ContractFree(u, ev.contractId);
      var y :| y in t.escrows && t.escrows[y].contractId == Some(ev.contractId);
      assert Carries(t, u, y);
      assert SameContract(u.escrows[x], u.escrows[y]);
      ActiveBefore(t.escrows[y].status, u.escrows[y].status);
    }
  }

  lemma ActiveBefore(s: EscrowStatus, r: EscrowStatus)
    requires r == s || Rank(r) > Rank(s)
    ensures Terminal(s) ==> Terminal(r)
  {
  }

  lemma ClosedStays(t: Tables, u: Tables, c: string)
    requires KeepsAll(t, u) && Transparency.ClosedContract(t, c)
    ensures Transparency.ClosedContract(u, c)
  {
    hide Rank, Sane;
    var x :| x in t.escrows && t.escrows[x].contractId == Some(c) && Terminal(t.escrows[x].status);
    assert Carries(t, u, x);
    ActiveBefore(t.escrows[x].status, u.escrows[x].status);
    assert u.escrows[x].contractId == Some(c) && Terminal(u.escrows[x].status);
  }

  lemma RestStaysClosed(r: Round, t: Tables, u: Tables)
    requires KeepsAll(t, u) && RestClosed(r, t)
    ensures RestClosed(r, u)
  {
    hide KeepsAll, Transparency.ClosedContract;
    forall c | c in r.all && c !in r.mine ensures Transparency.ClosedContract(u, c) {
      ClosedStays(t, u, c);
    }
  }

  // ---- service calls --------------------------------------------------------------------------------------

  lemma SyncSaved(t: Tables, x: string, a: SyncAction, reply: ChainReply, xdr: string, auditOk: bool)
    ensures SavedLedger(Sync(t, x, a, reply, xdr, auditOk).0.audit) <= SavedLedger(t.audit)
  {
    hide Conflicts, EscrowSynced, SyncAllowed;
    assert t.audit + [] == t.audit;
  }

  lemma OpenSaved(t: Tables, orderId: string, freshId: string, deployed: Option<string>, auditOk: bool)
    ensures SavedLedger(Open(t, orderId, freshId, deployed, auditOk).0.audit) <= SavedLedger(t.audit)
  {
    hide ByOrder, HasContract;
    assert t.audit + [] == t.audit;
  }

  lemma InitializeSaved(t: Tables, orderId: string, freshId: string, chainOk: bool, auditOk: bool)
    ensures SavedLedger(StartEscrow(t, orderId, freshId, chainOk, auditOk).0.audit) <= SavedLedger(t.audit)
  {
    hide ByOrder, HasContract;
    assert t.audit + [] == t.audit;
  }

  /** Service calls write no ledger, so none moves the mark of the next start forward. */
  lemma HandleSaved(t: Tables, h: Handler)
    ensures SavedLedger(Handle(t, h).audit) <= SavedLedger(t.audit)
  {
    hide Sync, Open, StartEscrow, SavedLedger, ByOrder;
    match h
    case DoSync(x, action, reply, xdr, auditOk) => SyncSaved(t, x, action, reply, xdr, auditOk);
    case DoOpen(orderId, freshId, deployed, auditOk) => OpenSaved(t, orderId, freshId, deployed, auditOk);
    case DoInitialize(orderId, freshId, chainOk, auditOk) => InitializeSaved(t, orderId, freshId, chainOk, auditOk);
    case _ =>
  }

  lemma MarksStay(p: Pair, log: Log, configured: Option<string>, u: Tables, a: State, b: State)
    requires MarksOk(p, log, configured) && KeepsAll(p.a.tables, u)
    requires Transparency.NewContractsOnly(p.a.tables, u, Seen(log, p.highest))
    requires a.tables == b.tables == u && a.last == p.a.last && b.last == p.b.last
    ensures MarksOk(p.(a := a, b := b), log, configured)
  {
    hide KeepsAll, Passed, Transparency.NewContractsOnly, NoneMissed, RestClosed;
    match p.round
    case None => PassedStays(p.a.tables, u, configured, log, p.a.last, p.b.last, p.highest);
    case Some(r) =>
      PassedStays(p.a.tables, u, configured, log, r.mineFrom, EndOf(r), p.highest);
      RestStaysClosed(r, p.a.tables, u);
  }

  lemma CallKeeps(p: Pair, log: Log, configured: Option<string>, h: Handler)
    requires Inv(p, log, configured) && BothWellFormed(p) && Enabled(p, log, Calls(h))
    ensures Inv(Apply(p, log, configured, Calls(h)), log, configured)
  {
    hide Handle, Transparency.Inv, KeepsAll, MarksOk, Transparency.NewContractsOnly, FreshIds, GuardedOpen, SavedLedger,
      WellFormed, Sane;
    var t, u := p.a.tables, Handle(p.a.tables, h);
    MemoSane(MemoOf(p, log));
    Transparency.CallKeeps(MemoOf(p, log), h);
    HandleKeeps(t, h);
    HandleSaved(t, h);
    MarksStay(p, log, configured, u, p.a.(tables := u), p.b.(tables := u));
  }

  lemma MemoSane(m: Transparency.Memo)
    requires Transparency.Inv(m)
    ensures Sane(m.tables) && WellFormed(m.tables)
  {
  }

  // ---- entries --------------------------------------------------------------------------------------------

  lemma OneEvent(log: Log, i: nat, highest: nat)
    requires InOrder(log) && i < |log| && log[i].ledger <= highest
    ensures log[i] in Seen(log, highest) && Transparency.OneKeyOneEvent(Seen(log, highest), log[i])
  {
  }

  lemma DeliverNoContract(t: Tables, ev: ChainEvent, storageOk: bool, seen: set<ChainEvent>)
    requires WellFormed(t)
    ensures Transparency.NewContractsOnly(t, Deliver(t, ev, storageOk).0, seen)
  {
    hide WellFormed, Deliver, Find, Rank, Spent;
    DeliverKeeps(t, ev, storageOk);
  }

  lemma DeliverStays(t: Tables, ev: ChainEvent, storageOk: bool, highest: nat)
    requires WellFormed(t) && SavedLedger(t.audit) <= highest && ev.ledger <= highest
    ensures SavedLedger(Deliver(t, ev, storageOk).0.audit) <= highest
  {
    hide WellFormed, Find, Rank, CanApply, AlreadyDone, EscrowAfter, OrderStatusAfter;
  }

  lemma ReceiveIs(s: State, ev: ChainEvent, storageOk: bool)
    requires WellFormed(s.tables)
    ensures var (r, q) := (Receive(s, Some(ev), storageOk), PlainReceive(s, Some(ev), storageOk));
      && s.last <= r.last <= Max(s.last, ev.ledger) && s.last <= q.last <= Max(s.last, ev.ledger)
      && r.tables == Process(s.tables, s.cache, ev, storageOk).0 && r.cache == Process(s.tables, s.cache, ev, storageOk).1
      && q.tables == Deliver(s.tables, ev, storageOk).0
  {
    hide WellFormed, Deliver;
  }

  /** What one listener gets and the other does not is about closed escrows. */
  lemma OneSided(r: Round, log: Log, t: Tables, a: nat, b: nat, highest: nat, i: nat)
    requires Bounds(r, a, b, highest) && NoneMissed(r, log) && RestClosed(r, t) && i < |log|
    ensures InMine(r, log[i]) ==> InAll(r, log[i])
    ensures InAll(r, log[i]) && !InMine(r, log[i]) ==> Transparency.ClosedContract(t, log[i].contractId)
    ensures InAll(r, log[i]) ==> log[i].ledger <= r.latest <= highest
  {
    hide Transparency.ClosedContract;
  }

  /** An entry of a page keeps the tables equal and the memory sound. */
  lemma EntryAgrees(p: Pair, log: Log, configured: Option<string>, ok: bool)
    requires InOrder(log) && Inv(p, log, configured) && BothWellFormed(p) && Enabled(p, log, Takes(ok))
    ensures var (q, ev) := (Apply(p, log, configured, Takes(ok)), log[p.round.value.next]);
      && q.a.tables == q.b.tables && Transparency.Inv(MemoOf(q, log))
      && (q.a.tables == p.a.tables || (q.a.tables == Deliver(p.a.tables, ev, ok).0 && ev.ledger <= p.highest))
  {
    hide Transparency.Inv, Deliver, WellFormed, Served, Passed, Bounds, NoneMissed, RestClosed, Seen, Receive, PlainReceive,
      Transparency.OneKeyOneEvent, Transparency.ClosedContract, SavedLedger;
    var r, m := p.round.value, MemoOf(p, log);
    var ev := log[r.next];
    OneSided(r, log, p.a.tables, p.a.last, p.b.last, p.highest, r.next);
    ReceiveIs(p.a, ev, ok);
    ReceiveIs(p.b, ev, ok);
    if InAll(r, ev) {
      OneEvent(log, r.next, p.highest);
      var step := Transparency.Arrives(ev, InMine(r, ev), ok);
      assert m.seen + {ev} == m.seen;
      Transparency.StepKeeps(m, step);
      Transparency.StepAgrees(m, step);
    }
  }

  lemma TakeKeeps(p: Pair, log: Log, configured: Option<string>, ok: bool)
    requires InOrder(log) && Inv(p, log, configured) && BothWellFormed(p) && Enabled(p, log, Takes(ok))
    ensures Inv(Apply(p, log, configured, Takes(ok)), log, configured)
  {
    hide Transparency.Inv, Deliver, WellFormed, Sane, KeepsAll, Passed, NoneMissed, RestClosed, Seen, Receive, PlainReceive,
      Transparency.NewContractsOnly, SavedLedger, Process;
    var q, r := Apply(p, log, configured, Takes(ok)), p.round.value;
    var ev := log[r.next];
    EntryAgrees(p, log, configured, ok);
    MemoSane(MemoOf(p, log));
    Lifecycle.DeliverKeepsAll(p.a.tables, ev, ok);
    NoChangeKeeps(p.a.tables);
    SameContracts(p.a.tables, Seen(log, p.highest));
    DeliverNoContract(p.a.tables, ev, ok, Seen(log, p.highest));
    if q.a.tables != p.a.tables {
      DeliverStays(p.a.tables, ev, ok, p.highest);
    }
    ReceiveIs(p.a, ev, ok);
    ReceiveIs(p.b, ev, ok);
    ServedBounds(r, ev);
    PassedStays(p.a.tables, q.a.tables, configured, log, r.mineFrom, EndOf(r), p.highest);
    RestStaysClosed(r, p.a.tables, q.a.tables);
    SameRest(r, q.a.tables, log);
  }

  lemma SameContracts(t: Tables, seen: set<ChainEvent>)
    ensures Transparency.NewContractsOnly(t, t, seen)
  {
  }

  lemma ServedBounds(r: Round, ev: ChainEvent)
    ensures InMine(r, ev) ==> ev.ledger <= r.latest && r.mine != {}
    ensures InAll(r, ev) ==> ev.ledger <= r.latest && r.all != {}
  {
  }

  lemma SameRest(r: Round, t: Tables, log: Log)
    ensures RestClosed(r, t) ==> RestClosed(r.(next := r.next + 1), t)
    ensures NoneMissed(r, log) ==> NoneMissed(r.(next := r.next + 1), log)
  {
  }

  // ---- begin, end, stop -------------------------------------------------------------------------------------

  lemma MoreSeen(p: Pair, log: Log, highest: nat)
    requires Transparency.Inv(MemoOf(p, log)) && p.highest <= highest
    ensures Transparency.Inv(MemoOf(p.(highest := highest), log))
  {
    hide Sane, Transparency.SpentOn, Transparency.Remembers;
    assert Seen(log, p.highest) <= Seen(log, highest);
    Transparency.RememberedStays(MemoOf(p, log), MemoOf(p.(highest := highest), log));
  }

  lemma OpenedOk(p: Pair, log: Log, configured: Option<string>, latest: nat)
    requires BothWellFormed(p) && p.a.tables == p.b.tables && p.round.None? && MarksOk(p, log, configured)
    ensures MarksOk(Apply(p, log, configured, Begins(latest)), log, configured)
  {
    hide WellFormed;
    var r := Opened(p, configured, latest);
    forall c | c in r.all && c !in r.mine ensures Transparency.ClosedContract(p.a.tables, c) {
      var x :| x in p.a.tables.escrows && Named(p.a.tables.escrows[x].contractId) && p.a.tables.escrows[x].contractId.value == c;
      assert !IsActive(p.a.tables.escrows[x]);
    }
  }

  lemma BeginKeeps(p: Pair, log: Log, configured: Option<string>, latest: nat)
    requires Inv(p, log, configured) && BothWellFormed(p) && Enabled(p, log, Begins(latest))
    ensures Inv(Apply(p, log, configured, Begins(latest)), log, configured)
  {
    hide WellFormed, Transparency.Inv, MarksOk, SavedLedger, Opened;
    OpenedOk(p, log, configured, latest);
    MoreSeen(p, log, Max(p.highest, latest));
  }

  lemma EndKeeps(p: Pair, log: Log, configured: Option<string>)
    requires Inv(p, log, configured) && BothWellFormed(p) && Enabled(p, log, Ends)
    ensures Inv(Apply(p, log, configured, Ends), log, configured)
  {
    hide WellFormed, Transparency.Inv, SavedLedger, Targets, NoneMissed, RestClosed, Seen;
  }

  lemma StopKeeps(p: Pair, log: Log, configured: Option<string>, queryOk: bool)
    requires Inv(p, log, configured) && BothWellFormed(p)
    ensures Inv(Apply(p, log, configured, Stops(queryOk)), log, configured)
  {
    hide WellFormed, SavedLedger, Targets, Sane, Transparency.Inv, Seen;
    MemoSane(MemoOf(p, log));
    Transparency.FreshStart(p.a.tables, Seen(log, p.highest));
  }

  lemma InvWellFormed(p: Pair, log: Log, configured: Option<string>)
    requires Inv(p, log, configured)
    ensures BothWellFormed(p)
  {
  }

  lemma MoveInv(p: Pair, log: Log, configured: Option<string>, move: Move)
    requires InOrder(log) && Inv(p, log, configured) && BothWellFormed(p) && Enabled(p, log, move)
    ensures Inv(Apply(p, log, configured, move), log, configured)
  {
    hide Inv, BothWellFormed, InOrder, Enabled, Apply;
    match move
    case Begins(latest) => BeginKeeps(p, log, configured, latest);
    case Takes(ok) => TakeKeeps(p, log, configured, ok);
    case Ends => EndKeeps(p, log, configured);
    case Stops(q) => StopKeeps(p, log, configured, q);
    case Calls(h) => CallKeeps(p, log, configured, h);
  }

  /** Equal tables, a sound memory, and nothing missed by the mark that lags behind. */
  lemma MoveKeeps(p: Pair, log: Log, configured: Option<string>, move: Move)
    requires InOrder(log) && Inv(p, log, configured) && BothWellFormed(p) && Enabled(p, log, move)
    ensures Inv(Apply(p, log, configured, move), log, configured) && BothWellFormed(Apply(p, log, configured, move))
  {
    hide Inv, BothWellFormed, InOrder, Enabled, Apply;
    MoveInv(p, log, configured, move);
    InvWellFormed(Apply(p, log, configured, move), log, configured);
  }

  // ---- any run ----------------------------------------------------------------------------------------------

  ghost predicate Possible(p: Pair, log: Log, configured: Option<string>, moves: seq<Move>)
    requires InOrder(log) && Inv(p, log, configured) && BothWellFormed(p)
    decreases |moves|
  {
    moves == [] ||
    (&& Enabled(p, log, moves[0])
     && (MoveKeeps(p, log, configured, moves[0]); Possible(Apply(p, log, configured, moves[0]), log, configured, moves[1..])))
  }

  ghost function Run(p: Pair, log: Log, configured: Option<string>, moves: seq<Move>): (r: Pair)
    requires InOrder(log) && Inv(p, log, configured) && BothWellFormed(p) && Possible(p, log, configured, moves)
    ensures Inv(r, log, configured)
    decreases |moves|
  {
    if moves == [] then p
    else
      MoveKeeps(p, log, configured, moves[0]);
      Run(Apply(p, log, configured, moves[0]), log, configured, moves[1..])
  }

  function Start(t: Tables, queryOk: bool): Pair {
    Pair(Started(t, queryOk), Started(t, queryOk), SavedLedger(t.audit), None)
  }

  lemma StartInv(t: Tables, log: Log, configured: Option<string>, queryOk: bool)
    requires Sane(t)
    ensures Inv(Start(t, queryOk), log, configured) && BothWellFormed(Start(t, queryOk))
  {
    hide Targets, Sane, Transparency.Inv, Seen;
    Transparency.FreshStart(t, Seen(log, SavedLedger(t.audit)));
    InvWellFormed(Start(t, queryOk), log, configured);
  }

  /**
   Two processes just started on the same sane tables leave the same tables after any run, and the mark of the
   filtering one is never ahead between two polls.
   */
  lemma ListenersAgree(t: Tables, log: Log, configured: Option<string>, queryOk: bool, moves: seq<Move>)
    requires Sane(t) && InOrder(log)
    ensures Inv(Start(t, queryOk), log, configured) && BothWellFormed(Start(t, queryOk))
    ensures Possible(Start(t, queryOk), log, configured, moves) ==>
      var r := Run(Start(t, queryOk), log, configured, moves);
      r.a.tables == r.b.tables && (r.round.None? ==> r.a.last <= r.b.last)
  {
    hide Sane, Start, Possible, Run, Transparency.Inv, Passed;
    StartInv(t, log, configured, queryOk);
  }

  // ---- an undisturbed round is a poll -------------------------------------------------------------------------

  /** The places in a page at which the storage refuses, when it refuses those entries of the log. */
  function Failing(log: Log, targets: set<string>, start: Option<nat>, latest: nat, refused: set<nat>): set<nat> {
    set i | i in ServedOf(log, targets, start, latest, refused) :: PlaceOf(log, targets, start, latest, i)
  }

  function ServedOf(log: Log, targets: set<string>, start: Option<nat>, latest: nat, refused: set<nat>): set<nat> {
    set i | i in refused && i < |log| && Served(log[i], targets, start, latest)
  }

  function PlaceOf(log: Log, targets: set<string>, start: Option<nat>, latest: nat, i: nat): nat {
    if i < |log| then |PageOf(log[..i], targets, start, latest)| else 0
  }

  lemma PageNext(log: Log, targets: set<string>, start: Option<nat>, latest: nat, i: nat)
    requires i < |log|
    ensures PageOf(log[..i + 1], targets, start, latest)
         == PageOf(log[..i], targets, start, latest) + if Served(log[i], targets, start, latest) then [Some(log[i])] else []
  {
    hide Served;
    assert log[..i + 1][..i] == log[..i];
  }

  lemma {:induction false} PageGrows(log: Log, targets: set<string>, start: Option<nat>, latest: nat, i: nat, j: nat)
    requires i < j <= |log| && Served(log[i], targets, start, latest)
    ensures |PageOf(log[..i], targets, start, latest)| < |PageOf(log[..j], targets, start, latest)|
  {
    hide Served;
    PageNext(log, targets, start, latest, j - 1);
    if i < j - 1 {
      PageGrows(log, targets, start, latest, i, j - 1);
    }
  }

  /** Different entries stand at different places. */
  lemma FailsThere(log: Log, targets: set<string>, start: Option<nat>, latest: nat, refused: set<nat>, i: nat)
    requires i < |log| && Served(log[i], targets, start, latest)
    ensures |PageOf(log[..i], targets, start, latest)| in Failing(log, targets, start, latest, refused) <==> i in refused
  {
    hide Served, PageOf;
    var n := |PageOf(log[..i], targets, start, latest)|;
    if n in Failing(log, targets, start, latest, refused) {
      var k :| k in ServedOf(log, targets, start, latest, refused) && PlaceOf(log, targets, start, latest, k) == n;
      if k < i {
        PageGrows(log, targets, start, latest, k, i);
      } else if i < k {
        PageGrows(log, targets, start, latest, i, k);
      }
    }
    if i in refused {
      assert i in ServedOf(log, targets, start, latest, refused) && PlaceOf(log, targets, start, latest, i) == n;
    }
  }

  ghost function TakesUpTo(p: Pair, log: Log, refused: set<nat>, j: nat): (r: Pair)
    requires BothWellFormed(p) && p.round.Some? && p.round.value.next == 0 && j <= |log|
    ensures BothWellFormed(r) && r.highest == p.highest && r.round == Some(p.round.value.(next := j))
  {
    if j == 0 then p else TakeOne(TakesUpTo(p, log, refused, j - 1), log, (j - 1) !in refused)
  }

  /** What one more entry of the log adds to a page that is taken in. */
  lemma PageTaken(s: State, log: Log, targets: set<string>, start: Option<nat>, latest: nat, refused: set<nat>, i: nat, ok: bool)
    requires WellFormed(s.tables) && i < |log| && ok == (i !in refused)
    ensures var (f, page) := (Failing(log, targets, start, latest, refused), PageOf(log[..i], targets, start, latest));
      var next := PageOf(log[..i + 1], targets, start, latest);
      && ReceiveAll(s, next, f) == (if Served(log[i], targets, start, latest) then Receive(ReceiveAll(s, page, f), Some(log[i]), ok)
                                    else ReceiveAll(s, page, f))
      && PlainReceiveAll(s, next, f) == (if Served(log[i], targets, start, latest)
                                         then PlainReceive(PlainReceiveAll(s, page, f), Some(log[i]), ok)
                                         else PlainReceiveAll(s, page, f))
  {
    hide WellFormed, Receive, PlainReceive, ReceiveAll, PlainReceiveAll, Served, Failing, PageOf;
    var f, page := Failing(log, targets, start, latest, refused), PageOf(log[..i], targets, start, latest);
    PageNext(log, targets, start, latest, i);
    if Served(log[i], targets, start, latest) {
      FailsThere(log, targets, start, latest, refused, i);
      ReceiveLast(s, page, log[i], f, ok);
    } else {
      assert page + [] == page;
    }
  }

  lemma {:induction false} TakesArePage(p: Pair, log: Log, refused: set<nat>, j: nat)
    requires BothWellFormed(p) && p.round.Some? && p.round.value.next == 0 && j <= |log|
    ensures var (r, q) := (p.round.value, TakesUpTo(p, log, refused, j));
      var (mine, all) := (StartLedger(r.mineFrom), StartLedger(r.allFrom));
      && q.a == ReceiveAll(p.a, PageOf(log[..j], r.mine, mine, r.latest), Failing(log, r.mine, mine, r.latest, refused))
      && q.b == PlainReceiveAll(p.b, PageOf(log[..j], r.all, all, r.latest), Failing(log, r.all, all, r.latest, refused))
  {
    hide WellFormed, Receive, PlainReceive, Served, StartLedger, Failing, PageOf, ReceiveAll, PlainReceiveAll;
    var r := p.round.value;
    var mine, all := StartLedger(r.mineFrom), StartLedger(r.allFrom);
    if j == 0 {
      NonePaged(p.a, log, r.mine, mine, r.latest, Failing(log, r.mine, mine, r.latest, refused));
      NonePaged(p.b, log, r.all, all, r.latest, Failing(log, r.all, all, r.latest, refused));
    } else {
      TakesArePage(p, log, refused, j - 1);
      PageTaken(p.a, log, r.mine, mine, r.latest, refused, j - 1, j - 1 !in refused);
      PageTaken(p.b, log, r.all, all, r.latest, refused, j - 1, j - 1 !in refused);
    }
  }

  lemma NonePaged(s: State, log: Log, targets: set<string>, start: Option<nat>, latest: nat, failing: set<nat>)
    requires WellFormed(s.tables)
    ensures ReceiveAll(s, PageOf(log[..0], targets, start, latest), failing) == s
    ensures PlainReceiveAll(s, PageOf(log[..0], targets, start, latest), failing) == s
  {
  }

  lemma ReceiveLast(s: State, page: seq<Option<ChainEvent>>, ev: ChainEvent, failing: set<nat>, ok: bool)
    requires WellFormed(s.tables) && ok == (|page| !in failing)
    ensures ReceiveAll(s, page + [Some(ev)], failing) == Receive(ReceiveAll(s, page, failing), Some(ev), ok)
    ensures PlainReceiveAll(s, page + [Some(ev)], failing) == PlainReceive(PlainReceiveAll(s, page, failing), Some(ev), ok)
  {
    hide WellFormed, Receive, PlainReceive;
    assert (page + [Some(ev)])[..|page|] == page;
  }

  /**
   Beginning, taking every entry and ending is one poll of each listener, whatever entries the storage
   refuses; the moves above add what can fall in between.
   */
  lemma RoundIsPoll(p: Pair, log: Log, configured: Option<string>, latest: nat, refused: set<nat>)
    requires BothWellFormed(p) && p.round.None?
    ensures var open := Apply(p, log, configured, Begins(latest));
      var done := Apply(TakesUpTo(open, log, refused, |log|), log, configured, Ends);
      var r := open.round.value;
      && done.a == Poll(p.a, configured, true, ChainRpc(log, latest), Failing(log, r.mine, StartLedger(p.a.last), latest, refused))
      && done.b == PlainPoll(p.b, configured, ChainRpc(log, latest), Failing(log, r.all, StartLedger(p.b.last), latest, refused))
  {
    hide WellFormed, Targets, AllTargets, Failing, PageOf, StartLedger, ReceiveAll, PlainReceiveAll;
    var open := Apply(p, log, configured, Begins(latest));
    var r := open.round.value;
    TakesArePage(open, log, refused, |log|);
    assert log[..|log|] == log;
    if r.mine == {} {
      NoTargets(p.a, log, StartLedger(p.a.last), latest, Failing(log, r.mine, StartLedger(p.a.last), latest, refused));
    }
    if r.all == {} {
      NoTargets(p.b, log, StartLedger(p.b.last), latest, Failing(log, r.all, StartLedger(p.b.last), latest, refused));
    }
  }

  lemma NoTargets(s: State, log: Log, start: Option<nat>, latest: nat, failing: set<nat>)
    requires WellFormed(s.tables)
    ensures ReceiveAll(s, PageOf(log, {}, start, latest), failing) == s
    ensures PlainReceiveAll(s, PageOf(log, {}, start, latest), failing) == s
  {
    EmptyPage(log, start, latest);
  }
}
