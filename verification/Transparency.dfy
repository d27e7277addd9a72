/**
 Two listeners over the same chain and the same service calls: one skips events that it remembers and does
 not ask for the contracts of closed escrows, the other takes every event. Their tables never differ.
 */
module Transparency {
  import opened Wrappers
  import opened EventTypes
  import opened EscrowTables
  import opened Handlers
  import opened Listener

  /**
   `asked` is false when the filter of the poll left the event out. Service calls may fall between any two
   events.
   */
  datatype Step =
    | Arrives(ev: ChainEvent, asked: bool, storageOk: bool)
    | Restarts
    | Calls(handler: Handler)

  /** The filtering listener; `seen` is every event that has arrived. */
  datatype Memo = Memo(tables: Tables, cache: set<Key>, seen: set<ChainEvent>)

  ghost function Filtered(s: Memo, step: Step): Memo
    requires WellFormed(s.tables)
  {
    match step
    case Arrives(ev, asked, storageOk) =>
      if asked then
        var (t, cache, o) := Process(s.tables, s.cache, ev, storageOk);
        Memo(t, cache, s.seen + {ev})
      else s.(seen := s.seen + {ev})
    case Restarts => s.(cache := {})
    case Calls(handler) => s.(tables := Handle(s.tables, handler))
  }

  ghost function Unfiltered(t: Tables, step: Step): Tables
    requires WellFormed(t)
  {
    match step
    case Arrives(ev, _, storageOk) => Deliver(t, ev, storageOk).0
    case Restarts => t
    case Calls(handler) => Handle(t, handler)
  }

  // ---- the steps that can happen ----------------------------------------------------------------------------

  /** The filter leaves out only contracts of released and resolved escrows. */
  ghost predicate ClosedContract(t: Tables, contractId: string) {
    contractId != "" && exists x :: x in t.escrows && t.escrows[x].contractId == Some(contractId) && Terminal(t.escrows[x].status)
  }

  /** Event ids are unique: events with the same key are the same. */
  predicate OneKeyOneEvent(seen: set<ChainEvent>, ev: ChainEvent) {
    forall other :: other in seen && KeyOf(other) == KeyOf(ev) ==> other == ev
  }

  /** No contract is handed out that an event has named before. */
  ghost predicate NewContractsOnly(t: Tables, u: Tables, seen: set<ChainEvent>) {
    forall ev :: ev in seen && ContractFree(t, ev.contractId) ==> ContractFree(u, ev.contractId)
  }

  ghost predicate Allowed(s: Memo, step: Step) {
    match step
    case Arrives(ev, asked, _) => OneKeyOneEvent(s.seen, ev) && (!asked ==> ClosedContract(s.tables, ev.contractId))
    case Restarts => true
    case Calls(h) =>
      FreshIds(s.tables, h) && GuardedOpen(s.tables, h) && NewContractsOnly(s.tables, Handle(s.tables, h), s.seen)
  }

  /** Every key remembered is of an event that is spent on the escrow it is about. */
  ghost predicate Remembers(s: Memo) {
    forall key :: key in s.cache ==> exists ev :: ev in s.seen && KeyOf(ev) == key && SpentOn(s.tables, ev)
  }

  ghost predicate SpentOn(t: Tables, ev: ChainEvent) {
    Find(t, ev).Some? && Spent(t.escrows[Find(t, ev).value].status, ev.eventType)
  }

  ghost predicate Inv(s: Memo) {
    Sane(s.tables) && Remembers(s)
  }

  // ---- spent events stay spent --------------------------------------------------------------------------------

  lemma SpentStays(t: Tables, u: Tables, ev: ChainEvent)
    requires WellFormed(t) && WellFormed(u) && SpentOn(t, ev)
    requires Find(u, ev) == Find(t, ev) && RanksKept(t, u)
    ensures SpentOn(u, ev)
  {
    hide Find, WellFormed;
  }

  lemma FindKept(t: Tables, u: Tables, ev: ChainEvent)
    requires Sane(t) && KeepsAll(t, u) && Find(t, ev).Some?
    requires ContractFree(t, ev.contractId) ==> ContractFree(u, ev.contractId)
    ensures Find(u, ev) == Find(t, ev)
  {
    var x := Find(t, ev).value;
    assert Carries(t, u, x);
    if ByContract(t.escrows, ev.contractId).Some? {
      var y := ByContract(t.escrows, ev.contractId).value;
      assert Carries(t, u, y);
      assert SameContract(u.escrows[y], u.escrows[ByContract(u.escrows, ev.contractId).value]);
    }
  }

  lemma RememberedStays(s: Memo, r: Memo)
    requires Remembers(s) && s.cache == r.cache && s.seen <= r.seen
    requires forall ev :: ev in s.seen && SpentOn(s.tables, ev) ==> SpentOn(r.tables, ev)
    ensures Remembers(r)
  {
    hide SpentOn;
  }

  lemma CallKeeps(s: Memo, h: Handler)
    requires Inv(s) && Allowed(s, Calls(h))
    ensures Inv(Filtered(s, Calls(h)))
  {
    hide Handle, FreshIds, GuardedOpen, KeepsAll, RanksKept, ContractFree, Find, SpentOn, WellFormed, Remembers;
    HandleKeeps(s.tables, h);
    var u := Handle(s.tables, h);
    KeepsSane(s.tables, u);
    forall ev | ev in s.seen && SpentOn(s.tables, ev) ensures SpentOn(u, ev) {
      SpentFound(s.tables, ev);
      FindKept(s.tables, u, ev);
      SpentStays(s.tables, u, ev);
    }
    RememberedStays(s, s.(tables := u));
  }

  lemma SpentFound(t: Tables, ev: ChainEvent)
    requires SpentOn(t, ev)
    ensures Find(t, ev).Some?
  {
  }

  // ---- one event --------------------------------------------------------------------------------------------

  lemma DeliverSane(t: Tables, ev: ChainEvent, storageOk: bool)
    requires Sane(t)
    ensures Sane(Deliver(t, ev, storageOk).0)
  {
    hide WellFormed, Find, AlreadyDone, EscrowAfter, OrderStatusAfter, AuditOf;
    DeliverKeeps(t, ev, storageOk);
    var x := Find(t, ev);
    if x.Some? {
      AppliedIsSpent(t.escrows[x.value].status, ev.eventType);
    }
  }

  lemma DeliverSpends(t: Tables, ev: ChainEvent, storageOk: bool)
    requires WellFormed(t)
    ensures var (u, o) := Deliver(t, ev, storageOk); (o.Applied? || o.AlreadyProcessed?) ==> SpentOn(u, ev)
    ensures forall past :: SpentOn(t, past) ==> SpentOn(Deliver(t, ev, storageOk).0, past)
  {
    hide WellFormed, Find, Deliver, Spent, ApplyEvent;
    DeliverKeeps(t, ev, storageOk);
    var u := Deliver(t, ev, storageOk).0;
    DeliverRanks(t, u);
    forall past | SpentOn(t, past) ensures SpentOn(u, past) {
      FindStable(t, u, past);
      SpentStays(t, u, past);
    }
  }

  lemma DeliverRanks(t: Tables, u: Tables)
    requires SameIndex(t, u) && forall x :: x in t.escrows ==> Rank(t.escrows[x].status) <= Rank(u.escrows[x].status)
    ensures RanksKept(t, u)
  {
  }

  lemma ArrivalRemembered(s: Memo, ev: ChainEvent, storageOk: bool)
    requires WellFormed(s.tables) && Remembers(s) && KeyOf(ev) !in s.cache
    ensures Remembers(Filtered(s, Arrives(ev, true, storageOk)))
  {
    hide WellFormed, SpentOn, Deliver;
    DeliverSpends(s.tables, ev, storageOk);
    var r := Filtered(s, Arrives(ev, true, storageOk));
    forall key | key in r.cache ensures exists e :: e in r.seen && KeyOf(e) == key && SpentOn(r.tables, e) {
      if key in s.cache {
        var e :| e in s.seen && KeyOf(e) == key && SpentOn(s.tables, e);
        assert e in r.seen && SpentOn(r.tables, e);
      } else {
        assert ev in r.seen && SpentOn(r.tables, ev);
      }
    }
  }

  lemma ArrivalKeeps(s: Memo, ev: ChainEvent, asked: bool, storageOk: bool)
    requires Inv(s)
    ensures Inv(Filtered(s, Arrives(ev, asked, storageOk)))
  {
    hide Sane, SpentOn, Deliver, Remembers;
    SaneWellFormed(s.tables);
    if asked && KeyOf(ev) !in s.cache {
      ArrivalRemembered(s, ev, storageOk);
      DeliverSane(s.tables, ev, storageOk);
    } else {
      RememberedStays(s, s.(seen := s.seen + {ev}));
    }
  }

  lemma SaneWellFormed(t: Tables)
    requires Sane(t)
    ensures WellFormed(t)
  {
  }

  lemma StepKeeps(s: Memo, step: Step)
    requires Inv(s) && Allowed(s, step)
    ensures Inv(Filtered(s, step))
  {
    hide Sane, SpentOn;
    SaneWellFormed(s.tables);
    match step
    case Arrives(ev, asked, storageOk) => ArrivalKeeps(s, ev, asked, storageOk);
    case Restarts =>
    case Calls(h) => CallKeeps(s, h);
  }

  lemma ClosedIsSpent(t: Tables, ev: ChainEvent)
    requires WellFormed(t) && ClosedContract(t, ev.contractId)
    ensures SpentOn(t, ev)
  {
    var x :| x in t.escrows && t.escrows[x].contractId == Some(ev.contractId) && Terminal(t.escrows[x].status);
    assert SameContract(t.escrows[x], t.escrows[ByContract(t.escrows, ev.contractId).value]);
  }

  /** What the filter or the memory leaves out would have changed nothing. */
  lemma StepAgrees(s: Memo, step: Step)
    requires Inv(s) && Allowed(s, step)
    ensures Filtered(s, step).tables == Unfiltered(s.tables, step)
  {
    hide WellFormed, Find, Deliver, Spent, ClosedContract, Handle, FreshIds, GuardedOpen, NewContractsOnly;
    if step.Arrives? {
      var ev := step.ev;
      if !step.asked {
        ClosedIsSpent(s.tables, ev);
        SpentHasNoEffect(s.tables, ev, step.storageOk);
      } else if KeyOf(ev) in s.cache {
        var other :| other in s.seen && KeyOf(other) == KeyOf(ev) && SpentOn(s.tables, other);
        SpentHasNoEffect(s.tables, ev, step.storageOk);
      }
    }
  }

  // ---- any run ----------------------------------------------------------------------------------------------

  ghost predicate Possible(s: Memo, steps: seq<Step>)
    requires Inv(s)
    decreases |steps|
  {
    steps == [] || (Allowed(s, steps[0]) && (StepKeeps(s, steps[0]); Possible(Filtered(s, steps[0]), steps[1..])))
  }

  ghost function FilteredRun(s: Memo, steps: seq<Step>): Memo
    requires Inv(s) && Possible(s, steps)
    decreases |steps|
  {
    if steps == [] then s
    else
      StepKeeps(s, steps[0]);
      FilteredRun(Filtered(s, steps[0]), steps[1..])
  }

  ghost function UnfilteredRun(t: Tables, steps: seq<Step>): Tables
    decreases |steps|
  {
    if steps == [] || !WellFormed(t) then t else UnfilteredRun(Unfiltered(t, steps[0]), steps[1..])
  }

  /** Started on the same tables, the two listeners leave the same tables after every run that can happen. */
  lemma {:induction false} Transparent(s: Memo, steps: seq<Step>)
    requires Inv(s) && Possible(s, steps)
    ensures FilteredRun(s, steps).tables == UnfilteredRun(s.tables, steps)
    decreases |steps|
  {
    hide Sane, WellFormed, Remembers, Allowed, Filtered, Unfiltered;
    SaneWellFormed(s.tables);
    if steps != [] {
      StepKeeps(s, steps[0]);
      StepAgrees(s, steps[0]);
      Transparent(Filtered(s, steps[0]), steps[1..]);
    }
  }

  /** A listener that has just started remembers nothing. */
  lemma FreshStart(t: Tables, seen: set<ChainEvent>)
    requires Sane(t)
    ensures Inv(Memo(t, {}, seen))
  {
  }

  /** From any sane tables, a process just started and one without memory or filter leave the same tables. */
  lemma TransparentFromStart(t: Tables, steps: seq<Step>)
    requires Sane(t)
    ensures Inv(Memo(t, {}, {}))
    ensures Possible(Memo(t, {}, {}), steps) ==> FilteredRun(Memo(t, {}, {}), steps).tables == UnfilteredRun(t, steps)
  {
    hide Possible, Inv, FilteredRun, UnfilteredRun;
    FreshStart(t, {});
    if Possible(Memo(t, {}, {}), steps) {
      Transparent(Memo(t, {}, {}), steps);
    }
  }

  // ---- opening without the guard ------------------------------------------------------------------------------

  function NoContract(status: EscrowStatus): Tables {
    Tables(map["escrow" := Escrow("order", None, status, None, None)],
           map["order" := Order("buyer", "seller", OrderCreated, None)], [])
  }

  function FundedByOrder(): ChainEvent {
    ChainEvent("1", EscrowFunded, "K", "", 7, 0, "order", "")
  }

  lemma OneRow(t: Tables, e: Escrow)
    requires t.escrows == map["escrow" := e] && e.orderId == "order" && e.contractId != Some("K")
    requires "order" in t.orders
    ensures WellFormed(t) && ByOrder(t.escrows, "order") == Some("escrow") && Find(t, FundedByOrder()) == Some("escrow")
  {
    assert t.escrows["escrow"].orderId == "order";
  }

  /**
   An escrow without a contract, funded through its order, is set back by `open`; then the same event is
   taken again by the listener without memory, and by the other it is not.
   */
  lemma UnguardedOpenShows(s: Memo)
    requires s == Memo(NoContract(Initialized), {}, {})
    ensures WellFormed(s.tables)
    ensures var a := Filtered(s, Funding());
      WellFormed(a.tables) && a.tables == Unfiltered(s.tables, Funding())
      && FreshIds(a.tables, Opening().handler) && !GuardedOpen(a.tables, Opening().handler)
    ensures var a := Filtered(s, Funding());
      var b := Filtered(a, Opening());
      WellFormed(b.tables) && b.tables == Unfiltered(a.tables, Opening())
      && "escrow" in Filtered(b, Funding()).tables.escrows && "escrow" in Unfiltered(b.tables, Funding()).escrows
      && Filtered(b, Funding()).tables.escrows["escrow"].status == Initialized
      && Unfiltered(b.tables, Funding()).escrows["escrow"].status == Funded
  {
    hide WellFormed, ByOrder, ByContract, Find;
    OneRow(s.tables, s.tables.escrows["escrow"]);
    var a := Filtered(s, Funding());
    OneRow(a.tables, a.tables.escrows["escrow"]);
    var b := Filtered(a, Opening());
    OneRow(b.tables, b.tables.escrows["escrow"]);
  }

  function Funding(): Step {
    Arrives(FundedByOrder(), true, true)
  }

  function Opening(): Step {
    Calls(DoOpen("order", "fresh", Some("D"), true))
  }
}
