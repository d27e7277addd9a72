/** Whole runs of chain events and service calls, seen from one escrow and its order. */
module Lifecycle {
  import opened Wrappers
  import opened EventTypes
  import opened EscrowTables
  import opened Handlers

  datatype Step = OnChain(ev: ChainEvent, storageOk: bool) | OnCall(handler: Handler)

  ghost function Do(t: Tables, step: Step): Tables
    requires Sane(t)
  {
    match step
    case OnChain(ev, storageOk) => Deliver(t, ev, storageOk).0
    case OnCall(h) => Handle(t, h)
  }

  ghost predicate Allowed(t: Tables, step: Step) {
    step.OnCall? ==> FreshIds(t, step.handler)
  }

  lemma DeliverKeepsAll(t: Tables, ev: ChainEvent, storageOk: bool)
    requires Sane(t)
    ensures KeepsAll(t, Deliver(t, ev, storageOk).0)
  {
    hide WellFormed, Find, AlreadyDone, EscrowAfter, OrderStatusAfter, AuditOf;
    DeliverKeeps(t, ev, storageOk);
    var x := Find(t, ev);
    if x.Some? {
      AppliedIsSpent(t.escrows[x.value].status, ev.eventType);
    }
  }

  lemma DoKeeps(t: Tables, step: Step)
    requires Sane(t) && Allowed(t, step)
    ensures KeepsAll(t, Do(t, step)) && Sane(Do(t, step))
  {
    hide Sane, Handle, Deliver, FreshIds, Carries;
    match step
    case OnChain(ev, storageOk) => DeliverKeepsAll(t, ev, storageOk);
    case OnCall(h) => HandleKeeps(t, h);
  }

  ghost predicate Possible(t: Tables, steps: seq<Step>)
    requires Sane(t)
    decreases |steps|
  {
    steps == [] || (Allowed(t, steps[0]) && (DoKeeps(t, steps[0]); Possible(Do(t, steps[0]), steps[1..])))
  }

  ghost function Run(t: Tables, steps: seq<Step>): (r: Tables)
    requires Sane(t) && Possible(t, steps)
    ensures Sane(r)
    decreases |steps|
  {
    if steps == [] then t
    else
      DoKeeps(t, steps[0]);
      Run(Do(t, steps[0]), steps[1..])
  }

  // ---- ranks --------------------------------------------------------------------------------------------------

  ghost predicate Moves(t: Tables, u: Tables, x: string) {
    x in t.escrows && x in u.escrows && t.escrows[x].status != u.escrows[x].status
  }

  /** How often a run changes the status of an escrow. */
  ghost function Changes(t: Tables, steps: seq<Step>, x: string): nat
    requires Sane(t) && Possible(t, steps)
    decreases |steps|
  {
    if steps == [] then 0
    else
      DoKeeps(t, steps[0]);
      (if Moves(t, Do(t, steps[0]), x) then 1 else 0) + Changes(Do(t, steps[0]), steps[1..], x)
  }

  ghost predicate Bound(t: Tables, x: string) {
    x in t.escrows && t.escrows[x].contractId.Some?
  }

  lemma StepPays(t: Tables, u: Tables, x: string)
    requires KeepsAll(t, u) && Bound(t, x)
    ensures Bound(u, x) && u.escrows[x].orderId == t.escrows[x].orderId && u.escrows[x].contractId == t.escrows[x].contractId
    ensures Rank(u.escrows[x].status) >= Rank(t.escrows[x].status) + if Moves(t, u, x) then 1 else 0
  {
    assert Carries(t, u, x);
  }

  /** Every change of status is paid for by at least one rank, so there are at most five. */
  lemma {:induction false} RankPays(t: Tables, steps: seq<Step>, x: string)
    requires Sane(t) && Possible(t, steps) && Bound(t, x)
    ensures var u := Run(t, steps);
      && Bound(u, x) && u.escrows[x].orderId == t.escrows[x].orderId && u.escrows[x].contractId == t.escrows[x].contractId
      && Changes(t, steps, x) <= Rank(u.escrows[x].status) - Rank(t.escrows[x].status) <= TOP_RANK
    decreases |steps|
  {
    hide Sane, Do, KeepsAll, Moves, Rank, Allowed, Bound;
    BoundHolds(t, x);
    if steps != [] {
      DoKeeps(t, steps[0]);
      var u := Do(t, steps[0]);
      StepPays(t, u, x);
      RankPays(u, steps[1..], x);
      BoundHolds(Run(u, steps[1..]), x);
    }
  }

  lemma BoundHolds(t: Tables, x: string)
    ensures Bound(t, x) ==> x in t.escrows
  {
  }

  // ---- protected orders ---------------------------------------------------------------------------------------

  ghost predicate IsProtected(t: Tables, x: string) {
    Bound(t, x) && Protected(t.escrows[x].status)
  }

  /** No cancellation and no sweep in the run changes the row of the order. */
  ghost predicate NeverClosed(t: Tables, steps: seq<Step>, orderId: string)
    requires Sane(t) && Possible(t, steps)
    decreases |steps|
  {
    steps == [] ||
    (&& (IsClosing(steps[0]) ==> SameOrder(t, Do(t, steps[0]), orderId))
     && (DoKeeps(t, steps[0]); NeverClosed(Do(t, steps[0]), steps[1..], orderId)))
  }

  predicate IsClosing(step: Step) {
    step.OnCall? && (step.handler.DoCancel? || step.handler.DoSweep?)
  }

  predicate SameOrder(t: Tables, u: Tables, orderId: string) {
    orderId in t.orders && orderId in u.orders && t.orders[orderId] == u.orders[orderId]
  }

  lemma OwnEscrow(t: Tables, x: string)
    requires WellFormed(t) && x in t.escrows
    ensures ByOrder(t.escrows, t.escrows[x].orderId) == Some(x)
    ensures t.escrows[x].orderId in t.orders
  {
  }

  lemma ProtectedStepKeeps(t: Tables, step: Step, x: string)
    requires Sane(t) && Allowed(t, step) && IsProtected(t, x)
    ensures IsProtected(Do(t, step), x) && Do(t, step).escrows[x].orderId == t.escrows[x].orderId
    ensures IsClosing(step) ==> SameOrder(t, Do(t, step), t.escrows[x].orderId)
  {
    hide WellFormed, KeepsAll, ByOrder, Allowed, Sync, Open, StartEscrow, Create, Deliver;
    DoKeeps(t, step);
    StepPays(t, Do(t, step), x);
    OwnEscrow(t, x);
  }

  /** From `fiat_sent`, `disputed`, `released` or `resolved` on, its order is out of reach of both. */
  lemma {:induction false} ProtectedForGood(t: Tables, steps: seq<Step>, x: string)
    requires Sane(t) && Possible(t, steps) && IsProtected(t, x)
    ensures IsProtected(Run(t, steps), x)
    ensures NeverClosed(t, steps, t.escrows[x].orderId)
    decreases |steps|
  {
    hide Sane, Do, Bound, Protected, SameOrder, IsClosing, Allowed;
    if steps != [] {
      DoKeeps(t, steps[0]);
      ProtectedStepKeeps(t, steps[0], x);
      ProtectedForGood(Do(t, steps[0]), steps[1..], x);
    }
  }

  // ---- the end of an escrow ---------------------------------------------------------------------------------

  ghost predicate IsOver(t: Tables, x: string) {
    Bound(t, x) && Rank(t.escrows[x].status) == TOP_RANK
  }

  lemma OtherEventsElsewhere(t: Tables, ev: ChainEvent, storageOk: bool, x: string)
    requires WellFormed(t) && x in t.escrows && Find(t, ev) != Some(x)
    ensures SameOrder(t, Deliver(t, ev, storageOk).0, t.escrows[x].orderId)
    ensures x in Deliver(t, ev, storageOk).0.escrows && Deliver(t, ev, storageOk).0.escrows[x] == t.escrows[x]
  {
    hide Find, CanApply, AlreadyDone, EscrowAfter;
  }

  lemma OverEventKeeps(t: Tables, ev: ChainEvent, storageOk: bool, x: string)
    requires Sane(t) && IsOver(t, x)
    ensures SameOrder(t, Deliver(t, ev, storageOk).0, t.escrows[x].orderId)
  {
    hide Find, WellFormed;
    OwnEscrow(t, x);
    if Find(t, ev) == Some(x) {
      SpentHasNoEffect(t, ev, storageOk);
    } else {
      OtherEventsElsewhere(t, ev, storageOk, x);
    }
  }

  lemma OverStepKeeps(t: Tables, step: Step, x: string)
    requires Sane(t) && Allowed(t, step) && IsOver(t, x)
    ensures IsOver(Do(t, step), x) && Do(t, step).escrows[x].orderId == t.escrows[x].orderId
    ensures Do(t, step).escrows[x].status == t.escrows[x].status
    ensures SameOrder(t, Do(t, step), t.escrows[x].orderId)
  {
    hide WellFormed, KeepsAll, ByOrder, Deliver;
    DoKeeps(t, step);
    StepPays(t, Do(t, step), x);
    OwnEscrow(t, x);
    if step.OnChain? {
      OverEventKeeps(t, step.ev, step.storageOk, x);
    }
  }

  /** A released or resolved escrow and its order have their final statuses. */
  lemma {:induction false} OverForGood(t: Tables, steps: seq<Step>, x: string)
    requires Sane(t) && Possible(t, steps) && IsOver(t, x)
    ensures var u := Run(t, steps);
      IsOver(u, x) && u.escrows[x].status == t.escrows[x].status && SameOrder(t, u, t.escrows[x].orderId)
    decreases |steps|
  {
    hide Sane, Do, Bound, Rank, Allowed;
    BoundHolds(t, x);
    if steps == [] {
      SaneOrder(t, x);
    } else {
      DoKeeps(t, steps[0]);
      OverStepKeeps(t, steps[0], x);
      OverForGood(Do(t, steps[0]), steps[1..], x);
    }
  }

  lemma SaneOrder(t: Tables, x: string)
    requires Sane(t) && x in t.escrows
    ensures SameOrder(t, t, t.escrows[x].orderId)
  {
  }

  /**
   A release synced by a client leaves the order row as it is for good: the release event of the chain is
   then judged already processed.
   */
  lemma SyncedReleaseStrandsOrder(t: Tables, x: string, reply: ChainReply, xdr: string, auditOk: bool, steps: seq<Step>)
    requires Sane(t) && Bound(t, x) && Sync(t, x, Release, reply, xdr, auditOk).1.Synced?
    ensures var u := Sync(t, x, Release, reply, xdr, auditOk).0;
      Sane(u) && (Possible(u, steps) ==> SameOrder(t, Run(u, steps), t.escrows[x].orderId))
  {
    hide Sane, Possible;
    var u := Sync(t, x, Release, reply, xdr, auditOk).0;
    SyncKeeps(t, x, Release, reply, xdr, auditOk);
    KeepsSane(t, u);
    if Possible(u, steps) {
      OverForGood(u, steps, x);
    }
  }

  /** A cancelled order whose escrow is on its way is opened again by exactly the next event of that way. */
  lemma CancelledOrderReopens(t: Tables, orderId: string, userId: string, x: string, ev: ChainEvent)
    requires Sane(t) && ByOrder(t.escrows, orderId) == Some(x)
    requires Cancel(t, orderId, userId).1.OrderIsCancelled?
    requires Find(t, ev) == Some(x)
    ensures var u := Cancel(t, orderId, userId).0;
      var s := t.escrows[x].status;
      && WellFormed(u) && orderId in Deliver(u, ev, true).0.orders
      && (Deliver(u, ev, true).0.orders[orderId].status != OrderCancelled <==> IsNext(s, ev.eventType))
  {
    hide WellFormed, ByOrder, Find, Rank, EscrowAfter;
    var u := Cancel(t, orderId, userId).0;
    SaneIndex(t, u);
    FindStable(t, u, ev);
  }

  predicate IsNext(s: EscrowStatus, e: EventType) {
    (s.Pending? && e.EscrowCreated?) || (s.Initialized? && e.EscrowFunded?)
  }

  lemma SaneIndex(t: Tables, u: Tables)
    requires Sane(t) && u.escrows == t.escrows && t.orders.Keys <= u.orders.Keys
    ensures WellFormed(t) && WellFormed(u) && SameIndex(t, u)
  {
  }
}
