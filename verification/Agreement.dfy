/**
 Runs of chain events and fiat notices alone: the order follows its escrow, and the listener's audit rows
 tell the status of the escrow.
 */
module Agreement {
  import opened Wrappers
  import opened EventTypes
  import opened EscrowTables
  import opened Handlers
  import opened Lifecycle

  predicate InFlow(step: Step) {
    step.OnChain? || (step.handler.DoSync? && step.handler.action.SendFiat?)
  }

  predicate AllInFlow(steps: seq<Step>) {
    forall i :: 0 <= i < |steps| ==> InFlow(steps[i])
  }

  // ---- the order follows -----------------------------------------------------------------------------------

  function OrderFor(s: EscrowStatus): OrderStatus {
    match s
    case Pending => OrderCreated
    case Initialized => OrderCreated
    case Funded => OrderLocked
    case FiatSent => OrderLocked
    case Released => OrderReleased
    case Disputed => OrderDisputed
    case Resolved => OrderCancelled
  }

  predicate Agrees(t: Tables, x: string) {
    && x in t.escrows && t.escrows[x].orderId in t.orders
    && t.orders[t.escrows[x].orderId].status == OrderFor(t.escrows[x].status)
  }

  /** Of the syncs that succeed, those of the funding and of the release leave the order behind. */
  lemma SyncAgreesExactly(t: Tables, x: string, a: SyncAction, reply: ChainReply, xdr: string, auditOk: bool)
    requires Agrees(t, x) && Sync(t, x, a, reply, xdr, auditOk).1.Synced?
    ensures Agrees(Sync(t, x, a, reply, xdr, auditOk).0, x) <==> a.Initialize? || a.SendFiat?
  {
    hide Conflicts;
  }

  // ---- the audit rows ---------------------------------------------------------------------------------------

  /** The listener's rows about one escrow, oldest first. */
  function Trail(audit: seq<AuditRow>, x: string): seq<EventType> {
    if audit == [] then []
    else
      var row := audit[|audit| - 1];
      Trail(audit[..|audit| - 1], x) + if row.escrowId == x && row.origin.ByListener? then [row.action] else []
  }

  /** The status told by the first status, the listener's rows, and whether a fiat notice was taken. */
  function StatusTold(first: EscrowStatus, trail: seq<EventType>, fiat: nat): EscrowStatus {
    var last := if trail == [] then first else EscrowStatusAfter(trail[|trail| - 1]);
    if fiat > 0 && last.Funded? then FiatSent else last
  }

  predicate Ascends(trail: seq<EventType>) {
    forall i, j :: 0 <= i < j < |trail| ==> Rank(EscrowStatusAfter(trail[i])) < Rank(EscrowStatusAfter(trail[j]))
  }

  ghost predicate TakesFiat(t: Tables, step: Step, x: string) {
    && step.OnCall? && step.handler.DoSync? && step.handler.x == x && step.handler.action.SendFiat?
    && var h := step.handler; Sync(t, x, SendFiat, h.reply, h.xdr, h.auditOk).1.Synced?
  }

  ghost function FiatTaken(t: Tables, steps: seq<Step>, x: string): nat
    requires Sane(t) && Possible(t, steps)
    decreases |steps|
  {
    if steps == [] then 0
    else
      DoKeeps(t, steps[0]);
      (if TakesFiat(t, steps[0], x) then 1 else 0) + FiatTaken(Do(t, steps[0]), steps[1..], x)
  }

  ghost predicate Inv(t: Tables, x: string, first: EscrowStatus, fiat: nat) {
    && Agrees(t, x)
    && var trail := Trail(t.audit, x);
       var s := t.escrows[x].status;
       && first in {Pending, Initialized} && fiat <= 1
       && s == StatusTold(first, trail, fiat)
       && Ascends(trail)
       && (trail != [] ==> Rank(EscrowStatusAfter(trail[|trail| - 1])) <= Rank(s))
       && (fiat == 1 ==> Rank(s) >= Rank(FiatSent))
  }

  // ---- one step ---------------------------------------------------------------------------------------------

  lemma SameView(t: Tables, u: Tables, x: string, first: EscrowStatus, fiat: nat)
    requires Inv(t, x, first, fiat) && x in u.escrows && u.escrows[x] == t.escrows[x]
    requires SameOrder(t, u, t.escrows[x].orderId) && Trail(u.audit, x) == Trail(t.audit, x)
    ensures Inv(u, x, first, fiat)
  {
    hide Trail, StatusTold, Ascends, OrderFor, Rank;
  }

  lemma TrailOfOther(t: Tables, ev: ChainEvent, storageOk: bool, x: string)
    requires WellFormed(t) && Find(t, ev) != Some(x)
    ensures Trail(Deliver(t, ev, storageOk).0.audit, x) == Trail(t.audit, x)
  {
    hide Find, CanApply, AlreadyDone, EscrowAfter, WellFormed, Trail;
    var y := Find(t, ev);
    if y.Some? {
      OrderExists(t, y.value);
      TrailNext(t.audit, AuditOf(y.value, t.escrows[y.value].orderId, ev), x);
      assert Trail(t.audit, x) + [] == Trail(t.audit, x);
    }
  }

  lemma EventOnOther(t: Tables, ev: ChainEvent, storageOk: bool, x: string, first: EscrowStatus, fiat: nat)
    requires WellFormed(t) && Inv(t, x, first, fiat) && Find(t, ev) != Some(x)
    ensures Inv(Deliver(t, ev, storageOk).0, x, first, fiat)
  {
    hide Find, Inv, Deliver, WellFormed, Trail;
    InvExists(t, x, first, fiat);
    OtherEventsElsewhere(t, ev, storageOk, x);
    TrailOfOther(t, ev, storageOk, x);
    SameView(t, Deliver(t, ev, storageOk).0, x, first, fiat);
  }

  lemma InvExists(t: Tables, x: string, first: EscrowStatus, fiat: nat)
    requires Inv(t, x, first, fiat)
    ensures x in t.escrows
  {
  }

  lemma TrailNext(audit: seq<AuditRow>, row: AuditRow, x: string)
    ensures Trail(audit + [row], x)
         == Trail(audit, x) + if row.escrowId == x && row.origin.ByListener? then [row.action] else []
  {
    assert (audit + [row])[..|audit|] == audit;
  }

  lemma EventOnSelf(t: Tables, ev: ChainEvent, storageOk: bool, x: string, first: EscrowStatus, fiat: nat)
    requires WellFormed(t) && Inv(t, x, first, fiat) && Find(t, ev) == Some(x)
    ensures Inv(Deliver(t, ev, storageOk).0, x, first, fiat)
  {
    hide Find, WellFormed, Trail;
    OrderExists(t, x);
    var s := t.escrows[x].status;
    AppliedIsSpent(s, ev.eventType);
    if CanApply(s, ev.eventType) && storageOk {
      TrailNext(t.audit, AuditOf(x, t.escrows[x].orderId, ev), x);
      AscendsNext(Trail(t.audit, x), ev.eventType, s);
    }
  }

  lemma AscendsNext(trail: seq<EventType>, e: EventType, s: EscrowStatus)
    requires Ascends(trail) && CanApply(s, e)
    requires trail != [] ==> Rank(EscrowStatusAfter(trail[|trail| - 1])) <= Rank(s)
    ensures Ascends(trail + [e])
  {
    hide EscrowStatusAfter, CanApply;
    AppliedIsSpent(s, e);
  }

  lemma FiatNotice(t: Tables, step: Step, x: string, first: EscrowStatus, fiat: nat)
    requires Sane(t) && Inv(t, x, first, fiat) && InFlow(step) && step.OnCall?
    ensures Inv(Do(t, step), x, first, fiat + if TakesFiat(t, step, x) then 1 else 0)
  {
    hide Conflicts, WellFormed, Trail, Ascends;
    assert t.audit + [] == t.audit;
  }

  lemma FlowStep(t: Tables, step: Step, x: string, first: EscrowStatus, fiat: nat)
    requires Sane(t) && Allowed(t, step) && Inv(t, x, first, fiat) && InFlow(step)
    ensures Inv(Do(t, step), x, first, fiat + if TakesFiat(t, step, x) then 1 else 0)
  {
    hide WellFormed, Inv, Deliver, Find, TakesFiat;
    match step
    case OnChain(ev, storageOk) =>
      NoFiat(t, step, x);
      if Find(t, ev) == Some(x) {
        EventOnSelf(t, ev, storageOk, x, first, fiat);
      } else {
        EventOnOther(t, ev, storageOk, x, first, fiat);
      }
    case OnCall(_) => FiatNotice(t, step, x, first, fiat);
  }

  lemma NoFiat(t: Tables, step: Step, x: string)
    requires step.OnChain?
    ensures !TakesFiat(t, step, x)
  {
  }

  // ---- any run ----------------------------------------------------------------------------------------------

  lemma {:induction false} FlowRun(t: Tables, steps: seq<Step>, x: string, first: EscrowStatus, fiat: nat)
    requires Sane(t) && Possible(t, steps) && AllInFlow(steps) && Inv(t, x, first, fiat)
    ensures Inv(Run(t, steps), x, first, fiat + FiatTaken(t, steps, x))
    decreases |steps|
  {
    hide Sane, Do, Inv, Allowed, TakesFiat, InFlow;
    if steps != [] {
      DoKeeps(t, steps[0]);
      FlowStep(t, steps[0], x, first, fiat);
      FlowRun(Do(t, steps[0]), steps[1..], x, first, fiat + if TakesFiat(t, steps[0], x) then 1 else 0);
    }
  }

  /** A created order and an unfunded escrow, of which the listener has written nothing yet. */
  predicate Starts(t: Tables, x: string) {
    Agrees(t, x) && t.escrows[x].status in {Pending, Initialized} && Trail(t.audit, x) == []
  }

  /**
   After any such run the order's status is the one for its escrow's status; the escrow's status is told by
   the listener's rows and the fiat notices; there is at most one row for each event type, and at most one
   notice is taken.
   */
  lemma AuditTells(t: Tables, steps: seq<Step>, x: string)
    requires Sane(t) && Possible(t, steps) && AllInFlow(steps) && Starts(t, x)
    ensures var u := Run(t, steps);
      var trail := Trail(u.audit, x);
      && Agrees(u, x)
      && u.escrows[x].status == StatusTold(t.escrows[x].status, trail, FiatTaken(t, steps, x))
      && FiatTaken(t, steps, x) <= 1
      && forall i, j :: 0 <= i < j < |trail| ==> trail[i] != trail[j]
  {
    hide Sane, Run, Possible, Trail, Rank;
    FlowRun(t, steps, x, t.escrows[x].status, 0);
  }
}
