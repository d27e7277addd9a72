/**
 The three tables that the escrow flow writes, the transition table between escrow statuses, and the rank
 that every accepted transition raises.
 */
module EscrowTables {
  import opened Wrappers
  import opened EventTypes

  datatype EscrowStatus = Pending | Initialized | Funded | FiatSent | Released | Disputed | Resolved

  datatype OrderStatus = OrderCreated | OrderLocked | OrderReleased | OrderCancelled | OrderExpired | OrderDisputed

  datatype Escrow = Escrow(orderId: string, contractId: Option<string>, status: EscrowStatus,
                           txHashLock: Option<string>, txHashRelease: Option<string>)

  datatype Order = Order(buyerId: string, sellerId: string, status: OrderStatus, expiresAt: Option<int>)

  /** Rows written by the listener carry the ledger of their event; the services write none. */
  datatype Origin =
    | ByService
    | ByListener(contractId: string, orderId: string, txHash: string, ledger: nat, eventIndex: nat)

  datatype AuditRow = AuditRow(action: EventType, escrowId: string, origin: Origin)

  type Escrows = map<string, Escrow>

  /** Audit rows are in the order of their creation. */
  datatype Tables = Tables(escrows: Escrows, orders: map<string, Order>, audit: seq<AuditRow>)

  /** A parsed contract event; absent texts are empty, as both are falsy. */
  datatype ChainEvent = ChainEvent(eventId: string, eventType: EventType, contractId: string, txHash: string,
                                   ledger: nat, eventIndex: nat, engagementId: string, orderId: string)

  // ---- keys of the tables -----------------------------------------------------------------------------

  /** Contract and order ids are unique among escrows, and an escrow's order exists. */
  ghost predicate WellFormed(t: Tables) {
    && (forall x :: x in t.escrows ==> t.escrows[x].orderId in t.orders)
    && (forall x, y :: x in t.escrows && y in t.escrows && t.escrows[x].orderId == t.escrows[y].orderId ==> x == y)
    && (forall x, y :: x in t.escrows && y in t.escrows && SameContract(t.escrows[x], t.escrows[y]) ==> x == y)
  }

  predicate SameContract(a: Escrow, b: Escrow) {
    a.contractId.Some? && a.contractId == b.contractId
  }

  ghost function ByContract(es: Escrows, contractId: string): (r: Option<string>)
    ensures r.Some? ==> r.value in es && es[r.value].contractId == Some(contractId)
    ensures r.None? ==> forall x :: x in es ==> es[x].contractId != Some(contractId)
  {
    if exists x :: x in es && es[x].contractId == Some(contractId)
    then var x :| x in es && es[x].contractId == Some(contractId); Some(x)
    else None
  }

  ghost function ByOrder(es: Escrows, orderId: string): (r: Option<string>)
    ensures r.Some? ==> r.value in es && es[r.value].orderId == orderId
    ensures r.None? ==> forall x :: x in es ==> es[x].orderId != orderId
  {
    if exists x :: x in es && es[x].orderId == orderId
    then var x :| x in es && es[x].orderId == orderId; Some(x)
    else None
  }

  function OrderKey(ev: ChainEvent): string {
    if ev.engagementId != "" then ev.engagementId else ev.orderId
  }

  /** The escrow an event is about: by contract, else by the order it names. */
  ghost function Find(t: Tables, ev: ChainEvent): (r: Option<string>)
    ensures r.Some? ==> r.value in t.escrows
  {
    if ev.contractId != "" && ByContract(t.escrows, ev.contractId).Some? then ByContract(t.escrows, ev.contractId)
    else if OrderKey(ev) != "" then ByOrder(t.escrows, OrderKey(ev))
    else None
  }

  /** The same escrows with the same keys: statuses, orders and audit may differ. */
  ghost predicate SameIndex(t: Tables, u: Tables) {
    && t.escrows.Keys == u.escrows.Keys
    && forall x :: x in t.escrows ==>
         SameKeys(t.escrows[x], u.escrows[x])
  }

  lemma FindStable(t: Tables, u: Tables, ev: ChainEvent)
    requires WellFormed(t) && WellFormed(u) && SameIndex(t, u)
    ensures ByContract(t.escrows, ev.contractId) == ByContract(u.escrows, ev.contractId)
    ensures Find(t, ev) == Find(u, ev)
  {
  }

  // ---- the transition table ------------------------------------------------------------------------------

  predicate CanApply(s: EscrowStatus, e: EventType) {
    match e
    case EscrowCreated => s.Pending?
    case EscrowFunded => s.Initialized?
    case EscrowReleased => s in {Funded, FiatSent}
    case EscrowRefunded => s in {Funded, FiatSent, Disputed}
    case EscrowCancelled => s in {Pending, Initialized}
    case EscrowDisputed => s in {Funded, FiatSent}
  }

  predicate AlreadyDone(s: EscrowStatus, e: EventType) {
    match e
    case EscrowCreated => !s.Pending?
    case EscrowFunded => s in {Funded, FiatSent, Released, Resolved}
    case EscrowReleased => s in {Released, Resolved}
    case EscrowRefunded => s.Resolved?
    case EscrowCancelled => s in {Resolved, Released}
    case EscrowDisputed => s.Disputed?
  }

  function EscrowStatusAfter(e: EventType): EscrowStatus {
    match e
    case EscrowCreated => Initialized
    case EscrowFunded => Funded
    case EscrowReleased => Released
    case EscrowRefunded => Resolved
    case EscrowCancelled => Resolved
    case EscrowDisputed => Disputed
  }

  function OrderStatusAfter(e: EventType): OrderStatus {
    match e
    case EscrowCreated => OrderCreated
    case EscrowFunded => OrderLocked
    case EscrowReleased => OrderReleased
    case EscrowRefunded => OrderCancelled
    case EscrowCancelled => OrderCancelled
    case EscrowDisputed => OrderDisputed
  }

  const TOP_RANK: nat := 5

  function Rank(s: EscrowStatus): (r: nat)
    ensures r <= TOP_RANK
  {
    match s
    case Pending => 0
    case Initialized => 1
    case Funded => 2
    case FiatSent => 3
    case Disputed => 4
    case Released => 5
    case Resolved => 5
  }

  /** The highest rank from which an event can still be applied. */
  function LastRank(e: EventType): nat {
    match e
    case EscrowCreated => 0
    case EscrowFunded => 1
    case EscrowReleased => 3
    case EscrowRefunded => 4
    case EscrowCancelled => 1
    case EscrowDisputed => 3
  }

  /** The lowest rank from which an event can be applied. */
  function FirstRank(e: EventType): nat {
    match e
    case EscrowCreated => 0
    case EscrowFunded => 1
    case EscrowReleased => 2
    case EscrowRefunded => 2
    case EscrowCancelled => 0
    case EscrowDisputed => 2
  }

  /** Each event applies over one interval of ranks, and refusal below it is never silent. */
  lemma AppliesInInterval(s: EscrowStatus, e: EventType)
    ensures CanApply(s, e) <==> FirstRank(e) <= Rank(s) <= LastRank(e)
    ensures Rank(s) < FirstRank(e) ==> !AlreadyDone(s, e)
    ensures s == EscrowStatusAfter(e) ==> AlreadyDone(s, e)
  {
  }

  /** The late events that are refused instead, and so come again with every page that still holds them. */
  predicate RefusedLate(s: EscrowStatus, e: EventType) {
    match s
    case Funded => e.EscrowCancelled?
    case FiatSent => e.EscrowCancelled?
    case Disputed => e in {EscrowFunded, EscrowReleased, EscrowCancelled}
    case Released => e in {EscrowRefunded, EscrowDisputed}
    case Resolved => e.EscrowDisputed?
    case _ => false
  }

  /** A late event is passed over as already processed, but for the listed ones. */
  lemma LatePassedOver(s: EscrowStatus, e: EventType)
    ensures AlreadyDone(s, e) <==> Rank(s) > LastRank(e) && !RefusedLate(s, e)
  {
  }

  /** The escrow is past the event: it cannot be applied now or at any higher rank. */
  predicate Spent(s: EscrowStatus, e: EventType) {
    Rank(s) > LastRank(e)
  }

  /** An event that takes effect, or that is judged already processed, is spent from then on. */
  lemma AppliedIsSpent(s: EscrowStatus, e: EventType)
    ensures CanApply(s, e) ==> Rank(EscrowStatusAfter(e)) > Rank(s) && Spent(EscrowStatusAfter(e), e) && !Spent(s, e)
    ensures AlreadyDone(s, e) ==> Spent(s, e)
    ensures !(CanApply(s, e) && AlreadyDone(s, e))
  {
  }

  // ---- one event on the tables -----------------------------------------------------------------------------

  datatype Outcome = Duplicate | UnknownEscrow | AlreadyProcessed | InvalidTransition | StorageFailed | Applied

  /** The outcomes that the program reports by throwing. */
  predicate Threw(o: Outcome) {
    o.InvalidTransition? || o.StorageFailed?
  }

  function EscrowAfter(escrow: Escrow, ev: ChainEvent): Escrow {
    var moved := escrow.(status := EscrowStatusAfter(ev.eventType));
    if ev.eventType.EscrowFunded? && ev.txHash != "" then moved.(txHashLock := Some(ev.txHash))
    else if (ev.eventType.EscrowReleased? || ev.eventType.EscrowRefunded?) && ev.txHash != ""
    then moved.(txHashRelease := Some(ev.txHash))
    else moved
  }

  function AuditOf(x: string, orderId: string, ev: ChainEvent): AuditRow {
    AuditRow(ev.eventType, x, ByListener(ev.contractId, orderId, ev.txHash, ev.ledger, ev.eventIndex))
  }

  /** The transaction: escrow, order and audit row together. */
  function ApplyEvent(t: Tables, x: string, ev: ChainEvent): Tables
    requires x in t.escrows && t.escrows[x].orderId in t.orders
  {
    var orderId := t.escrows[x].orderId;
    Tables(t.escrows[x := EscrowAfter(t.escrows[x], ev)],
           t.orders[orderId := t.orders[orderId].(status := OrderStatusAfter(ev.eventType))],
           t.audit + [AuditOf(x, orderId, ev)])
  }

  /** An event without the duplicate check. */
  ghost function Deliver(t: Tables, ev: ChainEvent, storageOk: bool): (Tables, Outcome)
    requires WellFormed(t)
  {
    var x := Find(t, ev);
    if x.None? then (t, UnknownEscrow)
    else
      var s := t.escrows[x.value].status;
      if AlreadyDone(s, ev.eventType) then (t, AlreadyProcessed)
      else if !CanApply(s, ev.eventType) then (t, InvalidTransition)
      else if !storageOk then (t, StorageFailed)
      else (ApplyEvent(t, x.value, ev), Applied)
  }

  lemma ApplyKeeps(t: Tables, x: string, ev: ChainEvent)
    requires WellFormed(t) && x in t.escrows && t.escrows[x].orderId in t.orders
    requires CanApply(t.escrows[x].status, ev.eventType)
    ensures var u := ApplyEvent(t, x, ev);
      && WellFormed(u) && SameIndex(t, u)
      && (forall y :: y in t.escrows ==> Rank(t.escrows[y].status) <= Rank(u.escrows[y].status))
      && u.escrows[x].status == EscrowStatusAfter(ev.eventType)
  {
    hide WellFormed;
    AppliedIsSpent(t.escrows[x].status, ev.eventType);
    var u := ApplyEvent(t, x, ev);
    assert SameIndex(t, u);
    SameIndexWellFormed(t, u);
  }

  lemma OrderExists(t: Tables, x: string)
    requires WellFormed(t) && x in t.escrows
    ensures t.escrows[x].orderId in t.orders
  {
  }

  lemma SameIndexWellFormed(t: Tables, u: Tables)
    requires WellFormed(t) && SameIndex(t, u) && t.orders.Keys <= u.orders.Keys
    ensures WellFormed(u)
  {
  }

  predicate SameKeys(a: Escrow, b: Escrow) {
    a.orderId == b.orderId && a.contractId == b.contractId
  }

  lemma DeliverKeeps(t: Tables, ev: ChainEvent, storageOk: bool)
    requires WellFormed(t)
    ensures var (u, o) := Deliver(t, ev, storageOk);
      && WellFormed(u) && SameIndex(t, u)
      && (forall x :: x in t.escrows ==> Rank(t.escrows[x].status) <= Rank(u.escrows[x].status))
      && (!o.Applied? ==> u == t)
      && Find(u, ev) == Find(t, ev)
      && (o.Applied? || o.AlreadyProcessed? ==>
            Find(t, ev).Some? && Spent(u.escrows[Find(t, ev).value].status, ev.eventType))
  {
    hide ApplyEvent, WellFormed, Find, CanApply, AlreadyDone, EscrowStatusAfter, Spent, Rank;
    var (u, o) := Deliver(t, ev, storageOk);
    var x := Find(t, ev);
    if x.Some? {
      AppliedIsSpent(t.escrows[x.value].status, ev.eventType);
      if o.Applied? {
        OrderExists(t, x.value);
        ApplyKeeps(t, x.value, ev);
      }
    }
    FindStable(t, u, ev);
  }

  /** The only hashes an event writes are its own: of a funding to the lock, of a payout to the release. */
  lemma HashesWritten(t: Tables, ev: ChainEvent, storageOk: bool, x: string)
    requires WellFormed(t) && x in t.escrows
    ensures var (u, o) := Deliver(t, ev, storageOk);
      var mine := o.Applied? && Find(t, ev) == Some(x) && ev.txHash != "";
      && x in u.escrows
      && u.escrows[x].txHashLock
           == (if mine && ev.eventType.EscrowFunded? then Some(ev.txHash) else t.escrows[x].txHashLock)
      && u.escrows[x].txHashRelease
           == (if mine && EscrowStatusAfter(ev.eventType) in {Released, Resolved} && !ev.eventType.EscrowCancelled?
               then Some(ev.txHash) else t.escrows[x].txHashRelease)
  {
    hide Find, CanApply, AlreadyDone;
  }

  /** Nothing happens to the tables when an event is spent on its escrow, or has none. */
  lemma SpentHasNoEffect(t: Tables, ev: ChainEvent, storageOk: bool)
    requires WellFormed(t)
    requires Find(t, ev).Some? ==> Spent(t.escrows[Find(t, ev).value].status, ev.eventType)
    ensures Deliver(t, ev, storageOk).0 == t
  {
    if Find(t, ev).Some? {
      AppliedIsSpent(t.escrows[Find(t, ev).value].status, ev.eventType);
    }
  }
}
