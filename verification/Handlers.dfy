/**
 What each service call does to the tables, as one serialised step: syncing a client transaction, opening
 and initializing an escrow, creating and cancelling an order, and the sweep over overdue orders.
 Replies of the chain and of the storage are inputs.
 */
module Handlers {
  import opened Wrappers
  import opened EventTypes
  import opened EscrowTables

  // ---- syncing a signed transaction -----------------------------------------------------------------

  datatype SyncAction = Initialize | Fund | SendFiat | Release

  datatype ChainReply = ChainReply(ok: bool, contractId: Option<string>)

  datatype SyncOutcome = EscrowNotFound | InvalidStatus | SyncFailed | KeyConflict | Synced

  predicate SyncAllowed(s: EscrowStatus, a: SyncAction) {
    match a
    case Initialize => s.Pending?
    case Fund => s.Initialized?
    case SendFiat => s.Funded?
    case Release => s in {Funded, FiatSent}
  }

  function StatusAfterSync(a: SyncAction): EscrowStatus {
    match a
    case Initialize => Initialized
    case Fund => Funded
    case SendFiat => FiatSent
    case Release => Released
  }

  function First64(xdr: string): string {
    if |xdr| <= 64 then xdr else xdr[..64]
  }

  /** A contract id that counts as one: the empty text is falsy. */
  predicate Named(contractId: Option<string>) {
    contractId.Some? && contractId.value != ""
  }

  function EscrowSynced(e: Escrow, a: SyncAction, reply: ChainReply, xdr: string): Escrow {
    var moved := e.(status := StatusAfterSync(a));
    match a
    case Initialize =>
      moved.(contractId := if Named(reply.contractId) then reply.contractId else e.contractId, txHashLock := Some(First64(xdr)))
    case Release => moved.(txHashRelease := Some(First64(xdr)))
    case _ => moved
  }

  /** Another escrow already holds the contract id that the update would write. */
  ghost predicate Conflicts(t: Tables, x: string, contractId: Option<string>) {
    contractId.Some? && exists y :: y in t.escrows && y != x && t.escrows[y].contractId == contractId
  }

  function SyncAudit(x: string, a: SyncAction, auditOk: bool): seq<AuditRow> {
    if auditOk && a.Fund? then [AuditRow(EscrowFunded, x, ByService)]
    else if auditOk && a.Release? then [AuditRow(EscrowReleased, x, ByService)]
    else []
  }

  ghost function Sync(t: Tables, x: string, a: SyncAction, reply: ChainReply, xdr: string, auditOk: bool)
    : (Tables, SyncOutcome)
  {
    if x !in t.escrows then (t, EscrowNotFound)
    else if !SyncAllowed(t.escrows[x].status, a) then (t, InvalidStatus)
    else if !reply.ok then (t, SyncFailed)
    else
      var e := EscrowSynced(t.escrows[x], a, reply, xdr);
      if Conflicts(t, x, e.contractId) then (t, KeyConflict)
      else (Tables(t.escrows[x := e], t.orders, t.audit + SyncAudit(x, a, auditOk)), Synced)
  }

  function EventOf(a: SyncAction): Option<EventType> {
    match a
    case Initialize => Some(EscrowCreated)
    case Fund => Some(EscrowFunded)
    case SendFiat => None
    case Release => Some(EscrowReleased)
  }

  /** A client's transaction moves an escrow from and to where the chain's event for it does. */
  lemma ClientMatchesChain(s: EscrowStatus, a: SyncAction)
    ensures EventOf(a).Some? ==>
      (SyncAllowed(s, a) <==> CanApply(s, EventOf(a).value)) && StatusAfterSync(a) == EscrowStatusAfter(EventOf(a).value)
    ensures SyncAllowed(s, a) ==> Rank(StatusAfterSync(a)) > Rank(s)
    ensures EventOf(a).None? ==> (SyncAllowed(s, a) <==> Rank(StatusAfterSync(a)) == Rank(s) + 1)
  {
  }

  // ---- opening and initializing ---------------------------------------------------------------------------

  datatype OpenOutcome = AlreadyExists | DeployFailed | OrderMissing | Opened

  function CreatedAudit(x: string, auditOk: bool): seq<AuditRow> {
    if auditOk then [AuditRow(EscrowCreated, x, ByService)] else []
  }

  predicate HasContract(t: Tables, x: Option<string>) {
    x.Some? && x.value in t.escrows && Named(t.escrows[x.value].contractId)
  }

  /** `freshId` is the id a new row gets; `deployed` is the contract the deployment returned, if any. */
  ghost function Open(t: Tables, orderId: string, freshId: string, deployed: Option<string>, auditOk: bool)
    : (Tables, OpenOutcome)
  {
    var existing := ByOrder(t.escrows, orderId);
    if HasContract(t, existing) then (t, AlreadyExists)
    else if deployed.None? then (t, DeployFailed)
    else if existing.Some? then
      (t.(escrows := t.escrows[existing.value :=
          t.escrows[existing.value].(contractId := deployed, status := Initialized)]), Opened)
    else if orderId !in t.orders then (t, OrderMissing)
    else
      (t.(escrows := t.escrows[freshId := Escrow(orderId, deployed, Initialized, None, None)],
          audit := t.audit + CreatedAudit(freshId, auditOk)), Opened)
  }

  /** Initializing an existing escrow only rewrites addresses and amount, which are not modelled. */
  ghost function StartEscrow(t: Tables, orderId: string, freshId: string, chainOk: bool, auditOk: bool)
    : (Tables, OpenOutcome)
  {
    var existing := ByOrder(t.escrows, orderId);
    if HasContract(t, existing) then (t, AlreadyExists)
    else if !chainOk then (t, DeployFailed)
    else if existing.Some? then (t, Opened)
    else if orderId !in t.orders then (t, OrderMissing)
    else
      (t.(escrows := t.escrows[freshId := Escrow(orderId, None, Pending, None, None)],
          audit := t.audit + CreatedAudit(freshId, auditOk)), Opened)
  }

  // ---- orders ---------------------------------------------------------------------------------------------

  function Create(t: Tables, orderId: string, order: Order, x: string, contractId: string): Tables {
    Tables(t.escrows[x := Escrow(orderId, Some(contractId), Initialized, None, None)], t.orders[orderId := order], t.audit)
  }

  datatype CancelOutcome = OrderNotFound | NotAParty | AlreadyClosed | EscrowMoved | OrderIsCancelled

  predicate ClosedOrder(s: OrderStatus) {
    s in {OrderReleased, OrderCancelled, OrderExpired, OrderDisputed}
  }

  predicate BlocksCancel(s: EscrowStatus) {
    s in {Funded, FiatSent, Released, Disputed, Resolved}
  }

  ghost function Cancel(t: Tables, orderId: string, userId: string): (Tables, CancelOutcome) {
    if orderId !in t.orders then (t, OrderNotFound)
    else
      var o := t.orders[orderId];
      var x := ByOrder(t.escrows, orderId);
      if o.buyerId != userId && o.sellerId != userId then (t, NotAParty)
      else if ClosedOrder(o.status) then (t, AlreadyClosed)
      else if x.Some? && BlocksCancel(t.escrows[x.value].status) then (t, EscrowMoved)
      else (t.(orders := t.orders[orderId := o.(status := OrderCancelled)]), OrderIsCancelled)
  }

  predicate Protected(s: EscrowStatus) {
    s in {FiatSent, Released, Disputed, Resolved}
  }

  predicate Overdue(o: Order, now: int) {
    o.expiresAt.Some? && o.expiresAt.value < now && o.status in {OrderCreated, OrderLocked}
  }

  /** The two guards follow the ranks: no cancellation from `funded` on, no expiry from `fiat_sent` on. */
  lemma GuardsByRank(s: EscrowStatus)
    ensures BlocksCancel(s) <==> Rank(s) >= Rank(Funded)
    ensures Protected(s) <==> Rank(s) >= Rank(FiatSent)
    ensures BlocksCancel(s) && !Protected(s) <==> s.Funded?
  {
  }

  /** Overdue, still active, and not protected by its escrow. */
  ghost predicate Closes(t: Tables, orderId: string, now: int) {
    && orderId in t.orders && Overdue(t.orders[orderId], now)
    && (ByOrder(t.escrows, orderId).Some? ==> !Protected(t.escrows[ByOrder(t.escrows, orderId).value].status))
  }

  function Closed(o: Order): Order {
    o.(status := if o.status.OrderLocked? then OrderCancelled else OrderExpired)
  }

  /** The sweep; `failing` are the orders whose own write fails. */
  ghost function Sweep(t: Tables, now: int, failing: set<string>): Tables {
    t.(orders := map o | o in t.orders ::
         if Closes(t, o, now) && o !in failing then Closed(t.orders[o]) else t.orders[o])
  }

  /** A second sweep at the same time finishes what failing writes left, and then nothing is left to do. */
  lemma SweepAgain(t: Tables, now: int, failing: set<string>)
    ensures Sweep(Sweep(t, now, failing), now, {}) == Sweep(t, now, {})
    ensures Sweep(Sweep(t, now, {}), now, failing) == Sweep(t, now, {})
    ensures forall o :: o in t.orders ==>
      (Sweep(t, now, failing).orders[o] != t.orders[o] <==> Closes(t, o, now) && o !in failing)
  {
    SameClosers(t, now, failing);
    SameClosers(t, now, {});
    assert Sweep(Sweep(t, now, failing), now, {}).orders == Sweep(t, now, {}).orders;
    assert Sweep(Sweep(t, now, {}), now, failing).orders == Sweep(t, now, {}).orders;
  }

  /** After a sweep, exactly the orders that should have closed and could not still should. */
  lemma SameClosers(t: Tables, now: int, failing: set<string>)
    ensures forall o :: Closes(Sweep(t, now, failing), o, now) <==> Closes(t, o, now) && o in failing
  {
  }

  // ---- any of them ------------------------------------------------------------------------------------------

  datatype Handler =
    | DoSync(x: string, action: SyncAction, reply: ChainReply, xdr: string, auditOk: bool)
    | DoOpen(orderId: string, freshId: string, deployed: Option<string>, auditOk: bool)
    | DoInitialize(orderId: string, freshId: string, chainOk: bool, auditOk: bool)
    | DoCreate(orderId: string, order: Order, x: string, contractId: string)
    | DoCancel(orderId: string, userId: string)
    | DoSweep(now: int, failing: set<string>)

  ghost function Handle(t: Tables, h: Handler): Tables {
    match h
    case DoSync(x, action, reply, xdr, auditOk) => Sync(t, x, action, reply, xdr, auditOk).0
    case DoOpen(orderId, freshId, deployed, auditOk) => Open(t, orderId, freshId, deployed, auditOk).0
    case DoInitialize(orderId, freshId, chainOk, auditOk) => StartEscrow(t, orderId, freshId, chainOk, auditOk).0
    case DoCreate(orderId, order, x, contractId) => Create(t, orderId, order, x, contractId)
    case DoCancel(orderId, userId) => Cancel(t, orderId, userId).0
    case DoSweep(now, failing) => Sweep(t, now, failing)
  }

  ghost predicate ContractFree(t: Tables, c: string) {
    forall x :: x in t.escrows ==> t.escrows[x].contractId != Some(c)
  }

  /** Generated ids and newly deployed contracts are new, and no contract is the empty text. */
  ghost predicate FreshIds(t: Tables, h: Handler) {
    match h
    case DoOpen(_, freshId, deployed, _) =>
      freshId !in t.escrows && (deployed.Some? ==> deployed.value != "" && ContractFree(t, deployed.value))
    case DoInitialize(_, freshId, _, _) => freshId !in t.escrows
    case DoCreate(orderId, _, x, contractId) =>
      orderId !in t.orders && x !in t.escrows && contractId != "" && ContractFree(t, contractId)
    case _ => true
  }

  /** An escrow with a contract has left `pending`, and its contract has a name. */
  predicate Placed(e: Escrow) {
    e.contractId.Some? ==> !e.status.Pending? && e.contractId.value != ""
  }

  ghost predicate Sane(t: Tables) {
    WellFormed(t) && forall x :: x in t.escrows ==> Placed(t.escrows[x])
  }

  /** What a step leaves of an escrow: its order, and its contract once it has one. */
  ghost predicate Carries(t: Tables, u: Tables, x: string) {
    && x in t.escrows && x in u.escrows
    && u.escrows[x].orderId == t.escrows[x].orderId
    && (t.escrows[x].contractId.Some? ==>
          && u.escrows[x].contractId == t.escrows[x].contractId
          && (u.escrows[x].status == t.escrows[x].status || Rank(u.escrows[x].status) > Rank(t.escrows[x].status)))
  }

  ghost predicate KeepsAll(t: Tables, u: Tables) {
    Sane(u) && forall x :: x in t.escrows ==> Carries(t, u, x)
  }

  /** The guard a caller can check: no row yet, a contract already there, or nothing funded yet. */
  ghost predicate OpenSafe(t: Tables, orderId: string) {
    var x := ByOrder(t.escrows, orderId);
    x.None? || HasContract(t, x) || Rank(t.escrows[x.value].status) <= Rank(Initialized)
  }

  /** Under the guard no escrow at all loses rank. */
  ghost predicate GuardedOpen(t: Tables, h: Handler) {
    h.DoOpen? ==> OpenSafe(t, h.orderId)
  }

  ghost predicate RanksKept(t: Tables, u: Tables) {
    forall x :: x in t.escrows ==> x in u.escrows && Rank(u.escrows[x].status) >= Rank(t.escrows[x].status)
  }

  lemma KeepsSane(t: Tables, u: Tables)
    requires KeepsAll(t, u)
    ensures Sane(u)
  {
  }

  /** Writing one row under a new id, or over the row it continues. */
  ghost predicate GoodRow(t: Tables, x: string, e: Escrow) {
    && e.orderId in t.orders
    && Placed(e)
    && (forall y :: y in t.escrows && y != x ==> t.escrows[y].orderId != e.orderId && !SameContract(t.escrows[y], e))
    && (x in t.escrows ==>
          && e.orderId == t.escrows[x].orderId
          && (t.escrows[x].contractId.Some? ==>
                e.contractId == t.escrows[x].contractId && Rank(e.status) > Rank(t.escrows[x].status)))
  }

  lemma PutKeeps(t: Tables, u: Tables, x: string, e: Escrow)
    requires Sane(t) && GoodRow(t, x, e)
    requires u.escrows == t.escrows[x := e] && t.orders.Keys <= u.orders.Keys
    ensures KeepsAll(t, u)
    ensures (x in t.escrows ==> Rank(e.status) >= Rank(t.escrows[x].status)) ==> RanksKept(t, u)
  {
    hide Rank;
    PutWellFormed(t, u, x, e);
    forall y | y in t.escrows ensures Carries(t, u, y) {
    }
  }

  lemma PutWellFormed(t: Tables, u: Tables, x: string, e: Escrow)
    requires WellFormed(t) && GoodRow(t, x, e)
    requires u.escrows == t.escrows[x := e] && t.orders.Keys <= u.orders.Keys
    ensures WellFormed(u)
  {
    hide Rank;
  }

  lemma NoChangeKeeps(t: Tables)
    requires Sane(t)
    ensures KeepsAll(t, t) && RanksKept(t, t)
  {
  }

  lemma SyncedRow(t: Tables, x: string, a: SyncAction, reply: ChainReply, xdr: string)
    requires Sane(t) && x in t.escrows && SyncAllowed(t.escrows[x].status, a)
    requires !Conflicts(t, x, EscrowSynced(t.escrows[x], a, reply, xdr).contractId)
    ensures GoodRow(t, x, EscrowSynced(t.escrows[x], a, reply, xdr))
    ensures Rank(EscrowSynced(t.escrows[x], a, reply, xdr).status) > Rank(t.escrows[x].status)
  {
  }

  lemma SyncKeeps(t: Tables, x: string, a: SyncAction, reply: ChainReply, xdr: string, auditOk: bool)
    requires Sane(t)
    ensures KeepsAll(t, Sync(t, x, a, reply, xdr, auditOk).0) && RanksKept(t, Sync(t, x, a, reply, xdr, auditOk).0)
  {
    hide Sane, KeepsAll, RanksKept, GoodRow, Conflicts, EscrowSynced, SyncAllowed, Rank;
    NoChangeKeeps(t);
    var (u, o) := Sync(t, x, a, reply, xdr, auditOk);
    if o.Synced? {
      SyncedRow(t, x, a, reply, xdr);
      PutKeeps(t, u, x, EscrowSynced(t.escrows[x], a, reply, xdr));
    }
  }

  lemma OpenedRow(t: Tables, orderId: string, freshId: string, deployed: string)
    requires Sane(t) && FreshIds(t, DoOpen(orderId, freshId, Some(deployed), true))
    ensures var x := ByOrder(t.escrows, orderId);
      && (x.Some? && !HasContract(t, x) ==>
            GoodRow(t, x.value, t.escrows[x.value].(contractId := Some(deployed), status := Initialized)))
      && (x.None? && orderId in t.orders ==> GoodRow(t, freshId, Escrow(orderId, Some(deployed), Initialized, None, None)))
  {
  }

  lemma OpenKeeps(t: Tables, orderId: string, freshId: string, deployed: Option<string>, auditOk: bool)
    requires Sane(t) && FreshIds(t, DoOpen(orderId, freshId, deployed, auditOk))
    ensures KeepsAll(t, Open(t, orderId, freshId, deployed, auditOk).0)
    ensures OpenSafe(t, orderId) ==> RanksKept(t, Open(t, orderId, freshId, deployed, auditOk).0)
  {
    hide Sane, KeepsAll, RanksKept, GoodRow;
    NoChangeKeeps(t);
    var (u, o) := Open(t, orderId, freshId, deployed, auditOk);
    if o.Opened? {
      OpenedRow(t, orderId, freshId, deployed.value);
      var x := ByOrder(t.escrows, orderId);
      if x.Some? {
        PutKeeps(t, u, x.value, t.escrows[x.value].(contractId := deployed, status := Initialized));
      } else {
        PutKeeps(t, u, freshId, Escrow(orderId, deployed, Initialized, None, None));
      }
    }
  }

  lemma InitializeKeeps(t: Tables, orderId: string, freshId: string, chainOk: bool, auditOk: bool)
    requires Sane(t) && freshId !in t.escrows
    ensures var u := StartEscrow(t, orderId, freshId, chainOk, auditOk).0; KeepsAll(t, u) && RanksKept(t, u)
  {
    hide Sane, KeepsAll, RanksKept;
    NoChangeKeeps(t);
    var (u, o) := StartEscrow(t, orderId, freshId, chainOk, auditOk);
    if o.Opened? && ByOrder(t.escrows, orderId).None? {
      PutKeeps(t, u, freshId, Escrow(orderId, None, Pending, None, None));
    }
  }

  lemma CreateKeeps(t: Tables, orderId: string, order: Order, x: string, contractId: string)
    requires Sane(t) && FreshIds(t, DoCreate(orderId, order, x, contractId))
    ensures KeepsAll(t, Create(t, orderId, order, x, contractId)) && RanksKept(t, Create(t, orderId, order, x, contractId))
  {
    var mid := t.(orders := t.orders[orderId := order]);
    var e := Escrow(orderId, Some(contractId), Initialized, None, None);
    assert Sane(mid);
    PutKeeps(mid, Create(t, orderId, order, x, contractId), x, e);
  }

  lemma OrdersOnlyKeeps(t: Tables, u: Tables)
    requires Sane(t) && u.escrows == t.escrows && t.orders.Keys <= u.orders.Keys
    ensures KeepsAll(t, u) && RanksKept(t, u)
  {
  }

  /**
   Every call keeps the tables sane, and an escrow with a contract keeps its contract and its order while
   its status stays or rises in rank.
   */
  lemma HandleKeeps(t: Tables, h: Handler)
    requires Sane(t) && FreshIds(t, h)
    ensures KeepsAll(t, Handle(t, h))
    ensures GuardedOpen(t, h) ==> RanksKept(t, Handle(t, h))
  {
    hide KeepsAll, RanksKept, Sync, Open, StartEscrow, Create, FreshIds;
    match h
    case DoSync(x, action, reply, xdr, auditOk) => SyncKeeps(t, x, action, reply, xdr, auditOk);
    case DoOpen(orderId, freshId, deployed, auditOk) => OpenKeeps(t, orderId, freshId, deployed, auditOk);
    case DoInitialize(orderId, freshId, chainOk, auditOk) =>
      FreshInitialize(t, h);
      InitializeKeeps(t, orderId, freshId, chainOk, auditOk);
    case DoCreate(orderId, order, x, contractId) => CreateKeeps(t, orderId, order, x, contractId);
    case DoCancel(orderId, userId) => OrdersOnlyKeeps(t, Cancel(t, orderId, userId).0);
    case DoSweep(now, failing) => OrdersOnlyKeeps(t, Sweep(t, now, failing));
  }

  lemma FreshInitialize(t: Tables, h: Handler)
    requires FreshIds(t, h) && h.DoInitialize?
    ensures h.freshId !in t.escrows
  {
  }

  // ---- opening is the exception -----------------------------------------------------------------------------

  /** A successful open sets an existing escrow back exactly when the guard is off. */
  lemma OpenLowersExactly(t: Tables, orderId: string, freshId: string, deployed: Option<string>, auditOk: bool)
    requires WellFormed(t) && freshId !in t.escrows && deployed.Some?
    ensures var u := Open(t, orderId, freshId, deployed, auditOk).0;
      (exists x :: x in t.escrows && x in u.escrows && Rank(u.escrows[x].status) < Rank(t.escrows[x].status))
        <==> !OpenSafe(t, orderId)
  {
    var u := Open(t, orderId, freshId, deployed, auditOk).0;
    var e := ByOrder(t.escrows, orderId);
    if !OpenSafe(t, orderId) {
      assert e.value in t.escrows && e.value in u.escrows && Rank(u.escrows[e.value].status) < Rank(t.escrows[e.value].status);
    }
  }
}
