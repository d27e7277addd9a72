/**
 What each event and each service call writes, field by field, and exactly when it is refused: told by the
 tables before and after alone.
 */
module Effects {
  import opened Wrappers
  import opened EventTypes
  import opened EscrowTables
  import opened Handlers
  import opened Listener
  import opened Replay

  // ---- finding the escrow ---------------------------------------------------------------------------------

  predicate HasOrder(t: Tables, x: string, orderId: string) {
    x in t.escrows && t.escrows[x].orderId == orderId
  }

  predicate HasThisContract(t: Tables, x: string, contractId: string) {
    x in t.escrows && t.escrows[x].contractId == Some(contractId)
  }

  /** By its contract if an escrow has it; else by its engagement id, or by its order id without one. */
  lemma FindExactly(t: Tables, ev: ChainEvent, x: string)
    requires WellFormed(t)
    ensures Find(t, ev) == Some(x) <==>
      || (ev.contractId != "" && HasThisContract(t, x, ev.contractId))
      || (&& (ev.contractId == "" || ContractFree(t, ev.contractId))
          && HasOrder(t, x, if ev.engagementId == "" then ev.orderId else ev.engagementId)
          && !(ev.engagementId == "" && ev.orderId == ""))
  {
    if ByContract(t.escrows, ev.contractId).Some? && HasThisContract(t, x, ev.contractId) {
      assert SameContract(t.escrows[x], t.escrows[ByContract(t.escrows, ev.contractId).value]);
    }
  }

  // ---- one event ------------------------------------------------------------------------------------------

  /** An event is applied, passed over or refused by the rank of its escrow alone. */
  lemma OutcomeExactly(t: Tables, ev: ChainEvent, ok: bool)
    requires WellFormed(t)
    ensures var (x, o) := (Find(t, ev), Deliver(t, ev, ok).1);
      && (o.UnknownEscrow? <==> x.None?)
      && !o.Duplicate?
      && (x.Some? ==>
            var s := t.escrows[x.value].status;
            && (o.Applied? <==> FirstRank(ev.eventType) <= Rank(s) <= LastRank(ev.eventType) && ok)
            && (o.StorageFailed? <==> FirstRank(ev.eventType) <= Rank(s) <= LastRank(ev.eventType) && !ok)
            && (o.InvalidTransition? <==> Rank(s) < FirstRank(ev.eventType) || RefusedLate(s, ev.eventType)))
  {
    hide Find, WellFormed, ApplyEvent;
    if Find(t, ev).Some? {
      AppliesInInterval(t.escrows[Find(t, ev).value].status, ev.eventType);
      LatePassedOver(t.escrows[Find(t, ev).value].status, ev.eventType);
    }
  }

  /** The row the listener writes about an event. */
  ghost predicate Tells(t: Tables, row: AuditRow, ev: ChainEvent) {
    && Find(t, ev) == Some(row.escrowId) && row.escrowId in t.escrows
    && row.action == ev.eventType
    && row.origin.ByListener?
    && row.origin.orderId == t.escrows[row.escrowId].orderId
    && row.origin.contractId == ev.contractId
    && row.origin.txHash == ev.txHash
    && row.origin.ledger == ev.ledger
    && row.origin.eventIndex == ev.eventIndex
  }

  predicate OneRowMore(before: seq<AuditRow>, after: seq<AuditRow>) {
    |after| == |before| + 1 && after[..|before|] == before
  }

  /** An applied event adds one row, about the escrow found and with the fields of the event. */
  lemma AppliedTells(t: Tables, ev: ChainEvent, ok: bool)
    requires WellFormed(t) && Deliver(t, ev, ok).1.Applied?
    ensures var u := Deliver(t, ev, ok).0;
      OneRowMore(t.audit, u.audit) && Tells(t, u.audit[|t.audit|], ev)
  {
    hide Find, WellFormed, CanApply, AlreadyDone, EscrowAfter, OrderStatusAfter;
  }

  /** It writes one escrow and its order, and of them the statuses and hashes alone. */
  lemma AppliedWrites(t: Tables, ev: ChainEvent, ok: bool)
    requires WellFormed(t) && Deliver(t, ev, ok).1.Applied?
    ensures var (u, x) := (Deliver(t, ev, ok).0, Find(t, ev).value);
      && Find(t, ev).Some? && SameIndex(t, u) && u.orders.Keys == t.orders.Keys
      && (forall y :: y in t.escrows && y != x ==> u.escrows[y] == t.escrows[y])
      && (forall o :: o in t.orders && o != t.escrows[x].orderId ==> u.orders[o] == t.orders[o])
      && t.escrows[x].orderId in t.orders
      && (var (before, after) := (t.orders[t.escrows[x].orderId], u.orders[t.escrows[x].orderId]);
          before == after.(status := before.status))
  {
    hide Find, CanApply, AlreadyDone;
  }

  /** The two statuses that each kind of event leaves. */
  lemma StatusesWritten(t: Tables, ev: ChainEvent, ok: bool)
    requires WellFormed(t) && Deliver(t, ev, ok).1.Applied?
    ensures var (u, x) := (Deliver(t, ev, ok).0, Find(t, ev).value);
      && Find(t, ev).Some? && x in u.escrows && u.escrows[x].orderId in u.orders
      && var (s, o) := (u.escrows[x].status, u.orders[u.escrows[x].orderId].status);
         && (ev.eventType.EscrowCreated? <==> s.Initialized?) && (ev.eventType.EscrowCreated? <==> o.OrderCreated?)
         && (ev.eventType.EscrowFunded? <==> s.Funded?) && (ev.eventType.EscrowFunded? <==> o.OrderLocked?)
         && (ev.eventType.EscrowReleased? <==> s.Released?) && (ev.eventType.EscrowReleased? <==> o.OrderReleased?)
         && (ev.eventType.EscrowDisputed? <==> s.Disputed?) && (ev.eventType.EscrowDisputed? <==> o.OrderDisputed?)
         && (ev.eventType.EscrowRefunded? || ev.eventType.EscrowCancelled? <==> s.Resolved?)
         && (ev.eventType.EscrowRefunded? || ev.eventType.EscrowCancelled? <==> o.OrderCancelled?)
  {
    hide Find, CanApply, AlreadyDone;
  }

  // ---- a log of events ------------------------------------------------------------------------------------

  /** The entries that take effect at their turn. */
  ghost function AppliedOf(t: Tables, log: Log): Log
    requires WellFormed(t)
  {
    if log == [] then []
    else
      var (init, ev) := (log[..|log| - 1], log[|log| - 1]);
      AppliedOf(t, init) + if Deliver(Fold(t, init), ev, true).1.Applied? then [ev] else []
  }

  /** The rows added by a pass over a log tell of exactly the applied entries, in their order. */
  lemma {:induction false} RowsTellApplied(t: Tables, log: Log)
    requires WellFormed(t)
    ensures var (u, done) := (Fold(t, log), AppliedOf(t, log));
      && |u.audit| == |t.audit| + |done| && u.audit[..|t.audit|] == t.audit
      && forall i :: 0 <= i < |done| ==> Tells(t, u.audit[|t.audit| + i], done[i])
  {
    hide WellFormed, Deliver, Tells, Rank;
    if log != [] {
      var init, ev := log[..|log| - 1], log[|log| - 1];
      var u := Fold(t, init);
      RowsTellApplied(t, init);
      DeliverKeeps(u, ev, true);
      if Deliver(u, ev, true).1.Applied? {
        AppliedTells(u, ev, true);
        FoldSameIndex(t, init);
        TellsStable(t, u, Deliver(u, ev, true).0.audit[|u.audit|], ev);
      }
    }
  }

  lemma FoldSameIndex(t: Tables, log: Log)
    requires WellFormed(t)
    ensures SameIndex(t, Fold(t, log))
  {
    hide WellFormed, Rank, Deliver, Fold;
    FoldRises(t, log, 0, |log|);
    FoldStarts(t, log);
    assert log[..|log|] == log;
  }

  lemma TellsStable(t: Tables, u: Tables, row: AuditRow, ev: ChainEvent)
    requires WellFormed(t) && WellFormed(u) && SameIndex(t, u)
    ensures Tells(u, row, ev) ==> Tells(t, row, ev)
  {
    hide WellFormed, Find;
    FindStable(t, u, ev);
  }

  // ---- syncing --------------------------------------------------------------------------------------------

  /** The longest beginning of a text with at most 64 characters. */
  predicate IsHead(head: string, text: string) {
    head <= text && (|head| == 64 || (head == text && |text| < 64))
  }

  /** What a successful sync leaves of the row, action by action. */
  lemma SyncWrites(t: Tables, x: string, a: SyncAction, reply: ChainReply, xdr: string, auditOk: bool)
    requires Sync(t, x, a, reply, xdr, auditOk).1.Synced?
    ensures var u := Sync(t, x, a, reply, xdr, auditOk).0;
      && x in t.escrows && u.escrows.Keys == t.escrows.Keys && u.orders == t.orders
      && (forall y :: y in t.escrows && y != x ==> u.escrows[y] == t.escrows[y])
      && (var (before, after) := (t.escrows[x], u.escrows[x]);
          && after.orderId == before.orderId
          && after.contractId == (if a.Initialize? && reply.contractId !in {None, Some("")} then reply.contractId
                                  else before.contractId)
          && (match a
              case Initialize =>
                && after.status.Initialized?
                && after.txHashLock.Some? && IsHead(after.txHashLock.value, xdr) && after.txHashRelease == before.txHashRelease
              case Fund => after.status.Funded? && SameHashes(before, after)
              case SendFiat => after.status.FiatSent? && SameHashes(before, after)
              case Release =>
                && after.status.Released?
                && after.txHashRelease.Some? && IsHead(after.txHashRelease.value, xdr) && after.txHashLock == before.txHashLock))
  {
    hide Conflicts, SyncAllowed;
  }

  predicate SameHashes(a: Escrow, b: Escrow) {
    a.txHashLock == b.txHashLock && a.txHashRelease == b.txHashRelease
  }

  /** A synced funding or release, and no other, leaves one row of the service when the audit write succeeds. */
  lemma SyncTells(t: Tables, x: string, a: SyncAction, reply: ChainReply, xdr: string, auditOk: bool)
    requires Sync(t, x, a, reply, xdr, auditOk).1.Synced?
    ensures var u := Sync(t, x, a, reply, xdr, auditOk).0;
      if auditOk && (a.Fund? || a.Release?)
      then && OneRowMore(t.audit, u.audit)
           && var row := u.audit[|t.audit|];
              row.escrowId == x && row.origin.ByService? && row.action == (if a.Fund? then EscrowFunded else EscrowReleased)
      else u.audit == t.audit
  {
    hide Conflicts, SyncAllowed, EscrowSynced;
  }

  /** Once its contract is synced, every event of the contract finds the escrow. */
  lemma SyncedContractFound(t: Tables, x: string, c: string, ok: bool, xdr: string, auditOk: bool, ev: ChainEvent)
    requires Sane(t) && c != "" && Sync(t, x, Initialize, ChainReply(ok, Some(c)), xdr, auditOk).1.Synced?
    ensures var u := Sync(t, x, Initialize, ChainReply(ok, Some(c)), xdr, auditOk).0;
      && ByContract(u.escrows, c) == Some(x)
      && (ev.contractId == c ==> Find(u, ev) == Some(x))
  {
    hide Sane, KeepsAll, RanksKept, Sync, ByContract, ByOrder;
    var u := Sync(t, x, Initialize, ChainReply(ok, Some(c)), xdr, auditOk).0;
    SyncWrites(t, x, Initialize, ChainReply(ok, Some(c)), xdr, auditOk);
    SyncKeeps(t, x, Initialize, ChainReply(ok, Some(c)), xdr, auditOk);
    KeepsSane(t, u);
    OnlyOne(u, x, c);
  }

  lemma OnlyOne(t: Tables, x: string, c: string)
    requires Sane(t) && HasThisContract(t, x, c)
    ensures ByContract(t.escrows, c) == Some(x)
  {
    assert SameContract(t.escrows[x], t.escrows[ByContract(t.escrows, c).value]);
  }

  /** Each refusal of a sync exactly; a key can clash only when an initialization brings another's contract. */
  lemma SyncRefusals(t: Tables, x: string, a: SyncAction, reply: ChainReply, xdr: string, auditOk: bool)
    requires Sane(t)
    ensures var (u, o) := Sync(t, x, a, reply, xdr, auditOk);
      var clash := a.Initialize? && reply.contractId.Some? && exists y :: y != x && HasThisContract(t, y, reply.contractId.value);
      && (o.EscrowNotFound? <==> x !in t.escrows)
      && (o.InvalidStatus? <==> x in t.escrows && !SyncAllowed(t.escrows[x].status, a))
      && (o.SyncFailed? <==> x in t.escrows && SyncAllowed(t.escrows[x].status, a) && !reply.ok)
      && (o.KeyConflict? <==> x in t.escrows && SyncAllowed(t.escrows[x].status, a) && reply.ok && clash)
      && (!o.Synced? ==> u == t)
  {
    hide SyncAudit, EscrowSynced, SyncAllowed, Conflicts, Sane;
    if x in t.escrows && SyncAllowed(t.escrows[x].status, a) {
      ClashExactly(t, x, a, reply, xdr);
    }
  }

  lemma NoClash(t: Tables, x: string, y: string)
    requires WellFormed(t) && x in t.escrows && y in t.escrows && x != y
    ensures !SameContract(t.escrows[x], t.escrows[y])
  {
  }

  lemma ClashExactly(t: Tables, x: string, a: SyncAction, reply: ChainReply, xdr: string)
    requires Sane(t) && x in t.escrows && SyncAllowed(t.escrows[x].status, a)
    ensures Conflicts(t, x, EscrowSynced(t.escrows[x], a, reply, xdr).contractId) <==>
      a.Initialize? && reply.contractId.Some? && exists y :: y != x && HasThisContract(t, y, reply.contractId.value)
  {
    hide First64, Rank;
    var c := EscrowSynced(t.escrows[x], a, reply, xdr).contractId;
    if Conflicts(t, x, c) {
      var y :| y in t.escrows && y != x && t.escrows[y].contractId == c;
      assert HasThisContract(t, y, c.value);
      NoClash(t, x, y);
    }
    if a.Initialize? && reply.contractId.Some? {
      if y :| y != x && HasThisContract(t, y, reply.contractId.value) {
        assert y in t.escrows && Placed(t.escrows[y]);
      }
    }
  }

  // ---- opening, initializing, creating --------------------------------------------------------------------

  ghost predicate HoldsContract(t: Tables, orderId: string) {
    exists x :: HasOrder(t, x, orderId) && t.escrows[x].contractId !in {None, Some("")}
  }

  ghost predicate HoldsEscrow(t: Tables, orderId: string) {
    exists x :: HasOrder(t, x, orderId)
  }

  /** The tables but for one escrow, and for at most one row of the service about its creation. */
  predicate OnlyEscrow(t: Tables, u: Tables, x: string, isNew: bool, auditOk: bool) {
    && u.orders == t.orders && u.escrows.Keys == t.escrows.Keys + {x} && (isNew <==> x !in t.escrows)
    && (forall y :: y in t.escrows && y != x ==> u.escrows[y] == t.escrows[y])
    && if isNew && auditOk
       then && OneRowMore(t.audit, u.audit)
            && var row := u.audit[|t.audit|];
               row.escrowId == x && row.action.EscrowCreated? && row.origin.ByService?
       else u.audit == t.audit
  }

  lemma OpenWrites(t: Tables, orderId: string, freshId: string, deployed: Option<string>, auditOk: bool)
    requires WellFormed(t) && freshId !in t.escrows && Open(t, orderId, freshId, deployed, auditOk).1.Opened?
    ensures deployed.Some?
    ensures var u := Open(t, orderId, freshId, deployed, auditOk).0;
      exists x :: HasOrder(u, x, orderId)
        && OnlyEscrow(t, u, x, !HoldsEscrow(t, orderId), auditOk)
        && u.escrows[x].contractId == deployed && u.escrows[x].status.Initialized?
        && (if x in t.escrows then SameHashes(t.escrows[x], u.escrows[x])
            else x == freshId && u.escrows[x].txHashLock.None? && u.escrows[x].txHashRelease.None?)
  {
    var u := Open(t, orderId, freshId, deployed, auditOk).0;
    var x := if ByOrder(t.escrows, orderId).Some? then ByOrder(t.escrows, orderId).value else freshId;
    assert HasOrder(u, x, orderId);
    assert ByOrder(t.escrows, orderId).Some? ==> HasOrder(t, x, orderId);
    assert OnlyEscrow(t, u, x, !HoldsEscrow(t, orderId), auditOk);
  }

  lemma OpenRefusals(t: Tables, orderId: string, freshId: string, deployed: Option<string>, auditOk: bool)
    requires WellFormed(t)
    ensures var (u, o) := Open(t, orderId, freshId, deployed, auditOk);
      && (o.AlreadyExists? <==> HoldsContract(t, orderId))
      && (o.DeployFailed? <==> !HoldsContract(t, orderId) && deployed.None?)
      && (o.OrderMissing? <==> deployed.Some? && !HoldsEscrow(t, orderId) && orderId !in t.orders)
      && (!o.Opened? ==> u == t)
  {
    OrderHolds(t, orderId);
  }

  lemma OrderHolds(t: Tables, orderId: string)
    requires WellFormed(t)
    ensures HoldsEscrow(t, orderId) <==> ByOrder(t.escrows, orderId).Some?
    ensures HoldsContract(t, orderId) <==> HasContract(t, ByOrder(t.escrows, orderId))
    ensures HoldsContract(t, orderId) ==> HoldsEscrow(t, orderId)
  {
    if x :| HasOrder(t, x, orderId) {
      assert x in t.escrows && ByOrder(t.escrows, orderId) == Some(x);
    }
    if ByOrder(t.escrows, orderId).Some? {
      assert HasOrder(t, ByOrder(t.escrows, orderId).value, orderId);
    }
  }

  lemma InitializeWrites(t: Tables, orderId: string, freshId: string, chainOk: bool, auditOk: bool)
    requires WellFormed(t) && freshId !in t.escrows && StartEscrow(t, orderId, freshId, chainOk, auditOk).1.Opened?
    ensures var u := StartEscrow(t, orderId, freshId, chainOk, auditOk).0;
      if HoldsEscrow(t, orderId) then u == t
      else
        && OnlyEscrow(t, u, freshId, true, auditOk)
        && HasOrder(u, freshId, orderId) && u.escrows[freshId].contractId.None? && u.escrows[freshId].status.Pending?
        && u.escrows[freshId].txHashLock.None? && u.escrows[freshId].txHashRelease.None?
  {
    OrderHolds(t, orderId);
  }

  lemma InitializeRefusals(t: Tables, orderId: string, freshId: string, chainOk: bool, auditOk: bool)
    requires WellFormed(t)
    ensures var (u, o) := StartEscrow(t, orderId, freshId, chainOk, auditOk);
      && (o.AlreadyExists? <==> HoldsContract(t, orderId))
      && (o.DeployFailed? <==> !HoldsContract(t, orderId) && !chainOk)
      && (o.OrderMissing? <==> chainOk && !HoldsEscrow(t, orderId) && orderId !in t.orders)
      && (!o.Opened? ==> u == t)
  {
    OrderHolds(t, orderId);
  }

  /** A created order and its escrow find each other, by order and by contract. */
  lemma CreateWrites(t: Tables, orderId: string, order: Order, x: string, contractId: string, ev: ChainEvent)
    requires Sane(t) && FreshIds(t, DoCreate(orderId, order, x, contractId))
    ensures var u := Create(t, orderId, order, x, contractId);
      && ByOrder(u.escrows, orderId) == Some(x) && ByContract(u.escrows, contractId) == Some(x)
      && (ev.contractId == contractId ==> Find(u, ev) == Some(x))
      && u.escrows[x].status.Initialized? && u.escrows[x].txHashLock.None? && u.escrows[x].txHashRelease.None?
      && u.orders.Keys == t.orders.Keys + {orderId} && u.orders[orderId] == order && u.audit == t.audit
      && (forall y :: y in t.escrows ==> y in u.escrows && u.escrows[y] == t.escrows[y])
      && (forall o :: o in t.orders ==> u.orders[o] == t.orders[o])
  {
    hide KeepsAll, RanksKept, Sane;
    var u := Create(t, orderId, order, x, contractId);
    CreateKeeps(t, orderId, order, x, contractId);
    KeepsSane(t, u);
    OnlyOne(u, x, contractId);
    OnlyOrder(u, x);
  }

  lemma OnlyOrder(t: Tables, x: string)
    requires Sane(t) && x in t.escrows
    ensures ByOrder(t.escrows, t.escrows[x].orderId) == Some(x)
  {
  }

  // ---- cancelling and expiring ----------------------------------------------------------------------------

  /** Buyer and seller alone can cancel, an open order alone, and not once its escrow is funded. */
  lemma CancelExactly(t: Tables, orderId: string, userId: string)
    requires WellFormed(t)
    ensures var (u, o) := Cancel(t, orderId, userId);
      && (o.OrderNotFound? <==> orderId !in t.orders)
      && (o.NotAParty? <==> orderId in t.orders && userId !in {t.orders[orderId].buyerId, t.orders[orderId].sellerId})
      && (o.OrderIsCancelled? <==>
            && orderId in t.orders && userId in {t.orders[orderId].buyerId, t.orders[orderId].sellerId}
            && t.orders[orderId].status in {OrderCreated, OrderLocked}
            && forall x :: HasOrder(t, x, orderId) ==> t.escrows[x].status in {Pending, Initialized})
      && (o.AlreadyClosed? <==>
            && orderId in t.orders && userId in {t.orders[orderId].buyerId, t.orders[orderId].sellerId}
            && t.orders[orderId].status !in {OrderCreated, OrderLocked})
  {
    hide WellFormed, ByOrder;
    EscrowOfOrder(t, orderId);
    if orderId in t.orders {
      OrderStatusSplit(t.orders[orderId].status);
      if ByOrder(t.escrows, orderId).Some? {
        StatusSplit(t.escrows[ByOrder(t.escrows, orderId).value].status);
      }
    }
  }

  lemma StatusSplit(s: EscrowStatus)
    ensures !BlocksCancel(s) <==> s in {Pending, Initialized}
    ensures !Protected(s) <==> s in {Pending, Initialized, Funded}
  {
    match s
    case Pending =>
    case _ =>
  }

  lemma OrderStatusSplit(s: OrderStatus)
    ensures !ClosedOrder(s) <==> s in {OrderCreated, OrderLocked}
  {
    match s
    case OrderCreated =>
    case _ =>
  }

  /** What is said of all escrows of an order is said of the one found. */
  lemma EscrowOfOrder(t: Tables, orderId: string)
    requires WellFormed(t)
    ensures ByOrder(t.escrows, orderId).Some? ==> HasOrder(t, ByOrder(t.escrows, orderId).value, orderId)
    ensures forall x :: HasOrder(t, x, orderId) ==> ByOrder(t.escrows, orderId) == Some(x)
  {
    forall x | HasOrder(t, x, orderId) ensures ByOrder(t.escrows, orderId) == Some(x) {
      assert x in t.escrows;
    }
  }

  lemma CancelWrites(t: Tables, orderId: string, userId: string)
    ensures var (u, o) := Cancel(t, orderId, userId);
      if o.OrderIsCancelled?
      then && u.escrows == t.escrows && u.audit == t.audit && u.orders.Keys == t.orders.Keys && orderId in t.orders
           && u.orders[orderId].status.OrderCancelled?
           && u.orders[orderId].(status := t.orders[orderId].status) == t.orders[orderId]
           && forall p :: p in t.orders && p != orderId ==> u.orders[p] == t.orders[p]
      else u == t
  {
    hide ByOrder;
  }

  /** Past its expiry, not protected by its escrow, and its own write not refused. */
  ghost predicate Expires(t: Tables, o: string, now: int, failing: set<string>) {
    && o in t.orders && t.orders[o].expiresAt.Some? && t.orders[o].expiresAt.value < now && o !in failing
    && forall x :: HasOrder(t, x, o) ==> t.escrows[x].status in {Pending, Initialized, Funded}
  }

  /** The sweep cancels expired locked orders and expires expired created ones, and writes nothing else. */
  lemma SweepWrites(t: Tables, now: int, failing: set<string>, o: string)
    requires WellFormed(t) && o in t.orders
    ensures var (u, before) := (Sweep(t, now, failing), t.orders[o]);
      && u.escrows == t.escrows && u.audit == t.audit && u.orders.Keys == t.orders.Keys
      && u.orders[o].(status := before.status) == before
      && (u.orders[o].status.OrderCancelled? <==>
            before.status.OrderCancelled? || (before.status.OrderLocked? && Expires(t, o, now, failing)))
      && (u.orders[o].status.OrderExpired? <==>
            before.status.OrderExpired? || (before.status.OrderCreated? && Expires(t, o, now, failing)))
      && (u.orders[o].status !in {OrderCancelled, OrderExpired} ==> u.orders[o] == before)
  {
    hide ByOrder, WellFormed, Protected;
    OrderStatusOf(t, o);
  }

  lemma OrderStatusOf(t: Tables, o: string)
    requires WellFormed(t)
    ensures (ByOrder(t.escrows, o).Some? ==> !Protected(t.escrows[ByOrder(t.escrows, o).value].status))
       <==> forall x :: HasOrder(t, x, o) ==> t.escrows[x].status in {Pending, Initialized, Funded}
  {
    hide WellFormed, ByOrder, Protected;
    EscrowOfOrder(t, o);
    if ByOrder(t.escrows, o).Some? {
      StatusSplit(t.escrows[ByOrder(t.escrows, o).value].status);
    }
  }

  // ---- the listener ---------------------------------------------------------------------------------------

  /** A key is remembered exactly from the first event on that is applied or judged already processed. */
  lemma RemembersExactly(t: Tables, cache: set<Key>, ev: ChainEvent, ok: bool, key: Key)
    requires WellFormed(t)
    ensures var (u, after, o) := Process(t, cache, ev, ok);
      && (key in after <==>
            key in cache || (key.eventId == ev.eventId && key.eventType == ev.eventType && o in {Applied, AlreadyProcessed}))
      && (o.Duplicate? <==> Key(ev.eventId, ev.eventType) in cache)
      && (!o.Duplicate? ==> (u, o) == Deliver(t, ev, ok))
      && (o.Duplicate? ==> u == t)
  {
    hide WellFormed, Find, CanApply, AlreadyDone, ApplyEvent;
    OutcomeExactly(t, ev, ok);
  }

  /** An event that throws leaves the mark; any other moves it up to its ledger. */
  lemma ReceiveMarks(s: State, ev: ChainEvent, ok: bool)
    requires WellFormed(s.tables)
    ensures var (r, o) := (Receive(s, Some(ev), ok), Process(s.tables, s.cache, ev, ok).2);
      && (r.last > s.last <==> ev.ledger > s.last && o !in {InvalidTransition, StorageFailed})
      && (r.last == s.last || r.last == ev.ledger) && s.last <= r.last
      && (r.tables, r.cache) == (Process(s.tables, s.cache, ev, ok).0, Process(s.tables, s.cache, ev, ok).1)
    ensures Receive(s, None, ok) == s
  {
    hide WellFormed, Process;
  }

  /** The configured contract, and every contract of an escrow that is neither released nor resolved. */
  lemma TargetsExactly(es: Escrows, configured: Option<string>, queryOk: bool, c: string)
    ensures c in Targets(es, configured, queryOk) <==>
      && c != ""
      && (configured == Some(c)
          || (queryOk && exists x :: x in es && es[x].contractId == Some(c) && es[x].status !in {Released, Resolved}))
  {
    if x :| x in es && es[x].contractId == Some(c) && es[x].status !in {Released, Resolved} {
      assert c != "" ==> IsActive(es[x]);
    }
  }

  /** A poll asks from its mark on, not at all without targets, and ends no lower than the latest ledger. */
  lemma PollAsks(s: State, configured: Option<string>, queryOk: bool, rpc: Rpc, failing: set<nat>)
    requires WellFormed(s.tables)
    ensures var (targets, r) := (Targets(s.tables.escrows, configured, queryOk), Poll(s, configured, queryOk, rpc, failing));
      && (targets == {} ==> r == s)
      && (targets != {} ==>
            var page := rpc(targets, if s.last > 0 then Some(s.last) else None);
            var all := ReceiveAll(s, page.events, failing);
            && r.tables == all.tables && r.cache == all.cache && all.last <= r.last
            && (page.latest.None? ==> r.last == all.last)
            && (page.latest.Some? ==> page.latest.value <= r.last && r.last in {all.last, page.latest.value}))
  {
    hide WellFormed, Targets, ReceiveAll;
  }

  /** A page is taken in entry by entry, each with its own storage reply. */
  lemma PageByEntry(s: State, page: seq<Option<ChainEvent>>, entry: Option<ChainEvent>, failing: set<nat>)
    requires WellFormed(s.tables)
    ensures ReceiveAll(s, [], failing) == s
    ensures |page| in failing ==> ReceiveAll(s, page + [entry], failing) == Receive(ReceiveAll(s, page, failing), entry, false)
    ensures |page| !in failing ==> ReceiveAll(s, page + [entry], failing) == Receive(ReceiveAll(s, page, failing), entry, true)
  {
    hide WellFormed, Receive;
    assert (page + [entry])[..|page|] == page;
  }

  /** After an applied event a new process starts from its ledger; after a service's row, or none, from 0. */
  lemma StartsExactly(t: Tables, ev: ChainEvent, ok: bool, rows: seq<AuditRow>, row: AuditRow)
    requires WellFormed(t) && Deliver(t, ev, ok).1.Applied? && row.origin.ByService?
    ensures Started(Deliver(t, ev, ok).0, true).last == ev.ledger
    ensures Started(t.(audit := rows + [row]), true).last == 0 && Started(t.(audit := []), true).last == 0
    ensures Started(t, false).last == 0
    ensures forall q :: Started(t, q).cache == {} && Started(t, q).tables == t
  {
    hide Deliver, Tells, WellFormed;
    AppliedTells(t, ev, ok);
    TellsLedger(t, Deliver(t, ev, ok).0.audit[|t.audit|], ev);
  }

  lemma TellsLedger(t: Tables, row: AuditRow, ev: ChainEvent)
    requires Tells(t, row, ev)
    ensures row.origin.ByListener? && row.origin.ledger == ev.ledger
  {
  }
}
