/** The services over the shared database, one call at a time. */
module Services {
  import opened Wrappers
  import opened EventTypes
  import opened EscrowTables
  import opened Handlers

  class Database {
    var escrows: Escrows
    var orders: map<string, Order>
    var audit: seq<AuditRow>

    ghost function Contents(): Tables
      reads this
    {
      Tables(escrows, orders, audit)
    }

    constructor ()
      ensures Contents() == Tables(map[], map[], [])
    {
      escrows, orders, audit := map[], map[], [];
    }

    method FindByOrder(orderId: string) returns (x: Option<string>)
      requires WellFormed(Contents())
      ensures x == ByOrder(escrows, orderId)
    {
      if y :| y in escrows && escrows[y].orderId == orderId {
        x := Some(y);
      } else {
        x := None;
      }
    }

    method FindByContract(contractId: string) returns (x: Option<string>)
      requires WellFormed(Contents())
      ensures x == ByContract(escrows, contractId)
    {
      if y :| y in escrows && escrows[y].contractId == Some(contractId) {
        x := Some(y);
        assert SameContract(escrows[y], escrows[ByContract(escrows, contractId).value]);
      } else {
        x := None;
      }
    }
  }

  class EscrowService {
    const db: Database

    constructor (db: Database)
      ensures this.db == db
    {
      this.db := db;
    }

    method SyncTransaction(x: string, action: SyncAction, signedXdr: string, reply: ChainReply, auditOk: bool)
      returns (outcome: SyncOutcome)
      modifies db
      ensures (db.Contents(), outcome) == Sync(old(db.Contents()), x, action, reply, signedXdr, auditOk)
    {
      if x !in db.escrows { return EscrowNotFound; }
      ghost var log := db.audit;
      assert log + [] == log;
      var escrow := db.escrows[x];
      if !SyncAllowed(escrow.status, action) { return InvalidStatus; }
      if !reply.ok { return SyncFailed; }
      var data := escrow;
      match action {
        case Initialize =>
          data := data.(status := Initialized, txHashLock := Some(First64(signedXdr)));
          if Named(reply.contractId) {
            data := data.(contractId := reply.contractId);
          }
        case Fund => data := data.(status := Funded);
        case SendFiat => data := data.(status := FiatSent);
        case Release => data := data.(status := Released, txHashRelease := Some(First64(signedXdr)));
      }
      if data.contractId.Some? && exists y :: y in db.escrows && y != x && db.escrows[y].contractId == data.contractId {
        return KeyConflict;
      }
      db.escrows := db.escrows[x := data];
      if action.Fund? && auditOk {
        db.audit := db.audit + [AuditRow(EscrowFunded, x, ByService)];
      } else if action.Release? && auditOk {
        db.audit := db.audit + [AuditRow(EscrowReleased, x, ByService)];
      }
      return Synced;
    }

    method OpenEscrow(orderId: string, freshId: string, deployed: Option<string>, auditOk: bool)
      returns (outcome: OpenOutcome)
      requires WellFormed(db.Contents()) && FreshIds(db.Contents(), DoOpen(orderId, freshId, deployed, auditOk))
      modifies db
      ensures (db.Contents(), outcome) == Open(old(db.Contents()), orderId, freshId, deployed, auditOk)
    {
      var existing := db.FindByOrder(orderId);
      if existing.Some? && Named(db.escrows[existing.value].contractId) { return AlreadyExists; }
      if deployed.None? { return DeployFailed; }
      ghost var rows, log := db.escrows, db.audit;
      assert log + [] == log;
      var x := freshId;
      if existing.Some? {
        x := existing.value;
      } else {
        if orderId !in db.orders { return OrderMissing; }
        db.escrows := db.escrows[x := Escrow(orderId, None, Initialized, None, None)];
      }
      db.escrows := db.escrows[x := db.escrows[x].(contractId := deployed, status := Initialized)];
      assert db.escrows == rows[x := db.escrows[x]];
      if existing.None? && auditOk {
        db.audit := db.audit + [AuditRow(EscrowCreated, x, ByService)];
      }
      return Opened;
    }

    method InitializeEscrow(orderId: string, freshId: string, chainOk: bool, auditOk: bool)
      returns (outcome: OpenOutcome)
      requires WellFormed(db.Contents())
      modifies db
      ensures (db.Contents(), outcome) == StartEscrow(old(db.Contents()), orderId, freshId, chainOk, auditOk)
    {
      var existing := db.FindByOrder(orderId);
      if existing.Some? && Named(db.escrows[existing.value].contractId) { return AlreadyExists; }
      if !chainOk { return DeployFailed; }
      ghost var log := db.audit;
      assert log + [] == log;
      if existing.None? {
        if orderId !in db.orders { return OrderMissing; }
        db.escrows := db.escrows[freshId := Escrow(orderId, None, Pending, None, None)];
        if auditOk {
          db.audit := db.audit + [AuditRow(EscrowCreated, freshId, ByService)];
        }
      }
      return Opened;
    }
  }

  /** What the loop of the sweep has left to do, and what it has done. */
  ghost predicate HalfSwept(t: Tables, orders: map<string, Order>, left: set<string>, now: int, failing: set<string>) {
    && orders.Keys == t.orders.Keys && left <= t.orders.Keys
    && (forall o :: o in left ==> orders[o] == t.orders[o] && Overdue(orders[o], now))
    && (forall o :: o in t.orders && o !in left ==> orders[o] == Sweep(t, now, failing).orders[o])
  }

  lemma SweepStarts(t: Tables, left: set<string>, now: int, failing: set<string>)
    requires left == set o | o in t.orders && Overdue(t.orders[o], now)
    ensures HalfSwept(t, t.orders, left, now, failing)
  {
    hide ByOrder, Overdue;
  }

  lemma SweepsOne(t: Tables, orders: map<string, Order>, left: set<string>, o: string, now: int, failing: set<string>)
    requires HalfSwept(t, orders, left, now, failing) && o in left
    ensures o in orders && Overdue(orders[o], now)
    ensures var x := ByOrder(t.escrows, o);
      var swept := if o in failing || (x.Some? && Protected(t.escrows[x.value].status)) then orders
                   else orders[o := Closed(orders[o])];
      HalfSwept(t, swept, left - {o}, now, failing)
  {
    hide ByOrder, Closed, Protected;
  }

  lemma SweepEnds(t: Tables, orders: map<string, Order>, now: int, failing: set<string>)
    requires HalfSwept(t, orders, {}, now, failing)
    ensures Tables(t.escrows, orders, t.audit) == Sweep(t, now, failing)
  {
    hide ByOrder, Closed, Protected, Overdue;
    assert orders == Sweep(t, now, failing).orders;
  }

  class OrderService {
    const db: Database

    constructor (db: Database)
      ensures this.db == db
    {
      this.db := db;
    }

    method CancelOrder(orderId: string, userId: string) returns (outcome: CancelOutcome)
      requires WellFormed(db.Contents())
      modifies db
      ensures (db.Contents(), outcome) == Cancel(old(db.Contents()), orderId, userId)
    {
      if orderId !in db.orders { return OrderNotFound; }
      var order := db.orders[orderId];
      if order.buyerId != userId && order.sellerId != userId { return NotAParty; }
      if order.status in {OrderReleased, OrderCancelled, OrderExpired, OrderDisputed} { return AlreadyClosed; }
      var x := db.FindByOrder(orderId);
      if x.Some? && db.escrows[x.value].status in {Funded, FiatSent, Released, Disputed, Resolved} { return EscrowMoved; }
      db.orders := db.orders[orderId := order.(status := OrderCancelled)];
      return OrderIsCancelled;
    }

    /**
     The sweep. `balance` answers the on-chain balance check of a contract, or fails; `failing` are the
     orders whose own write fails. Neither the answers nor the order of the loop matter to the result.
     */
    method ExpireOrders(now: int, balance: string -> Option<nat>, failing: set<string>)
      requires WellFormed(db.Contents())
      modifies db
      ensures db.Contents() == Sweep(old(db.Contents()), now, failing)
    {
      hide WellFormed, ByOrder, Closed, Protected, Sweep, Closes, HalfSwept;
      ghost var before := db.Contents();
      var expired := set o | o in db.orders && Overdue(db.orders[o], now);
      SweepStarts(before, expired, now, failing);
      while expired != {}
        invariant db.escrows == before.escrows && db.audit == before.audit && WellFormed(db.Contents())
        invariant HalfSwept(before, db.orders, expired, now, failing)
        decreases expired
      {
        var o :| o in expired;
        SweepsOne(before, db.orders, expired, o, now, failing);
        expired := expired - {o};
        ProcessExpiredOrder(o, balance, failing);
      }
      SweepEnds(before, db.orders, now, failing);
    }

    method ProcessExpiredOrder(o: string, balance: string -> Option<nat>, failing: set<string>)
      requires WellFormed(db.Contents()) && o in db.orders && db.orders[o].status in {OrderCreated, OrderLocked}
      modifies db
      ensures db.escrows == old(db.escrows) && db.audit == old(db.audit) && WellFormed(db.Contents())
      ensures var x := ByOrder(old(db.escrows), o);
        db.orders == if o in failing || (x.Some? && Protected(old(db.escrows)[x.value].status)) then old(db.orders)
                     else old(db.orders)[o := Closed(old(db.orders)[o])]
    {
      var oldStatus := db.orders[o].status;
      var x := db.FindByOrder(o);
      if x.Some? {
        var escrow := db.escrows[x.value];
        if escrow.status in {FiatSent, Released, Disputed, Resolved} { return; }
        if Named(escrow.contractId) {
          var checked := balance(escrow.contractId.value);
        }
      }
      var target := if oldStatus == OrderLocked then OrderCancelled else OrderExpired;
      if o in failing { return; }
      db.orders := db.orders[o := db.orders[o].(status := target)];
    }
  }
}
