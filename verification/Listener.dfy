/** The listener: its poll over pages of contract events, its memory of processed events, its ledger mark. */
module Listener {
  import opened Wrappers
  import opened Numbers
  import opened EventTypes
  import opened EscrowTables
  import opened Services

  datatype Key = Key(eventId: string, eventType: EventType)

  function KeyOf(ev: ChainEvent): Key {
    Key(ev.eventId, ev.eventType)
  }

  /** The database together with what one listener process remembers. */
  datatype State = State(tables: Tables, last: nat, cache: set<Key>)

  function GetOr0(n: Option<nat>): nat {
    match n
    case Some(k) => k
    case None => 0
  }

  // ---- one event ------------------------------------------------------------------------------------------

  function Remember(cache: set<Key>, ev: ChainEvent, o: Outcome): set<Key> {
    if o.Applied? || o.AlreadyProcessed? then cache + {KeyOf(ev)} else cache
  }

  ghost function Process(t: Tables, cache: set<Key>, ev: ChainEvent, storageOk: bool): (Tables, set<Key>, Outcome)
    requires WellFormed(t)
  {
    if KeyOf(ev) in cache then (t, cache, Duplicate)
    else
      var (u, o) := Deliver(t, ev, storageOk);
      (u, Remember(cache, ev, o), o)
  }

  /** One entry of a page; `None` is a raw event that does not parse. An event that threw leaves the mark. */
  ghost function Receive(s: State, entry: Option<ChainEvent>, storageOk: bool): (r: State)
    requires WellFormed(s.tables)
    ensures WellFormed(r.tables)
  {
    if entry.None? then s
    else
      DeliverKeeps(s.tables, entry.value, storageOk);
      var (t, cache, o) := Process(s.tables, s.cache, entry.value, storageOk);
      State(t, if Threw(o) then s.last else Max(s.last, entry.value.ledger), cache)
  }

  /** A whole page; `failing` are the positions at which the storage refuses the transaction. */
  ghost function ReceiveAll(s: State, page: seq<Option<ChainEvent>>, failing: set<nat>): (r: State)
    requires WellFormed(s.tables)
    ensures WellFormed(r.tables)
  {
    if page == [] then s
    else
      var i := |page| - 1;
      Receive(ReceiveAll(s, page[..i], failing), page[i], i !in failing)
  }

  // ---- one poll -------------------------------------------------------------------------------------------

  predicate Terminal(s: EscrowStatus) {
    s.Released? || s.Resolved?
  }

  predicate IsActive(e: Escrow) {
    e.contractId.Some? && e.contractId.value != "" && !Terminal(e.status)
  }

  function ActiveContracts(es: Escrows): set<string> {
    set x | x in es && IsActive(es[x]) :: es[x].contractId.value
  }

  function Configured(configured: Option<string>): set<string> {
    if configured.Some? && configured.value != "" then {configured.value} else {}
  }

  /** The contracts a poll asks for; without an answer from the database only the configured one. */
  function Targets(es: Escrows, configured: Option<string>, queryOk: bool): set<string> {
    Configured(configured) + if queryOk then ActiveContracts(es) else {}
  }

  datatype Page = Page(events: seq<Option<ChainEvent>>, latest: Option<nat>)

  /** A failed request is an empty page without a latest ledger. */
  type Rpc = (set<string>, Option<nat>) -> Page

  function StartLedger(last: nat): Option<nat> {
    if last > 0 then Some(last) else None
  }

  ghost function Poll(s: State, configured: Option<string>, queryOk: bool, rpc: Rpc, failing: set<nat>): (r: State)
    requires WellFormed(s.tables)
    ensures WellFormed(r.tables)
  {
    var targets := Targets(s.tables.escrows, configured, queryOk);
    if targets == {} then s
    else
      var page := rpc(targets, StartLedger(s.last));
      var r := ReceiveAll(s, page.events, failing);
      r.(last := Max(r.last, GetOr0(page.latest)))
  }

  /** The mark a new process starts from: the ledger of the newest escrow row, if the listener wrote it. */
  function SavedLedger(audit: seq<AuditRow>): nat {
    if audit != [] && audit[|audit| - 1].origin.ByListener? then audit[|audit| - 1].origin.ledger else 0
  }

  function Started(t: Tables, queryOk: bool): State {
    State(t, if queryOk then SavedLedger(t.audit) else 0, {})
  }

  // ---- the process ----------------------------------------------------------------------------------------

  class StellarListener {
    const db: Database
    const configuredContractId: Option<string>
    var lastProcessedLedger: nat
    var processedEventIds: set<Key>

    ghost function Snapshot(): State
      reads this, db
    {
      State(db.Contents(), lastProcessedLedger, processedEventIds)
    }

    /** Start-up: nothing remembered, the mark read back from the audit table. */
    constructor (db: Database, configuredContractId: Option<string>, queryOk: bool)
      ensures this.db == db && this.configuredContractId == configuredContractId
      ensures Snapshot() == Started(db.Contents(), queryOk)
    {
      this.db, this.configuredContractId := db, configuredContractId;
      lastProcessedLedger, processedEventIds := 0, {};
      new;
      if queryOk && db.audit != [] {
        var latest := db.audit[|db.audit| - 1];
        if latest.origin.ByListener? {
          lastProcessedLedger := latest.origin.ledger;
        }
      }
    }

    method FindEscrowRecord(ev: ChainEvent) returns (x: Option<string>)
      requires WellFormed(db.Contents())
      ensures x == Find(db.Contents(), ev)
    {
      if ev.contractId != "" {
        x := db.FindByContract(ev.contractId);
        if x.Some? { return; }
      }
      if ev.engagementId != "" || ev.orderId != "" {
        var orderId := if ev.engagementId != "" then ev.engagementId else ev.orderId;
        x := db.FindByOrder(orderId);
        if x.Some? { return; }
      }
      return None;
    }

    /** The result of the program's method is `outcome == Applied`, and it throws when `Threw(outcome)`. */
    method ProcessEvent(ev: ChainEvent, storageOk: bool) returns (outcome: Outcome)
      requires WellFormed(db.Contents())
      modifies db, this`processedEventIds
      ensures (db.Contents(), processedEventIds, outcome)
           == Process(old(db.Contents()), old(processedEventIds), ev, storageOk)
      ensures WellFormed(db.Contents())
    {
      hide WellFormed, Find, CanApply, AlreadyDone, EscrowStatusAfter;
      DeliverKeeps(db.Contents(), ev, storageOk);
      var eventKey := KeyOf(ev);
      if eventKey in processedEventIds { return Duplicate; }
      var x := FindEscrowRecord(ev);
      if x.None? { return UnknownEscrow; }
      var escrow := db.escrows[x.value];
      if AlreadyDone(escrow.status, ev.eventType) {
        processedEventIds := processedEventIds + {eventKey};
        return AlreadyProcessed;
      }
      if !CanApply(escrow.status, ev.eventType) { return InvalidTransition; }
      var updated := escrow.(status := EscrowStatusAfter(ev.eventType));
      if ev.eventType.EscrowFunded? && ev.txHash != "" {
        updated := updated.(txHashLock := Some(ev.txHash));
      }
      if (ev.eventType.EscrowReleased? || ev.eventType.EscrowRefunded?) && ev.txHash != "" {
        updated := updated.(txHashRelease := Some(ev.txHash));
      }
      if !storageOk { return StorageFailed; }
      OrderExists(db.Contents(), x.value);
      db.escrows := db.escrows[x.value := updated];
      db.orders := db.orders[escrow.orderId := db.orders[escrow.orderId].(status := OrderStatusAfter(ev.eventType))];
      db.audit := db.audit + [AuditOf(x.value, escrow.orderId, ev)];
      processedEventIds := processedEventIds + {eventKey};
      return Applied;
    }

    method GetTargetContractIds(queryOk: bool) returns (contracts: set<string>)
      ensures contracts == Targets(db.escrows, configuredContractId, queryOk)
    {
      contracts := {};
      if configuredContractId.Some? && configuredContractId.value != "" {
        contracts := contracts + {configuredContractId.value};
      }
      if queryOk {
        var unread := db.escrows.Keys;
        while unread != {}
          invariant unread <= db.escrows.Keys
          invariant forall x :: x in db.escrows && x !in unread && IsActive(db.escrows[x]) ==>
                      db.escrows[x].contractId.value in contracts
          invariant contracts <= Targets(db.escrows, configuredContractId, queryOk)
          invariant Configured(configuredContractId) <= contracts
          decreases unread
        {
          var x :| x in unread;
          unread := unread - {x};
          var escrow := db.escrows[x];
          if escrow.contractId.Some? && !Terminal(escrow.status) && escrow.contractId.value != "" {
            contracts := contracts + {escrow.contractId.value};
          }
        }
      }
    }

    method FetchAndProcessNewEvents(queryOk: bool, rpc: Rpc, failing: set<nat>) returns (processedCount: nat)
      requires WellFormed(db.Contents())
      modifies db, this
      ensures Snapshot() == Poll(old(Snapshot()), configuredContractId, queryOk, rpc, failing)
      ensures processedCount == |db.audit| - |old(db.audit)|
      ensures WellFormed(db.Contents())
    {
      hide WellFormed, Targets, Process, Receive;
      ghost var before := Snapshot();
      processedCount := 0;
      var targets := GetTargetContractIds(queryOk);
      if targets == {} { return; }
      var page := rpc(targets, if lastProcessedLedger > 0 then Some(lastProcessedLedger) else None);
      for i := 0 to |page.events|
        invariant Snapshot() == ReceiveAll(before, page.events[..i], failing)
        invariant WellFormed(db.Contents())
        invariant |db.audit| == |before.tables.audit| + processedCount
      {
        assert page.events[..i + 1][..i] == page.events[..i];
        var handled := ReceiveEntry(page.events[i], i !in failing);
        if handled { processedCount := processedCount + 1; }
      }
      assert page.events[..|page.events|] == page.events;
      if page.latest.Some? && page.latest.value > lastProcessedLedger {
        lastProcessedLedger := page.latest.value;
      }
    }

    /** The body of the loop over a page: an event that throws is logged and passed over. */
    method ReceiveEntry(entry: Option<ChainEvent>, storageOk: bool) returns (handled: bool)
      requires WellFormed(db.Contents())
      modifies db, this
      ensures Snapshot() == Receive(old(Snapshot()), entry, storageOk)
      ensures |db.audit| == |old(db.audit)| + if handled then 1 else 0
      ensures WellFormed(db.Contents())
    {
      hide WellFormed, Find, CanApply, AlreadyDone, EscrowAfter, AuditOf;
      if entry.None? { return false; }
      var outcome := ProcessEvent(entry.value, storageOk);
      handled := outcome.Applied?;
      if !Threw(outcome) && entry.value.ledger > lastProcessedLedger {
        lastProcessedLedger := entry.value.ledger;
      }
    }
  }
}
