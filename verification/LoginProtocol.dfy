/**
 Wallet login: a challenge is issued, signed by the wallet and consumed by a conditional update.

 Every database statement is one atomic step, so the steps of any number of logins, re-issues and purges
 interleave freely. A time that the program reads before a statement travels with that statement.
 Signature verification is an uninterpreted predicate.
 */
module LoginProtocol {
  import opened Wrappers
  import opened Numbers

  /** A row of the challenge table, which holds at most one row per public key. */
  datatype Row = Row(challenge: string, expiresAt: int, usedAt: Option<int>)

  type Rows = map<string, Row>

  // ---- the database statements ---------------------------------------------------------------------

  function DeleteExpired(rows: Rows, cutoff: int): Rows {
    map k | k in rows && rows[k].expiresAt >= cutoff :: rows[k]
  }

  function Upsert(rows: Rows, key: string, challenge: string, expiresAt: int): Rows {
    rows[key := Row(challenge, expiresAt, None)]
  }

  predicate Consumable(rows: Rows, key: string, challenge: string, at: int) {
    && key in rows
    && rows[key].challenge == challenge
    && rows[key].usedAt.None?
    && rows[key].expiresAt > at
  }

  /** The conditional update: its row count is 1 exactly when the row is consumable. */
  function Consume(rows: Rows, key: string, challenge: string, at: int, usedAt: int): Rows {
    if Consumable(rows, key, challenge, at) then rows[key := rows[key].(usedAt := Some(usedAt))] else rows
  }

  predicate PurgeKeeps(row: Row, now: int, usedCutoff: int) {
    row.expiresAt >= now && (row.usedAt.None? || row.usedAt.value >= usedCutoff)
  }

  function Purge(rows: Rows, now: int, usedCutoff: int): Rows {
    map k | k in rows && PurgeKeeps(rows[k], now, usedCutoff) :: rows[k]
  }

  /** What the login checks on the row it has read. */
  predicate Acceptable(row: Option<Row>, challenge: string, now: int) {
    && row.Some?
    && row.value.usedAt.None?
    && row.value.expiresAt > now
    && row.value.challenge == challenge
  }

  // ---- what the statements do to a row ------------------------------------------------------------------

  /** Issuing leaves of the other keys exactly the rows that have not expired, and a fresh row for its own. */
  lemma IssueWrites(rows: Rows, key: string, challenge: string, expiresAt: int, cutoff: int, k: string)
    ensures var after := Upsert(DeleteExpired(rows, cutoff), key, challenge, expiresAt);
      && key in after && after[key].challenge == challenge && after[key].expiresAt == expiresAt && after[key].usedAt.None?
      && (k != key ==> (k in after <==> k in rows && !(rows[k].expiresAt < cutoff)))
      && (k != key && k in after ==> after[k] == rows[k])
  {
  }

  /** The row that is taken is unused, of this challenge and alive at the instant, and gets its use alone written. */
  lemma ConsumeWrites(rows: Rows, key: string, challenge: string, at: int, usedAt: int, k: string)
    ensures var after := Consume(rows, key, challenge, at, usedAt);
      && after.Keys == rows.Keys
      && (k in rows && after[k] != rows[k] ==>
            && k == key && rows[k].challenge == challenge && rows[k].usedAt.None? && at < rows[k].expiresAt
            && after[k].challenge == rows[k].challenge && after[k].expiresAt == rows[k].expiresAt
            && after[k].usedAt == Some(usedAt))
      && (key in rows && rows[key].challenge == challenge && rows[key].usedAt.None? && at < rows[key].expiresAt ==>
            after[key] != rows[key])
  {
  }

  /** A purge deletes exactly the expired rows and those used before the threshold. */
  lemma PurgeWrites(rows: Rows, now: int, threshold: int, k: string)
    ensures var after := Purge(rows, now, threshold);
      && (k in after ==> k in rows && after[k] == rows[k])
      && (k in rows && k !in after <==>
            k in rows && (rows[k].expiresAt < now || (rows[k].usedAt.Some? && rows[k].usedAt.value < threshold)))
  {
  }

  // ---- the service, one call at a time -----------------------------------------------------------------

  datatype LoginResult = InvalidWallet | InvalidChallenge | InvalidSignature | LostRace | Token(key: string)

  class AuthService {
    var rows: Rows

    constructor ()
      ensures rows == map[]
    {
      rows := map[];
    }

    /** `now` and `later` are the two clock readings; None is the refusal of a malformed key. */
    method CreateChallenge(key: string, keyOk: bool, challenge: string, ttlSeconds: nat, now: int, later: int)
      returns (expiresAt: Option<int>)
      modifies this
      ensures !keyOk ==> expiresAt == None && rows == old(rows)
      ensures keyOk ==> expiresAt == Some(now + ttlSeconds * 1000)
      ensures keyOk ==> rows == Upsert(DeleteExpired(old(rows), later), key, challenge, now + ttlSeconds * 1000)
    {
      if !keyOk { return None; }
      var expiry := now + ttlSeconds * 1000;
      rows := map k | k in rows && !(rows[k].expiresAt < later) :: rows[k];
      rows := rows[key := Row(challenge, expiry, None)];
      return Some(expiry);
    }

    /** The readings of the clock: at the check, and the two instants put into the update. */
    method Login(key: string, keyOk: bool, challenge: string, signatureOk: bool, checkedAt: int, at: int, usedAt: int)
      returns (result: LoginResult)
      modifies this
      ensures result == InvalidWallet <==> !keyOk
      ensures result == InvalidChallenge <==> keyOk && !Consumable(old(rows), key, challenge, checkedAt)
      ensures result == InvalidSignature <==> keyOk && Consumable(old(rows), key, challenge, checkedAt) && !signatureOk
      ensures result == LostRace <==> keyOk && signatureOk && Consumable(old(rows), key, challenge, checkedAt)
                                      && !Consumable(old(rows), key, challenge, at)
      ensures result == Token(key) <==> keyOk && signatureOk && Consumable(old(rows), key, challenge, checkedAt)
                                        && Consumable(old(rows), key, challenge, at)
      ensures rows == if result == Token(key) then Consume(old(rows), key, challenge, at, usedAt) else old(rows)
      ensures result.Token? ==> result.key == key && !Consumable(rows, key, challenge, at)
    {
      if !keyOk { return InvalidWallet; }
      var stored := if key in rows then Some(rows[key]) else None;
      if stored.None? || stored.value.usedAt.Some? || stored.value.expiresAt <= checkedAt
         || stored.value.challenge != challenge {
        return InvalidChallenge;
      }
      if !signatureOk { return InvalidSignature; }
      var count := 0;
      if key in rows && rows[key].challenge == challenge && rows[key].usedAt.None? && rows[key].expiresAt > at {
        rows := rows[key := rows[key].(usedAt := Some(usedAt))];
        count := 1;
      }
      if count == 0 { return LostRace; }
      return Token(key);
    }

    method PurgeExpiredChallenges(now: int, retentionHours: nat) returns (count: nat)
      modifies this
      ensures rows == Purge(old(rows), now, now - retentionHours * 3600000)
      ensures count == |old(rows)| - |rows|
    {
      var usedThreshold := now - retentionHours * 60 * 60 * 1000;
      var gone := set k | k in rows
        && (rows[k].expiresAt < now || (rows[k].usedAt.Some? && rows[k].usedAt.value < usedThreshold));
      assert |rows.Keys - gone| == |rows.Keys| - |gone|;
      count := |gone|;
      rows := rows - gone;
      assert rows.Keys == old(rows).Keys - gone;
    }
  }

  // ---- interleaved runs ----------------------------------------------------------------------------------

  /** A challenge under way: generated for a key, its old rows deleted, then stored. */
  datatype Issue = Issue(key: string, expiresAt: int, stored: bool)

  datatype Reason = BadChallenge | BadSignature | RaceLost

  datatype Phase =
    | Started
    | Loaded(row: Option<Row>)
    | Checked
    | Verified
    | Stamped(at: int)
    | Won(at: int)
    | Failed(reason: Reason)

  datatype LoginCall = LoginCall(key: string, challenge: string, signature: string, phase: Phase)

  /**
   `issues` holds every challenge generated so far, by its text; `horizon` is the latest instant by which
   rows have been deleted as expired.
   */
  datatype State = State(rows: Rows, clock: int, horizon: int, issues: map<string, Issue>, logins: map<nat, LoginCall>)

  datatype Step =
    | Tick(now: int)
    | Generate(key: string, challenge: string, ttl: nat)
    | DeleteOld(cutoff: int)
    | Store(challenge: string)
    | Begin(id: nat, key: string, challenge: string, signature: string)
    | Load(id: nat)
    | Check(id: nat)
    | Verify(id: nat)
    | Stamp(id: nat)
    | TryConsume(id: nat, usedAt: int)
    | PurgeOld(now: int, usedCutoff: int)

  type Verifier = (string, string, string) -> bool

  const Init := State(map[], 0, 0, map[], map[])

  /** The clock does not go back, instants are read before they are used, challenges are fresh. */
  predicate Enabled(s: State, step: Step) {
    match step
    case Tick(now) => s.clock <= now
    case Generate(_, challenge, _) => challenge !in s.issues
    case DeleteOld(cutoff) => cutoff <= s.clock
    case Store(challenge) => challenge in s.issues && !s.issues[challenge].stored
    case Begin(id, _, _, _) => id !in s.logins
    case Load(id) => id in s.logins && s.logins[id].phase.Started?
    case Check(id) => id in s.logins && s.logins[id].phase.Loaded?
    case Verify(id) => id in s.logins && s.logins[id].phase.Checked?
    case Stamp(id) => id in s.logins && s.logins[id].phase.Verified?
    case TryConsume(id, usedAt) => id in s.logins && s.logins[id].phase.Stamped? && usedAt <= s.clock
    case PurgeOld(now, usedCutoff) => usedCutoff <= now <= s.clock
  }

  function Moved(s: State, id: nat, phase: Phase): State
    requires id in s.logins
  {
    s.(logins := s.logins[id := s.logins[id].(phase := phase)])
  }

  /** One step; with `deletes` off, the statements that delete rows leave the table alone. */
  function Apply(s: State, step: Step, valid: Verifier, deletes: bool): State
    requires Enabled(s, step)
  {
    match step
    case Tick(now) => s.(clock := now)
    case Generate(key, challenge, ttl) =>
      s.(issues := s.issues[challenge := Issue(key, s.clock + ttl, false)])
    case DeleteOld(cutoff) =>
      s.(rows := if deletes then DeleteExpired(s.rows, cutoff) else s.rows, horizon := Max(s.horizon, cutoff))
    case Store(challenge) =>
      var i := s.issues[challenge];
      s.(rows := Upsert(s.rows, i.key, challenge, i.expiresAt), issues := s.issues[challenge := i.(stored := true)])
    case Begin(id, key, challenge, signature) =>
      s.(logins := s.logins[id := LoginCall(key, challenge, signature, Started)])
    case Load(id) =>
      var key := s.logins[id].key;
      Moved(s, id, Loaded(if key in s.rows then Some(s.rows[key]) else None))
    case Check(id) =>
      var l := s.logins[id];
      Moved(s, id, if Acceptable(l.phase.row, l.challenge, s.clock) then Checked else Failed(BadChallenge))
    case Verify(id) =>
      var l := s.logins[id];
      Moved(s, id, if valid(l.key, l.challenge, l.signature) then Verified else Failed(BadSignature))
    case Stamp(id) => Moved(s, id, Stamped(s.clock))
    case TryConsume(id, usedAt) =>
      var l := s.logins[id];
      if Consumable(s.rows, l.key, l.challenge, l.phase.at)
      then Moved(s.(rows := Consume(s.rows, l.key, l.challenge, l.phase.at, usedAt)), id, Won(l.phase.at))
      else Moved(s, id, Failed(RaceLost))
    case PurgeOld(now, usedCutoff) =>
      s.(rows := if deletes then Purge(s.rows, now, usedCutoff) else s.rows, horizon := Max(s.horizon, now))
  }

  predicate Runs(s: State, steps: seq<Step>, valid: Verifier, deletes: bool)
    decreases |steps|
  {
    steps == [] || (Enabled(s, steps[0]) && Runs(Apply(s, steps[0], valid, deletes), steps[1..], valid, deletes))
  }

  function After(s: State, steps: seq<Step>, valid: Verifier, deletes: bool): State
    requires Runs(s, steps, valid, deletes)
    decreases |steps|
  {
    if steps == [] then s else After(Apply(s, steps[0], valid, deletes), steps[1..], valid, deletes)
  }

  // ---- single use ------------------------------------------------------------------------------------------

  /** The login's challenge was issued to its own key, stored, and taken before it expired. */
  predicate Earned(s: State, id: nat)
    requires id in s.logins && s.logins[id].phase.Won?
  {
    var l := s.logins[id];
    && l.challenge in s.issues
    && s.issues[l.challenge].stored
    && s.issues[l.challenge].key == l.key
    && l.phase.at < s.issues[l.challenge].expiresAt
  }

  predicate IsWinner(s: State, id: nat) {
    id in s.logins && s.logins[id].phase.Won?
  }

  ghost predicate RowsIssued(s: State) {
    forall k :: k in s.rows ==>
      && s.rows[k].challenge in s.issues
      && s.issues[s.rows[k].challenge] == Issue(k, s.rows[k].expiresAt, true)
  }

  ghost predicate WinnersSpent(s: State) {
    forall id, k :: IsWinner(s, id) && k in s.rows && s.rows[k].challenge == s.logins[id].challenge
      ==> s.rows[k].usedAt.Some?
  }

  ghost predicate WinnersEarned(s: State) {
    forall id :: IsWinner(s, id) ==> Earned(s, id)
  }

  ghost predicate WinnersUnique(s: State) {
    forall id, other :: IsWinner(s, id) && IsWinner(s, other) && s.logins[id].challenge == s.logins[other].challenge
      ==> id == other
  }

  predicate PastVerification(p: Phase) {
    p.Verified? || p.Stamped? || p.Won?
  }

  ghost predicate SignaturesValid(s: State, valid: Verifier) {
    forall id :: id in s.logins && PastVerification(s.logins[id].phase)
      ==> valid(s.logins[id].key, s.logins[id].challenge, s.logins[id].signature)
  }

  ghost predicate Inv(s: State, valid: Verifier) {
    RowsIssued(s) && WinnersSpent(s) && WinnersEarned(s) && WinnersUnique(s) && SignaturesValid(s, valid)
  }

  /** A login that has not won moves between phases short of winning. */
  lemma InvMoved(s: State, id: nat, phase: Phase, valid: Verifier)
    requires Inv(s, valid) && id in s.logins && !s.logins[id].phase.Won? && !phase.Won?
    requires PastVerification(phase) ==> valid(s.logins[id].key, s.logins[id].challenge, s.logins[id].signature)
    ensures Inv(Moved(s, id, phase), valid)
  {
    var t := Moved(s, id, phase);
    assert forall i :: IsWinner(t, i) ==> IsWinner(s, i) && t.logins[i] == s.logins[i];
    assert forall i :: IsWinner(t, i) ==> Earned(s, i);
  }

  /** Rows may go. */
  lemma InvFewerRows(s: State, rows: Rows, horizon: int, valid: Verifier)
    requires Inv(s, valid) && forall k :: k in rows ==> k in s.rows && rows[k] == s.rows[k]
    ensures Inv(s.(rows := rows, horizon := horizon), valid)
  {
    var t := s.(rows := rows, horizon := horizon);
    assert forall i :: IsWinner(t, i) ==> IsWinner(s, i);
    assert forall i :: IsWinner(t, i) ==> Earned(s, i);
  }

  lemma InvGenerate(s: State, key: string, challenge: string, expiresAt: int, valid: Verifier)
    requires Inv(s, valid) && challenge !in s.issues
    ensures Inv(s.(issues := s.issues[challenge := Issue(key, expiresAt, false)]), valid)
  {
    var t := s.(issues := s.issues[challenge := Issue(key, expiresAt, false)]);
    assert forall i :: IsWinner(t, i) ==> IsWinner(s, i);
    assert forall i :: IsWinner(t, i) ==> Earned(s, i);
  }

  lemma InvStore(s: State, challenge: string, valid: Verifier)
    requires Inv(s, valid) && challenge in s.issues && !s.issues[challenge].stored
    ensures Inv(Apply(s, Store(challenge), valid, true), valid)
  {
    var t := Apply(s, Store(challenge), valid, true);
    forall i | IsWinner(t, i) ensures Earned(t, i) && s.logins[i].challenge != challenge {
      assert IsWinner(s, i) && Earned(s, i);
    }
  }

  lemma InvWon(s: State, id: nat, usedAt: int, valid: Verifier)
    requires Inv(s, valid) && id in s.logins && s.logins[id].phase.Stamped?
    requires var l := s.logins[id]; Consumable(s.rows, l.key, l.challenge, l.phase.at)
    ensures var l := s.logins[id];
      Inv(Moved(s.(rows := Consume(s.rows, l.key, l.challenge, l.phase.at, usedAt)), id, Won(l.phase.at)), valid)
  {
    var l := s.logins[id];
    var t := Moved(s.(rows := Consume(s.rows, l.key, l.challenge, l.phase.at, usedAt)), id, Won(l.phase.at));
    assert RowsIssued(t);
    forall i | IsWinner(t, i) ensures Earned(t, i) && (i != id ==> t.logins[i].challenge != l.challenge) {
      if i != id {
        assert IsWinner(s, i) && Earned(s, i);
      }
    }
    forall i, k | IsWinner(t, i) && k in t.rows && t.rows[k].challenge == t.logins[i].challenge
      ensures t.rows[k].usedAt.Some?
    {
      if i != id {
        assert IsWinner(s, i);
      } else {
        assert s.rows[k].challenge == l.challenge;
      }
    }
  }

  lemma InvStep(s: State, step: Step, valid: Verifier, deletes: bool)
    requires Inv(s, valid) && Enabled(s, step)
    ensures Inv(Apply(s, step, valid, deletes), valid)
  {
    hide Inv;
    match step
    case Tick(now) => InvTick(s, now, valid);
    case Generate(key, challenge, ttl) => InvGenerate(s, key, challenge, s.clock + ttl, valid);
    case DeleteOld(_) => InvFewerRows(s, Apply(s, step, valid, deletes).rows, Apply(s, step, valid, deletes).horizon, valid);
    case PurgeOld(_, _) => InvFewerRows(s, Apply(s, step, valid, deletes).rows, Apply(s, step, valid, deletes).horizon, valid);
    case Store(challenge) => InvStore(s, challenge, valid);
    case Begin(id, key, challenge, signature) => InvBegin(s, id, LoginCall(key, challenge, signature, Started), valid);
    case Stamp(id) =>
      InvValid(s, id, valid);
      InvMoved(s, id, Stamped(s.clock), valid);
    case TryConsume(id, usedAt) =>
      var l := s.logins[id];
      if Consumable(s.rows, l.key, l.challenge, l.phase.at) {
        InvWon(s, id, usedAt, valid);
      } else {
        InvMoved(s, id, Failed(RaceLost), valid);
      }
    case _ => InvMoved(s, step.id, Apply(s, step, valid, deletes).logins[step.id].phase, valid);
  }

  lemma InvTick(s: State, now: int, valid: Verifier)
    requires Inv(s, valid)
    ensures Inv(s.(clock := now), valid)
  {
    var t := s.(clock := now);
    assert forall i :: IsWinner(t, i) ==> IsWinner(s, i);
    assert forall i :: IsWinner(t, i) ==> Earned(s, i);
  }

  lemma InvBegin(s: State, id: nat, l: LoginCall, valid: Verifier)
    requires Inv(s, valid) && id !in s.logins && l.phase.Started?
    ensures Inv(s.(logins := s.logins[id := l]), valid)
  {
    var t := s.(logins := s.logins[id := l]);
    assert forall i :: IsWinner(t, i) ==> IsWinner(s, i) && t.logins[i] == s.logins[i];
    assert forall i :: IsWinner(t, i) ==> Earned(s, i);
  }

  lemma InvValid(s: State, id: nat, valid: Verifier)
    requires Inv(s, valid) && id in s.logins && s.logins[id].phase.Verified?
    ensures valid(s.logins[id].key, s.logins[id].challenge, s.logins[id].signature)
  {
    assert PastVerification(s.logins[id].phase);
  }

  lemma {:induction false} InvRun(s: State, steps: seq<Step>, valid: Verifier, deletes: bool)
    requires Inv(s, valid) && Runs(s, steps, valid, deletes)
    ensures Inv(After(s, steps, valid, deletes), valid)
    decreases |steps|
  {
    if steps != [] {
      InvStep(s, steps[0], valid, deletes);
      InvRun(Apply(s, steps[0], valid, deletes), steps[1..], valid, deletes);
    }
  }

  /**
   In every interleaving, each challenge is won by at most one login, and only by one for the key it was
   issued to, whose signature verifies, and whose instant of use lies before the expiry.
   */
  lemma SingleUse(steps: seq<Step>, valid: Verifier, id: nat)
    requires Runs(Init, steps, valid, true)
    requires IsWinner(After(Init, steps, valid, true), id)
    ensures var s := After(Init, steps, valid, true);
      var l := s.logins[id];
      && (forall other :: IsWinner(s, other) && s.logins[other].challenge == l.challenge ==> other == id)
      && l.challenge in s.issues
      && s.issues[l.challenge].key == l.key
      && l.phase.at < s.issues[l.challenge].expiresAt
      && valid(l.key, l.challenge, l.signature)
  {
    InvRun(Init, steps, valid, true);
    assert Earned(After(Init, steps, valid, true), id);
  }

  // ---- what a failure means -------------------------------------------------------------------------------

  predicate Truthful(l: LoginCall, valid: Verifier) {
    && (l.phase == Failed(BadSignature) ==> !valid(l.key, l.challenge, l.signature))
    && (l.phase.Verified? || l.phase.Stamped? || l.phase.Won? || l.phase == Failed(RaceLost) ==>
          valid(l.key, l.challenge, l.signature))
  }

  ghost predicate AllTruthful(s: State, valid: Verifier) {
    forall id :: id in s.logins ==> Truthful(s.logins[id], valid)
  }

  lemma TruthfulStep(s: State, step: Step, valid: Verifier, deletes: bool)
    requires AllTruthful(s, valid) && Enabled(s, step)
    ensures AllTruthful(Apply(s, step, valid, deletes), valid)
  {
    var r := Apply(s, step, valid, deletes);
    forall id | id in r.logins ensures Truthful(r.logins[id], valid) {
      if id in s.logins {
        assert Truthful(s.logins[id], valid);
      }
    }
  }

  lemma {:induction false} TruthfulRun(s: State, steps: seq<Step>, valid: Verifier, deletes: bool)
    requires AllTruthful(s, valid) && Runs(s, steps, valid, deletes)
    ensures AllTruthful(After(s, steps, valid, deletes), valid)
    decreases |steps|
  {
    hide AllTruthful, Apply, Enabled;
    if steps != [] {
      TruthfulStep(s, steps[0], valid, deletes);
      TruthfulRun(Apply(s, steps[0], valid, deletes), steps[1..], valid, deletes);
    }
  }

  /**
   In every interleaving a login fails for its signature only if that does not verify, and wins or loses the
   race for its row only if it does.
   */
  lemma FailuresTruthful(steps: seq<Step>, valid: Verifier, deletes: bool, id: nat)
    requires Runs(Init, steps, valid, deletes) && id in After(Init, steps, valid, deletes).logins
    ensures var l := After(Init, steps, valid, deletes).logins[id];
      && (l.phase == Failed(BadSignature) ==> !valid(l.key, l.challenge, l.signature))
      && (l.phase.Won? || l.phase == Failed(RaceLost) ==> valid(l.key, l.challenge, l.signature))
  {
    hide Runs, After;
    TruthfulRun(Init, steps, valid, deletes);
    assert Truthful(After(Init, steps, valid, deletes).logins[id], valid);
  }

  /** What a login answers to is settled step by step: read, checked, verified, stamped, taken. */
  lemma PhasesExactly(s: State, id: nat, usedAt: int, valid: Verifier, deletes: bool)
    requires id in s.logins
    ensures var l := s.logins[id];
      && (l.phase.Started? ==>
            Apply(s, Load(id), valid, deletes).logins[id].phase
              == Loaded(if l.key in s.rows then Some(s.rows[l.key]) else None))
      && (l.phase.Loaded? ==>
            (Apply(s, Check(id), valid, deletes).logins[id].phase == Failed(BadChallenge) <==>
              || l.phase.row.None? || l.phase.row.value.usedAt.Some? || l.phase.row.value.expiresAt <= s.clock
              || l.phase.row.value.challenge != l.challenge))
      && (l.phase.Checked? ==>
            Apply(s, Verify(id), valid, deletes).logins[id].phase
              == if valid(l.key, l.challenge, l.signature) then Verified else Failed(BadSignature))
      && (l.phase.Verified? ==> Apply(s, Stamp(id), valid, deletes).logins[id].phase == Stamped(s.clock))
      && (l.phase.Stamped? && usedAt <= s.clock ==>
            (Apply(s, TryConsume(id, usedAt), valid, deletes).logins[id].phase == Won(l.phase.at) <==>
              && l.key in s.rows && s.rows[l.key].challenge == l.challenge && s.rows[l.key].usedAt.None?
              && l.phase.at < s.rows[l.key].expiresAt))
  {
  }

  // ---- deletions are invisible ---------------------------------------------------------------------------------

  predicate Dead(row: Row, horizon: int) {
    row.usedAt.Some? || row.expiresAt < horizon
  }

  /** Reading no row instead of a dead one makes no difference; losing a row that was deleted does. */
  predicate SamePhase(p: Phase, q: Phase, horizon: int) {
    || p == q
    || (p == Loaded(None) && q.Loaded? && q.row.Some? && Dead(q.row.value, horizon))
    || (p == Failed(RaceLost) && q.Won?)
  }

  /** `s` has deleted rows that `t` still holds, all of them dead; logins may have lost their race over one. */
  ghost predicate Refines(s: State, t: State) {
    && s.clock == t.clock && s.horizon == t.horizon && s.issues == t.issues
    && s.horizon <= s.clock
    && (forall k :: k in s.rows ==> k in t.rows && s.rows[k] == t.rows[k])
    && (forall k :: k in t.rows && k !in s.rows ==> Dead(t.rows[k], s.horizon))
    && s.logins.Keys == t.logins.Keys
    && (forall id :: id in s.logins ==>
          && s.logins[id] == t.logins[id].(phase := s.logins[id].phase)
          && SamePhase(s.logins[id].phase, t.logins[id].phase, s.horizon))
  }

  lemma RefinesRows(s: State, t: State, step: Step, valid: Verifier)
    requires Refines(s, t) && Enabled(s, step)
    requires step.DeleteOld? || step.PurgeOld? || step.Store?
    ensures Enabled(t, step)
    ensures Refines(Apply(s, step, valid, true), Apply(t, step, valid, false))
  {
  }

  lemma RefinesMoved(s: State, t: State, id: nat, p: Phase, q: Phase)
    requires Refines(s, t) && id in s.logins && SamePhase(p, q, s.horizon)
    ensures Refines(Moved(s, id, p), Moved(t, id, q))
  {
  }

  /** Where a row is used up, a store that has deleted it need do nothing. */
  lemma RefinesUsed(s: State, t: State, key: string, row: Row)
    requires Refines(s, t) && key in t.rows && row.usedAt.Some?
    ensures Refines(s.(rows := if key in s.rows then s.rows[key := row] else s.rows), t.(rows := t.rows[key := row]))
  {
  }

  lemma RefinesConsume(s: State, t: State, id: nat, usedAt: int, valid: Verifier)
    requires Refines(s, t) && Enabled(s, TryConsume(id, usedAt))
    ensures Enabled(t, TryConsume(id, usedAt))
    ensures Refines(Apply(s, TryConsume(id, usedAt), valid, true), Apply(t, TryConsume(id, usedAt), valid, false))
  {
    hide Consumable, SamePhase, Refines;
    SameLogins(s, t);
    SameStamp(s, t, id);
    var l := s.logins[id];
    ConsumableRow(s.rows, l.key, l.challenge, l.phase.at);
    ConsumableRow(t.rows, l.key, l.challenge, l.phase.at);
    RefinedConsumable(s, t, l.key, l.challenge, l.phase.at);
    if Consumable(t.rows, l.key, l.challenge, l.phase.at) {
      var row := t.rows[l.key].(usedAt := Some(usedAt));
      var p := if l.key in s.rows then Won(l.phase.at) else Failed(RaceLost);
      RefinesUsed(s, t, l.key, row);
      PhasesRefine(p, Won(l.phase.at), s.horizon);
      RefinesMoved(s.(rows := if l.key in s.rows then s.rows[l.key := row] else s.rows), t.(rows := t.rows[l.key := row]),
                   id, p, Won(l.phase.at));
    } else {
      PhasesRefine(Failed(RaceLost), Failed(RaceLost), s.horizon);
      RefinesMoved(s, t, id, Failed(RaceLost), Failed(RaceLost));
    }
  }

  lemma PhasesRefine(p: Phase, q: Phase, horizon: int)
    requires p == q || (p == Failed(RaceLost) && q.Won?)
    ensures SamePhase(p, q, horizon)
  {
  }

  lemma SameStamp(s: State, t: State, id: nat)
    requires Refines(s, t) && id in s.logins && s.logins[id].phase.Stamped?
    ensures id in t.logins && t.logins[id] == s.logins[id] && s.clock == t.clock
  {
  }

  lemma RefinedConsumable(s: State, t: State, key: string, challenge: string, at: int)
    requires Refines(s, t)
    ensures key in s.rows ==> key in t.rows && s.rows[key] == t.rows[key]
    ensures key in s.rows ==> (Consumable(s.rows, key, challenge, at) <==> Consumable(t.rows, key, challenge, at))
  {
  }

  lemma ConsumableRow(rows: Rows, key: string, challenge: string, at: int)
    ensures Consumable(rows, key, challenge, at) ==> key in rows
  {
  }

  lemma ConsumableSame(rows: Rows, other: Rows, key: string, challenge: string, at: int)
    requires forall k :: k in rows ==> k in other && rows[k] == other[k]
    ensures key in rows ==> (Consumable(rows, key, challenge, at) <==> Consumable(other, key, challenge, at))
  {
  }

  lemma RefinesQuiet(s: State, t: State, step: Step, valid: Verifier)
    requires Refines(s, t) && Enabled(s, step)
    requires step.Tick? || step.Generate? || step.Begin?
    ensures Enabled(t, step)
    ensures Refines(Apply(s, step, valid, true), Apply(t, step, valid, false))
  {
  }

  lemma RefinesPhase(s: State, t: State, step: Step, valid: Verifier)
    requires Refines(s, t) && Enabled(s, step)
    requires step.Load? || step.Check? || step.Verify? || step.Stamp?
    ensures Enabled(t, step)
    ensures Refines(Apply(s, step, valid, true), Apply(t, step, valid, false))
  {
    RefinesMoved(s, t, step.id, Apply(s, step, valid, true).logins[step.id].phase,
                 Apply(t, step, valid, false).logins[step.id].phase);
  }

  lemma RefinesStep(s: State, t: State, step: Step, valid: Verifier)
    requires Refines(s, t) && Enabled(s, step)
    ensures Enabled(t, step)
    ensures Refines(Apply(s, step, valid, true), Apply(t, step, valid, false))
  {
    hide Refines, Apply;
    if step.DeleteOld? || step.PurgeOld? || step.Store? {
      RefinesRows(s, t, step, valid);
    } else if step.TryConsume? {
      RefinesConsume(s, t, step.id, step.usedAt, valid);
    } else if step.Tick? || step.Generate? || step.Begin? {
      RefinesQuiet(s, t, step, valid);
    } else {
      RefinesPhase(s, t, step, valid);
    }
  }

  // ---- when they show -------------------------------------------------------------------------------------

  /** Every login has come to the same point, but for reading no row instead of a dead one. */
  ghost predicate Agree(s: State, t: State) {
    forall id :: id in s.logins && !s.logins[id].phase.Loaded? ==> id in t.logins && s.logins[id] == t.logins[id]
  }

  /** The update finds no row, although the deleted one could still be taken at the instant it carries. */
  predicate Shows(s: State, t: State, step: Step)
    requires Enabled(s, step)
  {
    && step.TryConsume?
    && var l := s.logins[step.id];
       l.key !in s.rows && Consumable(t.rows, l.key, l.challenge, l.phase.at)
  }

  predicate NeverShows(s: State, t: State, steps: seq<Step>, valid: Verifier)
    requires Runs(s, steps, valid, true) && Runs(t, steps, valid, false)
    decreases |steps|
  {
    steps == [] ||
    (&& !Shows(s, t, steps[0])
     && NeverShows(Apply(s, steps[0], valid, true), Apply(t, steps[0], valid, false), steps[1..], valid))
  }

  lemma ConsumeShowsExactly(s: State, t: State, id: nat, usedAt: int, valid: Verifier)
    requires Refines(s, t) && Enabled(s, TryConsume(id, usedAt)) && Enabled(t, TryConsume(id, usedAt))
    ensures Apply(s, TryConsume(id, usedAt), valid, true).logins[id] == Apply(t, TryConsume(id, usedAt), valid, false).logins[id]
       <==> !Shows(s, t, TryConsume(id, usedAt))
  {
    hide Consumable;
    var l := s.logins[id];
    assert t.logins[id] == l;
    ConsumableRow(s.rows, l.key, l.challenge, l.phase.at);
    ConsumableSame(s.rows, t.rows, l.key, l.challenge, l.phase.at);
  }

  predicate Touches(step: Step, id: nat) {
    match step
    case Begin(i, _, _, _) => i == id
    case Load(i) => i == id
    case Check(i) => i == id
    case Verify(i) => i == id
    case Stamp(i) => i == id
    case TryConsume(i, _) => i == id
    case _ => false
  }

  lemma OthersStay(s: State, step: Step, valid: Verifier, deletes: bool, id: nat)
    requires Enabled(s, step) && !Touches(step, id)
    ensures id in Apply(s, step, valid, deletes).logins <==> id in s.logins
    ensures id in s.logins ==> Apply(s, step, valid, deletes).logins[id] == s.logins[id]
  {
  }

  /** A step on a login that is still under way agrees afterwards, unless it shows the deletion. */
  lemma TouchedAgrees(s: State, t: State, step: Step, valid: Verifier, id: nat)
    requires Refines(s, t) && Enabled(s, step) && Enabled(t, step) && Touches(step, id)
    ensures id in s.logins && !s.logins[id].phase.Loaded? ==> s.logins[id] == t.logins[id]
    ensures var (s', t') := (Apply(s, step, valid, true), Apply(t, step, valid, false));
      && id in s'.logins && id in t'.logins
      && (s'.logins[id].phase.Loaded? || (s'.logins[id] == t'.logins[id] <==> !Shows(s, t, step)))
      && (Shows(s, t, step) ==> !s'.logins[id].phase.Loaded?)
  {
    hide Shows;
    if step.TryConsume? {
      ConsumeShowsExactly(s, t, step.id, step.usedAt, valid);
    } else {
      OnlyConsumesShow(s, t, step);
    }
  }

  lemma OnlyConsumesShow(s: State, t: State, step: Step)
    requires Enabled(s, step) && !step.TryConsume?
    ensures !Shows(s, t, step)
  {
  }

  lemma StepAgreesExactly(s: State, t: State, step: Step, valid: Verifier)
    requires Refines(s, t) && Enabled(s, step) && Enabled(t, step)
    ensures Agree(Apply(s, step, valid, true), Apply(t, step, valid, false)) <==> Agree(s, t) && !Shows(s, t, step)
  {
    hide Refines, Apply, Shows, Enabled;
    var s', t' := Apply(s, step, valid, true), Apply(t, step, valid, false);
    assert s.logins.Keys == t.logins.Keys by { SameLogins(s, t); }
    forall id | !Touches(step, id)
      ensures id in s'.logins <==> id in s.logins
      ensures id in s.logins ==> id in s'.logins && s'.logins[id] == s.logins[id] && id in t'.logins && t'.logins[id] == t.logins[id]
    {
      OthersStay(s, step, valid, true, id);
      OthersStay(t, step, valid, false, id);
    }
    forall id | Touches(step, id)
      ensures id in s.logins && !s.logins[id].phase.Loaded? ==> s.logins[id] == t.logins[id]
      ensures id in s'.logins && id in t'.logins
      ensures s'.logins[id].phase.Loaded? || (s'.logins[id] == t'.logins[id] <==> !Shows(s, t, step))
      ensures Shows(s, t, step) ==> !s'.logins[id].phase.Loaded?
    {
      TouchedAgrees(s, t, step, valid, id);
    }
    if Shows(s, t, step) {
      ShownTouches(s, t, step);
      assert Touches(step, step.id);
      assert s'.logins[step.id] != t'.logins[step.id];
    }
  }

  lemma SameLogins(s: State, t: State)
    requires Refines(s, t)
    ensures s.logins.Keys == t.logins.Keys
  {
  }

  lemma ShownTouches(s: State, t: State, step: Step)
    requires Enabled(s, step) && Shows(s, t, step)
    ensures step.TryConsume?
  {
  }

  /**
   Over every run, deleting expired and used challenges leaves the outcome of every login as it is exactly
   when no update misses a row that could still be taken; the run itself is never held up.
   */
  lemma {:induction false} DeletionShowsExactly(s: State, t: State, steps: seq<Step>, valid: Verifier)
    requires Refines(s, t) && Runs(s, steps, valid, true)
    ensures Runs(t, steps, valid, false)
    ensures Refines(After(s, steps, valid, true), After(t, steps, valid, false))
    ensures Agree(After(s, steps, valid, true), After(t, steps, valid, false))
       <==> Agree(s, t) && NeverShows(s, t, steps, valid)
    decreases |steps|
  {
    hide Refines, Apply, Agree, Enabled, Shows;
    if steps != [] {
      RefinesStep(s, t, steps[0], valid);
      StepAgreesExactly(s, t, steps[0], valid);
      DeletionShowsExactly(Apply(s, steps[0], valid, true), Apply(t, steps[0], valid, false), steps[1..], valid);
    }
  }

  // ---- and when they do not -------------------------------------------------------------------------------

  /** No row has been deleted as expired by a later instant than the one the update carries. */
  predicate StampInOrder(s: State, step: Step)
    requires Enabled(s, step)
  {
    step.TryConsume? ==> s.horizon <= s.logins[step.id].phase.at
  }

  predicate StampsInOrder(s: State, steps: seq<Step>, valid: Verifier)
    requires Runs(s, steps, valid, true)
    decreases |steps|
  {
    steps == [] || (StampInOrder(s, steps[0]) && StampsInOrder(Apply(s, steps[0], valid, true), steps[1..], valid))
  }

  lemma InOrderHides(s: State, t: State, step: Step)
    requires Refines(s, t) && Enabled(s, step) && StampInOrder(s, step)
    ensures !Shows(s, t, step)
  {
  }

  lemma {:induction false} InOrderNeverShows(s: State, t: State, steps: seq<Step>, valid: Verifier)
    requires Refines(s, t) && Runs(s, steps, valid, true) && Runs(t, steps, valid, false)
    requires StampsInOrder(s, steps, valid)
    ensures NeverShows(s, t, steps, valid)
    decreases |steps|
  {
    hide Refines, Apply, Enabled, Shows, StampInOrder;
    if steps != [] {
      InOrderHides(s, t, steps[0]);
      RefinesStep(s, t, steps[0], valid);
      InOrderNeverShows(Apply(s, steps[0], valid, true), Apply(t, steps[0], valid, false), steps[1..], valid);
    }
  }

  /**
   From the empty table, deletions change the outcome of no login in any run whose updates carry instants no
   older than the deletions before them.
   */
  lemma DeletionsInvisible(steps: seq<Step>, valid: Verifier)
    requires Runs(Init, steps, valid, true) && StampsInOrder(Init, steps, valid)
    ensures Runs(Init, steps, valid, false)
    ensures Agree(After(Init, steps, valid, true), After(Init, steps, valid, false))
  {
    hide Runs, StampsInOrder;
    DeletionShowsExactly(Init, Init, steps, valid);
    InOrderNeverShows(Init, Init, steps, valid);
  }

  /** A login about to consume its challenge with the instant 0, while the clock is already at 7. */
  function Ready(key: string, challenge: string, signature: string): State {
    State(map[key := Row(challenge, 5, None)], 7, 0, map[challenge := Issue(key, 5, true)],
          map[0 := LoginCall(key, challenge, signature, Stamped(0))])
  }

  function UpToReady(key: string, challenge: string, signature: string): seq<Step> {
    [Generate(key, challenge, 5), Store(challenge), Begin(0, key, challenge, signature), Load(0), Check(0), Verify(0),
     Stamp(0), Tick(7)]
  }

  lemma OneMoreStep(s: State, steps: seq<Step>, i: nat, r: State, valid: Verifier)
    requires i < |steps| && Enabled(s, steps[i]) && Apply(s, steps[i], valid, true) == r
    requires Runs(r, steps[i + 1..], valid, true)
    ensures Runs(s, steps[i..], valid, true)
    ensures After(s, steps[i..], valid, true) == After(r, steps[i + 1..], valid, true)
  {
    hide Enabled, Apply;
    assert steps[i..][0] == steps[i] && steps[i..][1..] == steps[i + 1..];
  }

  /** The states on the way: nothing, generated, stored, begun, loaded, checked, verified, stamped, and late. */
  function OnTheWay(key: string, challenge: string, signature: string, i: nat): State {
    if i == 0 then Init
    else if i == 1 then State(map[], 0, 0, map[challenge := Issue(key, 5, false)], map[])
    else
      var row := Row(challenge, 5, None);
      var stored := State(map[key := row], if i < 8 then 0 else 7, 0, map[challenge := Issue(key, 5, true)], map[]);
      if i == 2 then stored
      else
        var phase := if i == 3 then Started else if i == 4 then Loaded(Some(row)) else if i == 5 then Checked
                     else if i == 6 then Verified else Stamped(0);
        stored.(logins := map[0 := LoginCall(key, challenge, signature, phase)])
  }

  lemma EarlySteps(key: string, challenge: string, signature: string, i: nat, valid: Verifier)
    requires i < 4
    ensures var (s, step) := (OnTheWay(key, challenge, signature, i), UpToReady(key, challenge, signature)[i]);
      Enabled(s, step) && Apply(s, step, valid, true) == OnTheWay(key, challenge, signature, i + 1)
  {
  }

  lemma LateSteps(key: string, challenge: string, signature: string, i: nat, valid: Verifier)
    requires 4 <= i < 8 && valid(key, challenge, signature)
    ensures var (s, step) := (OnTheWay(key, challenge, signature, i), UpToReady(key, challenge, signature)[i]);
      Enabled(s, step) && Apply(s, step, valid, true) == OnTheWay(key, challenge, signature, i + 1)
  {
  }

  lemma {:induction false} WayIsRun(key: string, challenge: string, signature: string, i: nat, valid: Verifier)
    requires i <= 8 && valid(key, challenge, signature)
    ensures var (s, rest) := (OnTheWay(key, challenge, signature, i), UpToReady(key, challenge, signature)[i..]);
      Runs(s, rest, valid, true) && After(s, rest, valid, true) == OnTheWay(key, challenge, signature, 8)
    decreases 8 - i
  {
    hide Runs, After, OnTheWay, Enabled, Apply;
    var steps := UpToReady(key, challenge, signature);
    if i == 8 {
      NoSteps(OnTheWay(key, challenge, signature, 8), steps, valid);
    } else {
      if i < 4 { EarlySteps(key, challenge, signature, i, valid); } else { LateSteps(key, challenge, signature, i, valid); }
      WayIsRun(key, challenge, signature, i + 1, valid);
      OneMoreStep(OnTheWay(key, challenge, signature, i), steps, i, OnTheWay(key, challenge, signature, i + 1), valid);
    }
  }

  lemma ReadyIsReached(key: string, challenge: string, signature: string, valid: Verifier)
    requires valid(key, challenge, signature)
    ensures Runs(Init, UpToReady(key, challenge, signature), valid, true)
    ensures After(Init, UpToReady(key, challenge, signature), valid, true) == Ready(key, challenge, signature)
  {
    hide Runs, After;
    WayIsRun(key, challenge, signature, 0, valid);
    assert UpToReady(key, challenge, signature)[0..] == UpToReady(key, challenge, signature);
  }

  lemma NoSteps(s: State, steps: seq<Step>, valid: Verifier)
    ensures Runs(s, steps[|steps|..], valid, true) && After(s, steps[|steps|..], valid, true) == s
  {
  }

  /** It does happen: a purge between the reading of the clock and the update costs the login. */
  lemma StaleStampLoses(key: string, challenge: string, signature: string, valid: Verifier)
    requires valid(key, challenge, signature)
    ensures Runs(Init, UpToReady(key, challenge, signature), valid, true)
    ensures After(Init, UpToReady(key, challenge, signature), valid, true) == Ready(key, challenge, signature)
    ensures var s := Ready(key, challenge, signature);
      Enabled(s, PurgeOld(7, 0))
      && var (gone, kept) := (Apply(s, PurgeOld(7, 0), valid, true), Apply(s, PurgeOld(7, 0), valid, false));
         && Enabled(gone, TryConsume(0, 7)) && Enabled(kept, TryConsume(0, 7))
         && Apply(gone, TryConsume(0, 7), valid, true).logins[0].phase == Failed(RaceLost)
         && Apply(kept, TryConsume(0, 7), valid, false).logins[0].phase == Won(0)
  {
    ReadyIsReached(key, challenge, signature, valid);
  }
}
