/** The outbound half of the `messages` table: every statement that creates, claims,
    advances or ends an outbound SMS, one atomic function per transaction.

    A missing row makes the source's final read fail with `MessageNotFound`; that is
    the `NotFound` answer here. Owners are the random identifiers of senders and
    workers, times are integers. */
module OutboundStore {
  import opened Wrappers

  type Owner = nat
  type Id = nat

  const LEASE := 90

  datatype Source = Web | Cli
  datatype Status = Sending | Sent | Failed
  datatype Phase = Created | Prepared | SendStarted | Uncertain | Unknown | Complete

  /** What an idempotency key is bound to; stands for its SHA-256 digest. */
  datatype Request = Request(phone: string, body: string, source: Source)

  datatype Row = Row(
    request: Request,
    status: Status,
    phase: Option<Phase>,
    owner: Option<Owner>,
    leaseUntil: Option<int>,
    nextAttemptAt: Option<int>,
    smsPath: Option<string>)

  /** `messageId` is `None` once the message was deleted. */
  datatype KeyEntry = KeyEntry(request: Request, messageId: Option<Id>, created: int)

  datatype Db = Db(rows: map<Id, Row>, nextId: Id, keys: map<string, KeyEntry>)

  datatype CreateOutcome = Inserted(id: Id) | Replayed(id: Id) | Conflict | ReplayUnavailable

  datatype Transition = Applied(row: Row) | OwnershipLost(row: Row) | NotFound

  datatype DeleteError = MessageNotFound | MessageDeleteBlocked

  datatype Claim = Claim(id: Id, row: Row)

  const EMPTY := Db(map[], 0, map[])

  predicate Terminal(status: Status) {
    status != Sending
  }

  predicate LeaseFree(r: Row, now: int) {
    r.owner.None? || r.leaseUntil.None? || r.leaseUntil.value <= now
  }

  predicate Recoverable(phase: Option<Phase>) {
    phase == Some(Created) || phase == Some(Prepared) || phase == Some(SendStarted) || phase == Some(Uncertain)
  }

  predicate Due(r: Row, now: int) {
    && r.status == Sending
    && Recoverable(r.phase)
    && (r.nextAttemptAt.None? || r.nextAttemptAt.value <= now)
    && LeaseFree(r, now)
  }

  predicate EventPending(r: Row, now: int) {
    Terminal(r.status) && r.phase == Some(Complete) && LeaseFree(r, now)
  }

  /** A message may be deleted once nothing can act on it any more. */
  predicate Deletable(r: Row) {
    Terminal(r.status) || r.phase == Some(Unknown)
  }

  function NewRow(request: Request, owner: Owner, now: int): Row {
    Row(request, Sending, Some(Created), Some(owner), Some(now + LEASE), None, None)
  }

  function CreateOrGet(db: Db, request: Request, key: Option<string>, owner: Owner, now: int)
    : (Db, CreateOutcome)
  {
    if key.Some? && key.value in db.keys then
      var entry := db.keys[key.value];
      if entry.request != request then (db, Conflict)
      else if entry.messageId.None? || entry.messageId.value !in db.rows then (db, ReplayUnavailable)
      else (db, Replayed(entry.messageId.value))
    else
      var id := db.nextId;
      var keys := if key.Some? then db.keys[key.value := KeyEntry(request, Some(id), now)] else db.keys;
      (Db(db.rows[id := NewRow(request, owner, now)], id + 1, keys), Inserted(id))
  }

  /** The first row at or after `from` that a recovery worker may claim. */
  function FirstDue(db: Db, from: Id, now: int): (r: Option<Id>)
    ensures r.Some? ==> from <= r.value < db.nextId && r.value in db.rows && Due(db.rows[r.value], now)
    ensures forall i :: from <= i < db.nextId && i in db.rows && Due(db.rows[i], now)
              ==> r.Some? && r.value <= i
    decreases db.nextId - from
  {
    if from >= db.nextId then None
    else if from in db.rows && Due(db.rows[from], now) then Some(from)
    else FirstDue(db, from + 1, now)
  }

  function FirstEvent(db: Db, from: Id, now: int): (r: Option<Id>)
    ensures r.Some? ==> from <= r.value < db.nextId && r.value in db.rows && EventPending(db.rows[r.value], now)
    ensures forall i :: from <= i < db.nextId && i in db.rows && EventPending(db.rows[i], now)
              ==> r.Some? && r.value <= i
    decreases db.nextId - from
  {
    if from >= db.nextId then None
    else if from in db.rows && EventPending(db.rows[from], now) then Some(from)
    else FirstEvent(db, from + 1, now)
  }

  function Put(db: Db, id: Id, r: Row): Db {
    db.(rows := db.rows[id := r])
  }

  function ClaimDue(db: Db, owner: Owner, now: int): (Db, Option<Claim>) {
    var first := FirstDue(db, 0, now);
    if first.None? then (db, None)
    else
      var r := db.rows[first.value].(
        owner := Some(owner), leaseUntil := Some(now + LEASE), nextAttemptAt := None);
      (Put(db, first.value, r), Some(Claim(first.value, r)))
  }

  function ClaimEvent(db: Db, owner: Owner, now: int): (Db, Option<Claim>) {
    var first := FirstEvent(db, 0, now);
    if first.None? then (db, None)
    else
      var r := db.rows[first.value].(owner := Some(owner), leaseUntil := Some(now + LEASE));
      (Put(db, first.value, r), Some(Claim(first.value, r)))
  }

  /** The guard shared by every transition: still sending, and still the caller's. */
  predicate OwnedBy(db: Db, id: Id, owner: Owner) {
    id in db.rows && db.rows[id].status == Sending && db.rows[id].owner == Some(owner)
  }

  function Answer(db: Db, id: Id, applied: bool): Transition {
    if id !in db.rows then NotFound
    else if applied then Applied(db.rows[id])
    else OwnershipLost(db.rows[id])
  }

  function Advance(db: Db, id: Id, owner: Owner, expected: Phase, next: Phase,
                   path: Option<string>, now: int)
    : (Db, Transition)
  {
    if OwnedBy(db, id, owner) && db.rows[id].phase == Some(expected) then
      var r := db.rows[id];
      var updated := Put(db, id, r.(
        phase := Some(next),
        smsPath := if path.Some? then path else r.smsPath,
        nextAttemptAt := None,
        leaseUntil := Some(now + LEASE)));
      (updated, Answer(updated, id, true))
    else (db, Answer(db, id, false))
  }

  function SetPrepared(db: Db, id: Id, owner: Owner, path: string, now: int): (Db, Transition) {
    Advance(db, id, owner, Created, Prepared, Some(path), now)
  }

  function BeginSend(db: Db, id: Id, owner: Owner, now: int): (Db, Transition) {
    Advance(db, id, owner, Prepared, SendStarted, None, now)
  }

  function Defer(db: Db, id: Id, owner: Owner, phase: Phase, retryAfter: Option<int>, now: int)
    : (Db, Transition)
  {
    if OwnedBy(db, id, owner) then
      var updated := Put(db, id, db.rows[id].(
        phase := Some(phase), owner := None, leaseUntil := None,
        nextAttemptAt := if retryAfter.Some? then Some(now + retryAfter.value) else None));
      (updated, Answer(updated, id, true))
    else (db, Answer(db, id, false))
  }

  function Finish(db: Db, id: Id, owner: Owner, status: Status): (Db, Transition) {
    if OwnedBy(db, id, owner) then
      var updated := Put(db, id, db.rows[id].(
        status := status, phase := Some(Complete), nextAttemptAt := None));
      (updated, Answer(updated, id, true))
    else (db, Answer(db, id, false))
  }

  function Renew(db: Db, id: Id, owner: Owner, now: int): Db {
    if OwnedBy(db, id, owner)
    then Put(db, id, db.rows[id].(leaseUntil := Some(now + LEASE)))
    else db
  }

  function Acknowledge(db: Db, id: Id, owner: Owner): Db {
    if id in db.rows && db.rows[id].phase == Some(Complete) && db.rows[id].owner == Some(owner)
    then Put(db, id, db.rows[id].(phase := None, owner := None, leaseUntil := None))
    else db
  }

  /** Deleting a message detaches its idempotency key instead of freeing it. */
  function Delete(db: Db, id: Id): Db {
    if id in db.rows && Deletable(db.rows[id])
    then Db(
      db.rows - {id}, db.nextId,
      map k | k in db.keys :: if db.keys[k].messageId == Some(id)
                              then db.keys[k].(messageId := None) else db.keys[k])
    else db
  }

  /** The first message of the batch that is missing or may not be deleted fails it. */
  function DeleteCheck(db: Db, ids: seq<Id>): Result<(), DeleteError> {
    if ids == [] then Ok(())
    else if ids[0] !in db.rows then Err(MessageNotFound)
    else if !Deletable(db.rows[ids[0]]) then Err(MessageDeleteBlocked)
    else DeleteCheck(db, ids[1..])
  }

  function DeleteEach(db: Db, ids: seq<Id>): Db
    decreases |ids|
  {
    if ids == [] then db else DeleteEach(Delete(db, ids[0]), ids[1..])
  }

  function Detached(e: KeyEntry, ids: seq<Id>): KeyEntry {
    if e.messageId.Some? && e.messageId.value in ids then e.(messageId := None) else e
  }

  function DeleteMany(db: Db, ids: seq<Id>): (Db, Result<(), DeleteError>) {
    var check := DeleteCheck(db, ids);
    (if check.Ok? then DeleteEach(db, ids) else db, check)
  }

  lemma {:induction false} CheckedExactly(db: Db, ids: seq<Id>)
    ensures DeleteCheck(db, ids).Ok? <==> forall i :: 0 <= i < |ids| ==> ids[i] in db.rows && Deletable(db.rows[ids[i]])
  {
    if ids != [] {
      CheckedExactly(db, ids[1..]);
      assert forall i :: 0 <= i < |ids| - 1 ==> ids[1..][i] == ids[i + 1];
    }
  }

  lemma {:induction false} EachIsDeleted(db: Db, ids: seq<Id>)
    requires forall i :: 0 <= i < |ids| && ids[i] in db.rows ==> Deletable(db.rows[ids[i]])
    ensures DeleteEach(db, ids).rows == db.rows - (set id | id in ids)
    ensures DeleteEach(db, ids).nextId == db.nextId
    ensures DeleteEach(db, ids).keys.Keys == db.keys.Keys
    ensures forall k :: k in db.keys && (Detached(db.keys[k], ids) != db.keys[k] ==> db.keys[k].messageId.value in db.rows) ==>
              DeleteEach(db, ids).keys[k] == Detached(db.keys[k], ids)
    decreases |ids|
  {
    if ids != [] {
      EachIsDeleted(Delete(db, ids[0]), ids[1..]);
      assert ids == [ids[0]] + ids[1..];
    }
  }

  /** All or nothing: either every message was there and could be deleted, and then exactly
      these are gone and their keys are detached, or nothing changes. */
  lemma DeletedExactly(db: Db, ids: seq<Id>)
    ensures var (db', r) := DeleteMany(db, ids);
      && (r.Ok? <==> forall i :: 0 <= i < |ids| ==>
            ids[i] in db.rows && (db.rows[ids[i]].status != Sending || db.rows[ids[i]].phase == Some(Unknown)))
      && (r.Err? ==> db' == db)
      && (r.Ok? ==>
            && db'.rows == db.rows - (set id | id in ids) && db'.nextId == db.nextId
            && db'.keys.Keys == db.keys.Keys
            && (forall k :: k in db.keys ==> db'.keys[k] == Detached(db.keys[k], ids)))
  {
    CheckedExactly(db, ids);
    if DeleteCheck(db, ids).Ok? {
      EachIsDeleted(db, ids);
      assert forall id :: id in ids ==> id in db.rows;
    }
  }

  /** Retention deletes a finished message together with its idempotency key. */
  function Retire(db: Db, id: Id): Db {
    if id in db.rows && Terminal(db.rows[id].status)
    then Db(db.rows - {id}, db.nextId, map k | k in db.keys && db.keys[k].messageId != Some(id) :: db.keys[k])
    else db
  }

  /** Keys whose message is gone are forgotten after a while, and may then be used again. */
  function PruneKeys(db: Db, cutoff: int): Db {
    db.(keys := map k | k in db.keys && !(db.keys[k].messageId.None? && db.keys[k].created < cutoff) :: db.keys[k])
  }

  lemma KeysGo(keys: map<string, KeyEntry>, gone: set<string>)
    requires gone <= keys.Keys
    ensures keys.Keys - (keys - gone).Keys == gone
  {
  }

  /** What retention takes: an ended message with its key, and old keys whose message is gone. */
  lemma RetentionExactly(db: Db, id: Id, cutoff: int, k: string)
    ensures Retire(db, id).rows == (if id in db.rows && db.rows[id].status != Sending then db.rows - {id} else db.rows)
    ensures k in Retire(db, id).keys <==>
              k in db.keys && !(id in db.rows && db.rows[id].status != Sending && db.keys[k].messageId == Some(id))
    ensures k in Retire(db, id).keys ==> Retire(db, id).keys[k] == db.keys[k]
    ensures PruneKeys(db, cutoff).rows == db.rows
    ensures k in PruneKeys(db, cutoff).keys <==>
              k in db.keys && (db.keys[k].messageId.Some? || db.keys[k].created >= cutoff)
    ensures k in PruneKeys(db, cutoff).keys ==> PruneKeys(db, cutoff).keys[k] == db.keys[k]
  {
  }

  /** The table itself, updated in place by one transaction at a time. */
  class OutboundTable {
    var rows: map<Id, Row>
    var nextId: Id
    var keys: map<string, KeyEntry>

    function Contents(): Db
      reads this
    {
      Db(rows, nextId, keys)
    }

    constructor ()
      ensures Contents() == EMPTY
    {
      rows, nextId, keys := map[], 0, map[];
    }

    method CreateOrGetOutbound(request: Request, key: Option<string>, owner: Owner, now: int)
      returns (outcome: CreateOutcome)
      modifies this
      ensures (Contents(), outcome) == CreateOrGet(old(Contents()), request, key, owner, now)
    {
      if key.Some? && key.value in keys {
        var entry := keys[key.value];
        if entry.request != request {
          return Conflict;
        }
        if entry.messageId.None? || entry.messageId.value !in rows {
          return ReplayUnavailable;
        }
        return Replayed(entry.messageId.value);
      }
      var id := nextId;
      nextId := nextId + 1;
      rows := rows[id := Row(request, Sending, None, None, None, None, None)];
      rows := rows[id := rows[id].(
        phase := Some(Created), owner := Some(owner), leaseUntil := Some(now + LEASE),
        nextAttemptAt := None)];
      assert rows == old(rows)[id := NewRow(request, owner, now)];
      if key.Some? {
        keys := keys[key.value := KeyEntry(request, Some(id), now)];
      }
      outcome := Inserted(id);
    }

    method ClaimDueOutbound(owner: Owner, now: int) returns (claim: Option<Claim>)
      modifies this`rows
      ensures (Contents(), claim) == ClaimDue(old(Contents()), owner, now)
    {
      var id := 0;
      while id < nextId && !(id in rows && Due(rows[id], now))
        invariant FirstDue(Contents(), 0, now) == FirstDue(Contents(), id, now)
        invariant Contents() == old(Contents())
      {
        id := id + 1;
      }
      if id >= nextId {
        return None;
      }
      rows := rows[id := rows[id].(
        owner := Some(owner), leaseUntil := Some(now + LEASE), nextAttemptAt := None)];
      claim := Some(Claim(id, rows[id]));
    }

    method ClaimPendingOutboundEvent(owner: Owner, now: int) returns (claim: Option<Claim>)
      modifies this`rows
      ensures (Contents(), claim) == ClaimEvent(old(Contents()), owner, now)
    {
      var id := 0;
      while id < nextId && !(id in rows && EventPending(rows[id], now))
        invariant FirstEvent(Contents(), 0, now) == FirstEvent(Contents(), id, now)
        invariant Contents() == old(Contents())
      {
        id := id + 1;
      }
      if id >= nextId {
        return None;
      }
      rows := rows[id := rows[id].(owner := Some(owner), leaseUntil := Some(now + LEASE))];
      claim := Some(Claim(id, rows[id]));
    }

    method TransitionOutbound(id: Id, owner: Owner, expected: Phase, next: Phase,
                              path: Option<string>, now: int)
      returns (t: Transition)
      modifies this`rows
      ensures (Contents(), t) == Advance(old(Contents()), id, owner, expected, next, path, now)
    {
      var changed := false;
      if id in rows {
        var r := rows[id];
        if r.status == Sending && r.owner == Some(owner) && r.phase == Some(expected) {
          var newPath := if path.Some? then path else r.smsPath;
          rows := rows[id := Row(
            r.request, r.status, Some(next), r.owner, Some(now + LEASE), None, newPath)];
          changed := true;
        }
      }
      t := Answer(Contents(), id, changed);
    }

    method SetOutboundPrepared(id: Id, owner: Owner, path: string, now: int) returns (t: Transition)
      modifies this`rows
      ensures (Contents(), t) == SetPrepared(old(Contents()), id, owner, path, now)
    {
      t := TransitionOutbound(id, owner, Created, Prepared, Some(path), now);
    }

    method BeginOutboundSend(id: Id, owner: Owner, now: int) returns (t: Transition)
      modifies this`rows
      ensures (Contents(), t) == BeginSend(old(Contents()), id, owner, now)
    {
      t := TransitionOutbound(id, owner, Prepared, SendStarted, None, now);
    }

    method DeferOutbound(id: Id, owner: Owner, phase: Phase, retryAfter: Option<int>, now: int)
      returns (t: Transition)
      modifies this`rows
      ensures (Contents(), t) == Defer(old(Contents()), id, owner, phase, retryAfter, now)
    {
      var nextAttemptAt := match retryAfter case None => None case Some(d) => Some(now + d);
      var changed := false;
      if id in rows {
        var r := rows[id];
        if r.status == Sending && r.owner == Some(owner) {
          rows := rows[id := Row(
            r.request, r.status, Some(phase), None, None, nextAttemptAt, r.smsPath)];
          changed := true;
        }
      }
      t := Answer(Contents(), id, changed);
    }

    method FinishClaimedOutbound(id: Id, owner: Owner, status: Status) returns (t: Transition)
      modifies this`rows
      ensures (Contents(), t) == Finish(old(Contents()), id, owner, status)
    {
      var changed := false;
      if id in rows {
        var r := rows[id];
        if r.status == Sending && r.owner == Some(owner) {
          rows := rows[id := Row(
            r.request, status, Some(Complete), r.owner, r.leaseUntil, None, r.smsPath)];
          changed := true;
        }
      }
      t := Answer(Contents(), id, changed);
    }

    method AcknowledgeOutboundEvent(id: Id, owner: Owner) returns (changed: bool)
      modifies this`rows
      ensures Contents() == Acknowledge(old(Contents()), id, owner)
      ensures changed <==> old(id in rows && rows[id].phase == Some(Complete) && rows[id].owner == Some(owner))
    {
      changed := id in rows && rows[id].phase == Some(Complete) && rows[id].owner == Some(owner);
      if changed {
        rows := rows[id := rows[id].(phase := None, owner := None, leaseUntil := None)];
      }
    }

    method RenewOutboundLease(id: Id, owner: Owner, now: int) returns (changed: bool)
      modifies this`rows
      ensures Contents() == Renew(old(Contents()), id, owner, now)
      ensures changed <==> old(OwnedBy(Contents(), id, owner))
    {
      changed := id in rows && rows[id].status == Sending && rows[id].owner == Some(owner);
      if changed {
        rows := rows[id := rows[id].(leaseUntil := Some(now + LEASE))];
      }
    }

    /** `ON DELETE SET NULL` detaches the key. */
    method DeleteMessages(ids: seq<Id>) returns (r: Result<(), DeleteError>)
      modifies this
      ensures (Contents(), r) == DeleteMany(old(Contents()), ids)
    {
      for i := 0 to |ids|
        invariant Contents() == old(Contents()) && DeleteCheck(Contents(), ids) == DeleteCheck(Contents(), ids[i..])
      {
        if ids[i] !in rows { return Err(MessageNotFound); }
        if rows[ids[i]].status == Sending && rows[ids[i]].phase != Some(Unknown) { return Err(MessageDeleteBlocked); }
        assert ids[i..][1..] == ids[i + 1..];
      }
      CheckedExactly(Contents(), ids);
      for i := 0 to |ids|
        invariant DeleteEach(old(Contents()), ids) == DeleteEach(Contents(), ids[i..])
        invariant forall id :: id in rows && id in ids ==> Deletable(rows[id])
      {
        assert ids[i..][1..] == ids[i + 1..];
        ghost var before := Contents();
        if ids[i] in rows {
          rows := rows - {ids[i]};
          keys := map k | k in keys :: if keys[k].messageId == Some(ids[i])
                                       then keys[k].(messageId := None) else keys[k];
        }
        assert Contents() == Delete(before, ids[i]);
      }
      r := Ok(());
    }

    /** One iteration of the retention loop. */
    method RetireMessage(id: Id) returns (deleted: bool)
      modifies this
      ensures Contents() == Retire(old(Contents()), id)
      ensures deleted <==> old(id in rows && Terminal(rows[id].status))
    {
      deleted := id in rows && (rows[id].status == Sent || rows[id].status == Failed);
      if deleted {
        keys := keys - set k | k in keys && keys[k].messageId == Some(id);
        rows := rows - {id};
      }
    }

    method PruneOutboundIdempotency(cutoff: int) returns (count: nat)
      modifies this
      ensures Contents() == PruneKeys(old(Contents()), cutoff)
      ensures count == |old(keys).Keys - keys.Keys|
    {
      var expired := set k | k in keys && keys[k].messageId.None? && keys[k].created < cutoff;
      KeysGo(keys, expired);
      count := |expired|;
      keys := keys - expired;
    }
  }
}
