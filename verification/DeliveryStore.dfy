/** The forwarding queue in the database: leased batch claims, completions guarded by
    the lease token, recovery of expired leases, and the attempt samples that are
    written in the same transaction as a completion.

    A stored time is `Malformed` when `julianday` yields NULL for it. */
module DeliveryStore {
  import opened Wrappers
  import opened AttemptSamples

  type Id = nat
  type Token = nat

  datatype Stamp = At(time: int) | Malformed

  datatype State = Pending | InFlight | RetryWait | Succeeded | PermanentFailed

  datatype Row = Row(
    messageId: nat,
    profile: string,
    state: State,
    attempts: nat,
    next: Option<Stamp>,
    lease: Option<Stamp>,
    token: Option<Token>,
    created: Stamp)

  /** What a worker needs to complete the delivery it claimed. */
  datatype Handle = Handle(id: Id, profile: string, attempts: nat, token: Token)

  datatype Claimed = Claimed(messageId: nat, next: Option<Stamp>, created: Stamp, handle: Handle)

  datatype Disposition = Success | RetryAt(time: int) | PermanentFailure

  type Rows = map<Id, Row>

  predicate Waiting(r: Row) {
    r.state == Pending || r.state == RetryWait
  }

  predicate Terminal(r: Row) {
    r.state == Succeeded || r.state == PermanentFailed
  }

  predicate LeaseExpired(r: Row, now: int) {
    r.state == InFlight && r.lease.Some? && r.lease.value.At? && r.lease.value.time <= now
  }

  function Recovered(r: Row, now: int): Row {
    if LeaseExpired(r, now)
    then r.(state := RetryWait, lease := None, token := None, next := Some(At(now)))
    else r
  }

  function RecoverAll(rows: Rows, now: int): Rows {
    map id | id in rows :: Recovered(rows[id], now)
  }

  /** A row whose lease is over waits again, due at once; any other row stays as it is. */
  lemma RecoveredExactly(rows: Rows, now: int, id: Id)
    requires id in rows
    ensures var r := rows[id];
      RecoverAll(rows, now)[id] ==
        (if r.state == InFlight && r.lease.Some? && r.lease.value.At? && r.lease.value.time <= now
         then Row(r.messageId, r.profile, RetryWait, r.attempts, Some(At(now)), None, None, r.created) else r)
  {
  }

  predicate Claimable(r: Row, now: int) {
    Waiting(r) && (r.next.None? || r.next.value.Malformed? || r.next.value.time <= now)
  }

  /** `COALESCE(next_attempt_at, created_at)`. */
  function DueAt(r: Row): Stamp {
    if r.next.Some? then r.next.value else r.created
  }

  /** `ORDER BY julianday(due) ASC, id ASC`, where NULL comes first. */
  predicate Before(rows: Rows, i: Id, j: Id)
    requires i in rows && j in rows
  {
    var (a, b) := (DueAt(rows[i]), DueAt(rows[j]));
    match (a, b)
    case (Malformed, Malformed) => i < j
    case (Malformed, At(_)) => true
    case (At(_), Malformed) => false
    case (At(s), At(t)) => s < t || (s == t && i < j)
  }

  lemma BeforeIsTransitive(rows: Rows, i: Id, j: Id, k: Id)
    requires i in rows && j in rows && k in rows
    requires Before(rows, i, j) && Before(rows, j, k)
    ensures Before(rows, i, k)
  {
  }

  function DueIds(rows: Rows, now: int): set<Id> {
    set id | id in rows && Claimable(rows[id], now)
  }

  /** `batch` is the first `limit` due rows in queue order. */
  ghost predicate IsBatch(rows: Rows, now: int, limit: nat, batch: set<Id>) {
    && batch <= DueIds(rows, now)
    && |batch| <= limit
    && (|batch| < limit ==> batch == DueIds(rows, now))
    && (forall i, j :: i in batch && j in DueIds(rows, now) - batch ==> Before(rows, i, j))
  }

  /** A row outside a batch comes after all rows in it: rows whose due time cannot be read first,
      then the earlier ones, and at the same time the older ones. */
  lemma BatchGoesFirst(rows: Rows, now: int, limit: nat, batch: set<Id>, i: Id, j: Id)
    requires IsBatch(rows, now, limit, batch) && i in batch && j in DueIds(rows, now) - batch
    ensures match (DueAt(rows[i]), DueAt(rows[j]))
            case (Malformed, Malformed) => i < j
            case (Malformed, At(_)) => true
            case (At(_), Malformed) => false
            case (At(s), At(t)) => s < t || (s == t && i < j)
  {
    assert Before(rows, i, j);
  }

  function Leased(r: Row, until: int, token: Token): Row {
    r.(state := InFlight, lease := Some(At(until)), token := Some(token))
  }

  /** The table after a claim of `batch`, which was picked after recovery. */
  function ClaimBatch(rows: Rows, now: int, leaseFor: int, token: Token, batch: set<Id>): Rows {
    var recovered := RecoverAll(rows, now);
    map id | id in recovered ::
      if id in batch then Leased(recovered[id], now + leaseFor, token) else recovered[id]
  }

  lemma LeasedIsClaimed(before: Rows, now: int, leaseFor: int, token: Token, batch: set<Id>, after: Rows)
    requires batch <= DueIds(RecoverAll(before, now), now)
    requires forall id :: id in before ==> before[id].token != Some(token)
    requires after.Keys == before.Keys
    requires forall id :: id in after ==>
               after[id] == (if id in batch then Leased(RecoverAll(before, now)[id], now + leaseFor, token)
                             else RecoverAll(before, now)[id])
    ensures after == ClaimBatch(before, now, leaseFor, token, batch)
    ensures forall id :: id in batch <==> id in after && after[id].token == Some(token)
  {
  }

  function ClaimedRow(rows: Rows, id: Id, token: Token): Claimed
    requires id in rows
  {
    var r := rows[id];
    Claimed(r.messageId, r.next, r.created, Handle(id, r.profile, r.attempts, token))
  }

  ghost predicate Listed(claimed: seq<Claimed>, id: Id) {
    exists i :: 0 <= i < |claimed| && claimed[i].handle.id == id
  }

  /** `claimed` is the part of the batch below `n`, as it is stored, in the order of the ids. */
  ghost predicate IsReading(rows: Rows, token: Token, batch: set<Id>, claimed: seq<Claimed>, n: Id) {
    && (forall i :: 0 <= i < |claimed| ==> IsClaimed(rows, token, batch, claimed[i], n))
    && (forall id :: id in batch && id < n ==> Listed(claimed, id))
    && (forall i, j :: 0 <= i < j < |claimed| ==> claimed[i].handle.id < claimed[j].handle.id)
  }

  ghost predicate IsClaimed(rows: Rows, token: Token, batch: set<Id>, c: Claimed, n: Id) {
    c.handle.id in batch && c.handle.id < n && c.handle.id in rows && c == ClaimedRow(rows, c.handle.id, token)
  }

  lemma ReadOneMore(rows: Rows, token: Token, batch: set<Id>, claimed: seq<Claimed>, n: Id)
    requires IsReading(rows, token, batch, claimed, n) && n in batch && n in rows
    ensures IsReading(rows, token, batch, claimed + [ClaimedRow(rows, n, token)], n + 1)
  {
    var more := claimed + [ClaimedRow(rows, n, token)];
    assert more[|claimed|].handle.id == n;
    forall i | 0 <= i < |more| ensures IsClaimed(rows, token, batch, more[i], n + 1) {
      assert i < |claimed| ==> IsClaimed(rows, token, batch, claimed[i], n);
    }
    forall id | id in batch && id < n + 1 ensures Listed(more, id) {
      if id < n {
        var i :| 0 <= i < |claimed| && claimed[i].handle.id == id;
        assert more[i].handle.id == id;
      }
    }
  }

  function NextState(d: Disposition): State {
    match d
    case Success => Succeeded
    case RetryAt(_) => RetryWait
    case PermanentFailure => PermanentFailed
  }

  predicate Holds(rows: Rows, h: Handle) {
    h.id in rows && rows[h.id].state == InFlight && rows[h.id].token == Some(h.token)
  }

  function Completed(r: Row, h: Handle, d: Disposition): Row {
    r.(state := NextState(d), attempts := h.attempts + 1,
       next := if d.RetryAt? then Some(At(d.time)) else None,
       lease := None, token := None)
  }

  /** Applied if and only if the row is still held under the handle's token. */
  function Complete(rows: Rows, h: Handle, d: Disposition): Rows {
    if Holds(rows, h) then rows[h.id := Completed(rows[h.id], h, d)] else rows
  }

  /** How a completion leaves the row of its handle, and that it touches no other. */
  ghost predicate EndsAs(before: Rows, after: Rows, h: Handle, state: State, next: Option<Stamp>) {
    && h.id in before && after.Keys == before.Keys
    && (forall id :: id in before && id != h.id ==> after[id] == before[id])
    && after[h.id] == Row(before[h.id].messageId, before[h.id].profile, state, h.attempts + 1, next, None, None,
                          before[h.id].created)
  }

  /** A held row ends as it was completed, or waits until exactly the given time; without the
      lease nothing changes. */
  lemma CompletedExactly(rows: Rows, h: Handle, t: int, now: int, d: Disposition)
    ensures Holds(rows, h) ==>
      && EndsAs(rows, Complete(rows, h, Success), h, Succeeded, None)
      && EndsAs(rows, Complete(rows, h, PermanentFailure), h, PermanentFailed, None)
      && EndsAs(rows, Complete(rows, h, RetryAt(t)), h, RetryWait, Some(At(t)))
      && (Claimable(Complete(rows, h, RetryAt(t))[h.id], now) <==> t <= now)
    ensures !Holds(rows, h) ==> Complete(rows, h, d) == rows
  {
  }

  /** The earliest readable due time among waiting rows. */
  ghost predicate IsNextDue(rows: Rows, due: Option<int>) {
    && (due.Some? ==> exists id :: id in rows && Waiting(rows[id]) && DueAt(rows[id]) == At(due.value))
    && (forall id :: id in rows && Waiting(rows[id]) && DueAt(rows[id]).At? ==>
          due.Some? && due.value <= DueAt(rows[id]).time)
  }

  ghost predicate ValidTable(rows: Rows, nextId: Id, samples: set<Sample>, nextSampleId: nat) {
    && (forall id :: id in rows ==> id < nextId)
    && Identified(samples, nextSampleId)
  }

  class DeliveryTable {
    var rows: Rows
    var nextId: Id
    var samples: set<Sample>
    var nextSampleId: nat

    ghost predicate Valid()
      reads this
    {
      ValidTable(rows, nextId, samples, nextSampleId)
    }

    constructor ()
      ensures Valid() && rows == map[] && samples == {}
    {
      rows, nextId, samples, nextSampleId := map[], 0, {}, 0;
    }

    method InsertDelivery(messageId: nat, profile: string, created: Stamp) returns (id: Id)
      requires Valid()
      modifies this`rows, this`nextId
      ensures Valid() && id == old(nextId) && nextId == id + 1
      ensures rows == old(rows)[id := Row(messageId, profile, Pending, 0, None, None, None, created)]
    {
      id := nextId;
      rows := rows[id := Row(messageId, profile, Pending, 0, None, None, None, created)];
      nextId := nextId + 1;
    }

    method RecoverExpiredLeases(now: int) returns (count: nat)
      requires Valid()
      modifies this`rows
      ensures Valid() && rows == RecoverAll(old(rows), now)
      ensures count == |set id | id in old(rows) && LeaseExpired(old(rows)[id], now)|
    {
      var expired := set id | id in rows && LeaseExpired(rows[id], now);
      count := |expired|;
      rows := map id | id in rows ::
        if id in expired
        then rows[id].(state := RetryWait, lease := None, token := None, next := Some(At(now)))
        else rows[id];
    }

    /** The first of `due` in queue order. */
    method FirstInOrder(due: set<Id>) returns (first: Id)
      requires Valid() && due != {} && due <= rows.Keys
      ensures first in due && forall j :: j in due && j != first ==> Before(rows, first, j)
    {
      first :| first in due;
      var rest := due - {first};
      while rest != {}
        invariant rest <= due && first in due && first !in rest
        invariant forall j :: j in due - rest && j != first ==> Before(rows, first, j)
        decreases rest
      {
        var id :| id in rest;
        if Before(rows, id, first) {
          forall j | j in due - rest && j != first ensures Before(rows, id, j) {
            BeforeIsTransitive(rows, id, first, j);
          }
          first := id;
        }
        rest := rest - {id};
      }
    }

    method ClaimDueDeliveries(now: int, leaseFor: int, limit: nat, token: Token)
      returns (claimed: seq<Claimed>, ghost batch: set<Id>)
      requires Valid()
      requires forall id :: id in rows ==> rows[id].token != Some(token)
      modifies this`rows
      ensures Valid()
      ensures IsBatch(RecoverAll(old(rows), now), now, limit, batch)
      ensures rows == ClaimBatch(old(rows), now, leaseFor, token, batch)
      ensures IsReading(rows, token, batch, claimed, nextId)
    {
      var count := RecoverExpiredLeases(now);
      var picked := PickDue(now, limit);
      batch := picked;
      LeaseRows(picked, now + leaseFor, token);
      LeasedIsClaimed(old(rows), now, leaseFor, token, batch, rows);
      claimed := ReadClaimed(token, batch);
    }

    /** The picked rows get the lease and the token, one after the other. */
    method LeaseRows(picked: set<Id>, until: int, token: Token)
      requires picked <= rows.Keys
      modifies this`rows
      ensures rows.Keys == old(rows).Keys
      ensures forall id :: id in rows ==>
                rows[id] == (if id in picked then Leased(old(rows)[id], until, token) else old(rows)[id])
    {
      var todo := picked;
      while todo != {}
        invariant todo <= picked && rows.Keys == old(rows).Keys
        invariant forall id :: id in rows ==>
                    rows[id] == (if id in picked - todo then Leased(old(rows)[id], until, token) else old(rows)[id])
        decreases todo
      {
        var id :| id in todo;
        rows := rows[id := rows[id].(state := InFlight, lease := Some(At(until)), token := Some(token))];
        todo := todo - {id};
      }
    }

    /** `SELECT ... ORDER BY julianday(due), id LIMIT ?`. */
    method PickDue(now: int, limit: nat) returns (picked: set<Id>)
      requires Valid()
      ensures IsBatch(rows, now, limit, picked)
    {
      var due := DueIds(rows, now);
      picked := {};
      while |picked| < limit && picked != due
        invariant picked <= due && |picked| <= limit
        invariant forall i, j :: i in picked && j in due - picked ==> Before(rows, i, j)
        decreases due - picked
      {
        var id := FirstInOrder(due - picked);
        picked := picked + {id};
      }
    }

    /** `SELECT ... WHERE lease_token = ? ORDER BY id`. */
    method ReadClaimed(token: Token, ghost batch: set<Id>) returns (claimed: seq<Claimed>)
      requires Valid()
      requires forall id :: id in batch <==> id in rows && rows[id].token == Some(token)
      ensures IsReading(rows, token, batch, claimed, nextId)
    {
      claimed := [];
      for id := 0 to nextId
        invariant IsReading(rows, token, batch, claimed, id)
      {
        if id in rows && rows[id].token == Some(token) {
          ReadOneMore(rows, token, batch, claimed, id);
          claimed := claimed + [ClaimedRow(rows, id, token)];
        }
      }
    }

    method CompleteDelivery(h: Handle, d: Disposition) returns (applied: bool)
      requires Valid()
      modifies this`rows
      ensures Valid() && rows == Complete(old(rows), h, d)
      ensures applied == old(Holds(rows, h))
    {
      applied := h.id in rows && rows[h.id].state == InFlight && rows[h.id].token == Some(h.token);
      if applied {
        var r := rows[h.id];
        var next := match d case RetryAt(t) => Some(At(t)) case _ => None;
        rows := rows[h.id := Row(
          r.messageId, r.profile, NextState(d), h.attempts + 1, next, None, None, r.created)];
      }
    }

    /** The sample is recorded whether or not the lease was still held. */
    method CompleteDeliveryWithAttempt(h: Handle, d: Disposition, completedAt: int, success: bool)
      returns (applied: bool)
      requires Valid()
      modifies this`rows, this`samples, this`nextSampleId
      ensures Valid() && rows == Complete(old(rows), h, d)
      ensures applied == old(Holds(rows, h))
      ensures nextSampleId == old(nextSampleId) + 1
      ensures samples == Record(old(samples),
                Sample(old(nextSampleId), h.profile, h.id, h.attempts + 1, completedAt, success))
    {
      var sample := Sample(nextSampleId, h.profile, h.id, h.attempts + 1, completedAt, success);
      samples := samples + {sample};
      nextSampleId := nextSampleId + 1;
      PruneForwardAttempts(h.profile);
      applied := CompleteDelivery(h, d);
    }

    method PruneForwardAttempts(profile: string)
      requires Identified(samples, nextSampleId)
      modifies this`samples
      ensures samples == Pruned(old(samples), profile)
    {
      var ordered := ListForwardAttempts(profile, |samples|);
      ghost var before := samples;
      forall x | x in before && x.profile == profile ensures x in ordered {
        Cardinality(NewerIn(before, x), before - {x});
      }
      var i := KEPT;
      while i < |ordered|
        invariant KEPT <= i
        invariant samples == set x | x in before && !(x.profile == profile && KEPT <= Rank(before, x) < i)
      {
        samples := samples - {ordered[i]};
        forall x | x in before && x.profile == profile && Rank(before, x) == i ensures x == ordered[i] {
          RankIsUnique(before, x, ordered[i]);
        }
        i := i + 1;
      }
      forall x | x in before && x.profile == profile ensures Rank(before, x) < |ordered| {
        var k :| 0 <= k < |ordered| && ordered[k] == x;
      }
    }

    /** The newest of `candidates`, all of one profile. */
    method NewestOf(candidates: set<Sample>) returns (newest: Sample)
      requires Identified(samples, nextSampleId) && candidates != {} && candidates <= samples
      ensures newest in candidates && forall y :: y in candidates && y != newest ==> Newer(newest, y)
    {
      newest :| newest in candidates;
      var todo := candidates - {newest};
      while todo != {}
        invariant todo <= candidates && newest in candidates && newest !in todo
        invariant forall y :: y in candidates - todo && y != newest ==> Newer(newest, y)
        decreases todo
      {
        var y :| y in todo;
        assert y in samples && newest in samples && y.id != newest.id;
        if Newer(y, newest) {
          forall z | z in candidates - todo && z != newest ensures Newer(y, z) {
            assert Newer(newest, z);
          }
          newest := y;
        }
        todo := todo - {y};
      }
    }

    method ListForwardAttempts(profile: string, limit: nat) returns (r: seq<Sample>)
      requires Identified(samples, nextSampleId)
      ensures IsListing(samples, profile, limit, r)
    {
      r := [];
      var rest := set x | x in samples && x.profile == profile;
      while |r| < limit && rest != {}
        invariant |r| <= limit
        invariant forall x :: x in rest <==> x in samples && x.profile == profile && x !in r
        invariant forall i :: 0 <= i < |r| ==> r[i] in samples && r[i].profile == profile && Rank(samples, r[i]) == i
        invariant forall x, y :: x in rest && y in r ==> Newer(y, x)
        decreases rest
      {
        var newest := NewestOf(rest);
        ListedRank(samples, r, newest);
        r := r + [newest];
        rest := rest - {newest};
      }
      forall x | x in samples && x.profile == profile && Rank(samples, x) < limit ensures x in r {
        if x in rest { BelowListed(samples, r, x); }
      }
    }

    method NextDeliveryDueAt() returns (due: Option<int>)
      requires Valid()
      ensures IsNextDue(rows, due)
    {
      due := None;
      for id := 0 to nextId
        invariant due.Some? ==> exists k :: k in rows && Waiting(rows[k]) && DueAt(rows[k]) == At(due.value)
        invariant forall k :: 0 <= k < id && k in rows && Waiting(rows[k]) && DueAt(rows[k]).At? ==>
                    due.Some? && due.value <= DueAt(rows[k]).time
      {
        if id in rows && Waiting(rows[id]) && DueAt(rows[id]).At?
           && (due.None? || DueAt(rows[id]).time < due.value)
        {
          due := Some(DueAt(rows[id]).time);
          assert id in rows && Waiting(rows[id]) && DueAt(rows[id]) == At(due.value);
        }
      }
    }
  }

  // ---------- Ranks along a listing ----------

  lemma RankIsUnique(samples: set<Sample>, x: Sample, y: Sample)
    requires x in samples && y in samples && x.profile == y.profile && Rank(samples, x) == Rank(samples, y)
    requires x.id == y.id ==> x == y
    ensures x == y
  {
    if Newer(x, y) { NewerHasLowerRank(samples, y, x); }
    if Newer(y, x) { NewerHasLowerRank(samples, x, y); }
  }

  ghost predicate ListedSoFar(samples: set<Sample>, r: seq<Sample>, x: Sample) {
    && x in samples
    && (forall i :: 0 <= i < |r| ==> r[i] in samples && r[i].profile == x.profile && Rank(samples, r[i]) == i)
    && (forall y :: y in r ==> Newer(y, x))
  }

  lemma ListedRank(samples: set<Sample>, r: seq<Sample>, x: Sample)
    requires ListedSoFar(samples, r, x)
    requires forall y :: y in samples && y.profile == x.profile && y !in r && y != x ==> !Newer(y, x)
    ensures Rank(samples, x) == |r|
  {
    var listed := set y | y in r;
    assert NewerIn(samples, x) == listed;
    DistinctCount(r);
  }

  lemma BelowListed(samples: set<Sample>, r: seq<Sample>, x: Sample)
    requires ListedSoFar(samples, r, x)
    ensures Rank(samples, x) >= |r|
  {
    var listed := set y | y in r;
    assert forall i, j :: 0 <= i < j < |r| ==> r[i] != r[j];
    DistinctCount(r);
    Cardinality(listed, NewerIn(samples, x));
  }

  lemma {:induction false} DistinctCount(r: seq<Sample>)
    requires forall i, j :: 0 <= i < j < |r| ==> r[i] != r[j]
    ensures |set y | y in r| == |r|
  {
    if r != [] {
      var init, last := r[..|r| - 1], r[|r| - 1];
      DistinctCount(init);
      assert (set y | y in r) == (set y | y in init) + {last};
    }
  }
}
