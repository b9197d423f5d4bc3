/** Why the delivery worker may sleep: between an empty claim and the moment it wakes,
    nothing in the queue can be claimed.

    Another part of the program may insert deliveries and then call `notify`, and messages
    may be deleted together with their deliveries; only the worker claims or completes. */
module DeliveryWakeups {
  import opened Wrappers
  import opened DeliveryStore

  const SAFETY_SCAN := 30_000_000_000

  function TimeUntil(timestamp: int, now: int): (d: nat)
    ensures d > 0 <==> timestamp > now
  {
    if timestamp > now then timestamp - now else 0
  }

  method NextDeliveryDelay(store: DeliveryTable, now: int) returns (delay: Option<nat>, ghost due: Option<int>)
    requires store.Valid()
    ensures IsNextDue(store.rows, due)
    ensures delay == (if due.None? then None else if due.value <= now then Some(0) else Some(due.value - now))
    ensures forall id :: id in store.rows && Waiting(store.rows[id]) && DueAt(store.rows[id]).At? ==>
              delay.Some? && now + delay.value <= (if DueAt(store.rows[id]).time > now then DueAt(store.rows[id]).time else now)
  {
    var value := store.NextDeliveryDueAt();
    due := value;
    delay := if value.Some? then Some(TimeUntil(value.value, now)) else None;
  }

  /** The queue, the deliveries whose insertion has not been announced yet, and the permit
      that `notify_one` stores until the worker waits. */
  datatype Queue = Queue(rows: Rows, nextId: Id, unannounced: set<Id>, permit: bool)

  datatype Event =
    | Inserted(messageId: nat, profile: string, created: Stamp)
    | Notified
    | Deleted(id: Id)

  function Happen(q: Queue, e: Event): Queue {
    match e
    case Inserted(messageId, profile, created) =>
      q.(rows := q.rows[q.nextId := Row(messageId, profile, Pending, 0, None, None, None, created)],
         nextId := q.nextId + 1, unannounced := q.unannounced + {q.nextId})
    case Notified => q.(unannounced := {}, permit := true)
    case Deleted(id) => q.(rows := q.rows - {id})
  }

  ghost predicate Next(q: Queue, next: Queue) {
    exists e :: next == Happen(q, e)
  }

  ghost predicate History(run: seq<Queue>) {
    && run != []
    && (forall id :: id in run[0].rows ==> id < run[0].nextId)
    && forall i :: 0 < i < |run| ==> Next(run[i - 1], run[i])
  }

  /** The select that a sleeping worker waits in has not fired: no permit is stored, and
      neither the deadline nor the safety scan has come. */
  predicate Asleep(q: Queue, delay: Option<nat>, since: int, t: int) {
    && !q.permit
    && since <= t < since + SAFETY_SCAN
    && (delay.Some? ==> t < since + delay.value)
  }

  ghost predicate IdsBelow(q: Queue, id: Id) {
    id in q.rows ==> id < q.nextId
  }

  /** Relative to an earlier queue, a row is unchanged, or it is a new one that is either
      unannounced or covered by a permit. */
  ghost predicate Traced(start: Queue, q: Queue, id: Id) {
    && start.nextId <= q.nextId
    && (id in q.rows && id < start.nextId ==> id in start.rows && q.rows[id] == start.rows[id])
    && (id in q.rows && id >= start.nextId ==> id in q.unannounced || q.permit)
  }

  lemma TraceGoesOn(start: Queue, q: Queue, next: Queue, id: Id)
    requires IdsBelow(q, id) && Traced(start, q, id) && Next(q, next)
    ensures IdsBelow(next, id) && Traced(start, next, id)
  {
    var e :| next == Happen(q, e);
  }

  lemma {:induction false} RowsAreTraced(run: seq<Queue>, first: nat, last: nat, id: Id)
    requires History(run) && first <= last < |run| && IdsBelow(run[first], id)
    ensures IdsBelow(run[last], id) && Traced(run[first], run[last], id)
    decreases last
  {
    if first < last {
      RowsAreTraced(run, first, last - 1, id);
      TraceGoesOn(run[first], run[last - 1], run[last], id);
    }
  }

  /** While the worker sleeps after a claim that returned nothing, the only rows it could
      claim are those whose insertion has not been announced yet. */
  lemma SleepIsSound(run: seq<Queue>, claimedAt: int, readAt: nat, due: Option<int>, since: int, now: nat, t: int, id: Id)
    requires History(run) && DueIds(run[0].rows, claimedAt) == {}
    requires readAt <= now < |run| && claimedAt <= since
    requires IsNextDue(run[readAt].rows, due)
    requires Asleep(run[now], if due.Some? then Some(TimeUntil(due.value, since)) else None, since, t)
    requires id in run[now].rows && Claimable(run[now].rows[id], t)
    ensures id in run[now].unannounced
  {
    RowsAreTraced(run, 0, readAt, id);
    RowsAreTraced(run, 0, now, id);
    RowsAreTraced(run, readAt, now, id);
    assert id !in DueIds(run[0].rows, claimedAt);
  }

  /** An empty claim leaves nothing due, once expired leases are recovered. */
  lemma EmptyClaimMeansNothingDue(rows: Rows, now: int, leaseFor: int, limit: nat, token: Token)
    requires limit > 0 && IsBatch(RecoverAll(rows, now), now, limit, {})
    ensures DueIds(ClaimBatch(rows, now, leaseFor, token, {}), now) == {}
  {
    assert ClaimBatch(rows, now, leaseFor, token, {}) == RecoverAll(rows, now);
  }

  // ---------- Expired leases ----------

  /** State `i` of the run holds from `times[i]` until the next one does. */
  ghost predicate Timed(run: seq<Queue>, times: seq<int>) {
    |times| == |run| && forall i, j :: 0 <= i < j < |times| ==> times[i] <= times[j]
  }

  ghost predicate CurrentAt(times: seq<int>, i: int, t: int) {
    0 <= i < |times| && times[i] <= t && (i + 1 < |times| ==> t < times[i + 1])
  }

  ghost predicate AsleepUntil(run: seq<Queue>, times: seq<int>, delay: Option<nat>, since: int, wake: int)
    requires |times| == |run|
  {
    forall i, t :: CurrentAt(times, i, t) && since <= t < wake ==> Asleep(run[i], delay, since, t)
  }

  lemma {:induction false} SomeStateIsCurrent(times: seq<int>, i: nat, t: int) returns (k: nat)
    requires i < |times| && times[i] <= t && forall a, b :: 0 <= a < b < |times| ==> times[a] <= times[b]
    ensures CurrentAt(times, k, t)
    decreases |times| - i
  {
    if i + 1 < |times| && times[i + 1] <= t { k := SomeStateIsCurrent(times, i + 1, t); } else { k := i; }
  }

  /** A lease that has run out while the worker sleeps is recovered, and its row is due, when
      the worker wakes, at most one safety scan later, whatever happened to the queue meanwhile,
      unless the row was deleted. */
  lemma ExpiredLeaseWaitsOneScan(
      run: seq<Queue>, times: seq<int>, delay: Option<nat>, since: int, wake: int, m: nat, t: int, n: nat, id: Id)
    requires History(run) && Timed(run, times) && AsleepUntil(run, times, delay, since, wake)
    requires CurrentAt(times, m, t) && since <= t < wake && CurrentAt(times, n, wake) && m <= n
    requires id in run[m].rows && LeaseExpired(run[m].rows[id], t)
    ensures wake <= t + SAFETY_SCAN
    ensures id in run[n].rows ==> id in DueIds(RecoverAll(run[n].rows, wake), wake)
  {
    var k := SomeStateIsCurrent(times, m, wake - 1);
    assert Asleep(run[k], delay, since, wake - 1);
    RowsAreTraced(run, 0, m, id);
    RowsAreTraced(run, m, n, id);
  }
}
