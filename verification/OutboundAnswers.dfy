/** What the tasks make of the answers they get: how each answer of the modem leaves the row of
    its message, once the store has taken it, and that an undisturbed message runs to its end. */
module OutboundAnswers {
  import opened Wrappers
  import opened OutboundStore
  import opened OutboundProtocol
  import opened OutboundSafety

  /** Task `o` waits at `at`, and the row of message `id` is `r`. */
  ghost predicate Stands(s: System, o: Owner, at: Point, id: Id, r: Row) {
    o in s.tasks && s.tasks[o].at == at && id in s.db.rows && s.db.rows[id] == r
  }

  predicate Owned(r: Row, o: Owner) {
    r.status == Sending && r.owner == Some(o)
  }

  /** The store answers without a fault. */
  function Written(s: System, o: Owner, now: int): System {
    Step(s, StoreReturns(o, now, Reliable))
  }

  /** The message has ended, and its end is still to be announced. */
  function EndedRow(r: Row, status: Status): Row {
    Row(r.request, status, Some(Complete), r.owner, r.leaseUntil, None, r.smsPath)
  }

  /** The message is left to the recovery workers. */
  function ReleasedRow(r: Row, phase: Phase, next: Option<int>): Row {
    Row(r.request, Sending, Some(phase), None, None, next, r.smsPath)
  }

  /** The message goes on under its owner. */
  function AdvancedRow(r: Row, phase: Phase, path: string, now: int): Row {
    Row(r.request, Sending, Some(phase), r.owner, Some(now + 90), None, Some(path))
  }

  // ---------- What the store makes of a task's call ----------

  lemma RecordingIsStored(s: System, o: Owner, id: Id, path: string, r: Row, now: int)
    requires Stands(s, o, Recording(id, path), id, r) && Owned(r, o) && r.phase == Some(Created)
    ensures Stands(Written(s, o, now), o, Beginning(id, path), id, AdvancedRow(r, Prepared, path, now))
  {
  }

  lemma BeginningIsStored(s: System, o: Owner, id: Id, path: string, r: Row, now: int)
    requires Stands(s, o, Beginning(id, path), id, r) && Owned(r, o) && r.phase == Some(Prepared) && r.smsPath == Some(path)
    ensures Stands(Written(s, o, now), o, Calling(id, path), id, AdvancedRow(r, SendStarted, path, now))
  {
  }

  lemma EndIsStored(s: System, o: Owner, id: Id, status: Status, k: nat, r: Row, now: int)
    requires Stands(s, o, Finishing(id, status, k), id, r) && Owned(r, o)
    ensures Stands(Written(s, o, now), o, Publishing(id, status), id, EndedRow(r, status))
  {
  }

  lemma DeferralIsStored(s: System, o: Owner, id: Id, phase: Phase, retryAfter: Option<int>, r: Row, now: int)
    requires Stands(s, o, Deferring(id, phase, retryAfter), id, r) && Owned(r, o)
    ensures var next := if retryAfter.Some? then Some(now + retryAfter.value) else None;
      Stands(Written(s, o, now), o, Rest(s.tasks[o]), id, ReleasedRow(r, phase, next))
  {
  }

  /** A deferral that comes too late, because the message has ended, announces the end. */
  lemma LateDeferralAnnounces(s: System, o: Owner, id: Id, phase: Phase, retryAfter: Option<int>, r: Row, now: int)
    requires Stands(s, o, Deferring(id, phase, retryAfter), id, r) && r.status != Sending
    ensures Stands(Written(s, o, now), o, Rest(s.tasks[o]), id, r) && (id, r.status) in Written(s, o, now).published
  {
  }

  /** An end that is stored is announced, and then acknowledged. */
  lemma EndIsAnnounced(s: System, o: Owner, id: Id, status: Status, r: Row, now: int)
    requires Stands(s, o, Publishing(id, status), id, r) && r.phase == Some(Complete) && r.owner == Some(o)
    ensures var s' := Written(Step(s, EventSent(o)), o, now);
      && Stands(s', o, Rest(s.tasks[o]), id, r.(phase := None, owner := None, leaseUntil := None))
      && (id, status) in s'.published
  {
    assert Stands(Step(s, EventSent(o)), o, Acknowledging(id), id, r);
  }

  /** A write of the end that fails is repeated, four times at most. */
  lemma EndIsRepeated(s: System, o: Owner, id: Id, status: Status, k: nat, r: Row, now: int)
    requires Stands(s, o, Finishing(id, status, k), id, r) && Owned(r, o) && k < 5
    ensures Stands(Step(s, StoreReturns(o, now, LostRequest)), o,
                   if k < 4 then Finishing(id, status, k + 1) else Rest(s.tasks[o]), id, r)
  {
  }

  lemma EndIsLost(s: System, o: Owner, id: Id, status: Status, k: nat, r: Row, now: int)
    requires Stands(s, o, Finishing(id, status, k), id, r) && Owned(r, o) && k < 4
    ensures Stands(Step(s, StoreReturns(o, now, LostReply)), o, Finishing(id, status, k + 1), id, EndedRow(r, status))
  {
  }

  /** One that only seems to have failed is found done. */
  lemma EndIsFound(s: System, o: Owner, id: Id, status: Status, k: nat, r: Row, now: int)
    requires Stands(s, o, Finishing(id, status, k), id, r) && Owned(r, o) && k < 4 && status != Sending
    ensures Stands(Written(Step(s, StoreReturns(o, now, LostReply)), o, now), o, Publishing(id, status), id, EndedRow(r, status))
  {
    EndIsLost(s, o, id, status, k, r, now);
  }

  // ---------- What the modem's answers come to ----------

  /** The modem has prepared the message, or could not. */
  lemma PreparationAnswered(s: System, o: Owner, id: Id, r: Row, path: string, now: int, later: int)
    requires Stands(s, o, Preparing(id), id, r) && Owned(r, o) && r.phase == Some(Created)
    ensures Stands(Written(Step(s, PrepareReturns(o, None)), o, now), o, Publishing(id, Failed), id, EndedRow(r, Failed))
    ensures var s' := Written(Step(s, PrepareReturns(o, Some(path))), o, now);
      Stands(s', o, Beginning(id, path), id, AdvancedRow(r, Prepared, path, now))
      && Stands(Written(s', o, later), o, Calling(id, path), id, AdvancedRow(r, SendStarted, path, later))
  {
    assert Stands(Step(s, PrepareReturns(o, None)), o, Finishing(id, Failed, 0), id, r);
    EndIsStored(Step(s, PrepareReturns(o, None)), o, id, Failed, 0, r, now);
    var s1 := Step(s, PrepareReturns(o, Some(path)));
    assert Stands(s1, o, Recording(id, path), id, r);
    RecordingIsStored(s1, o, id, path, r, now);
    BeginningIsStored(Written(s1, o, now), o, id, path, AdvancedRow(r, Prepared, path, now), later);
  }

  /** A call that reaches no modem puts the message back to be sent again. */
  lemma FailedCallAnswered(s: System, o: Owner, id: Id, path: string, r: Row, now: int)
    requires Stands(s, o, Calling(id, path), id, r) && Owned(r, o)
    ensures Stands(Written(Step(s, ConnectFails(o)), o, now), o, Rest(s.tasks[o]), id,
                   ReleasedRow(r, Prepared, Some(now + 5)))
  {
    var s1 := Step(s, ConnectFails(o));
    CallFails(s, s1, o, id, path, r);
    DeferralIsStored(s1, o, id, Prepared, Some(5), r, now);
  }

  lemma CallFails(s: System, s': System, o: Owner, id: Id, path: string, r: Row)
    requires Stands(s, o, Calling(id, path), id, r) && s' == Step(s, ConnectFails(o))
    ensures Stands(s', o, Deferring(id, Prepared, Some(5)), id, r) && Rest(s'.tasks[o]) == Rest(s.tasks[o])
  {
  }

  /** A Send that was accepted, refused, or not answered. */
  lemma SendAnswered(s: System, o: Owner, id: Id, r: Row, reply: Reply, now: int)
    requires Stands(s, o, Waiting(id), id, r) && Owned(r, o)
    ensures var s' := Written(Step(s, SendReturns(o, reply)), o, now);
      match reply
      case Accepted => Stands(s', o, Publishing(id, Sent), id, EndedRow(r, Sent))
      case Rejected => Stands(s', o, Publishing(id, Failed), id, EndedRow(r, Failed))
      case NoAnswer => Stands(s', o, Rest(s.tasks[o]), id, ReleasedRow(r, Uncertain, Some(now + 5)))
  {
    var s1 := Step(s, SendReturns(o, reply));
    match reply
    case Accepted =>
      assert Stands(s1, o, Finishing(id, Sent, 0), id, r);
      EndIsStored(s1, o, id, Sent, 0, r, now);
    case Rejected =>
      assert Stands(s1, o, Finishing(id, Failed, 0), id, r);
      EndIsStored(s1, o, id, Failed, 0, r, now);
    case NoAnswer =>
      assert Stands(s1, o, Deferring(id, Uncertain, Some(5)), id, r);
      DeferralIsStored(s1, o, id, Uncertain, Some(5), r, now);
  }

  // ---------- What a recovery worker makes of the modem's object ----------

  /** What stands in the modem is the message of the row. */
  predicate Same(snapshot: Snapshot, r: Row) {
    snapshot.phone == r.request.phone && snapshot.body == r.request.body
  }

  /** After a read that failed, the message keeps its right to be sent, or stays uncertain. */
  lemma UnreadableAnswered(s: System, o: Owner, id: Id, claimed: Row, r: Row, now: int)
    requires Inv(s) && Stands(s, o, Inspecting(id, claimed), id, r) && Owned(r, o)
    ensures Stands(Written(Step(s, SnapshotReturns(o, None)), o, now), o, Rest(s.tasks[o]), id,
                   ReleasedRow(r, if r.phase == Some(Prepared) then Prepared else Uncertain, Some(now + 5)))
  {
    ClaimIsCurrent(s, o, id, claimed, r);
    var (s1, phase) := (Step(s, SnapshotReturns(o, None)), if r.phase == Some(Prepared) then Prepared else Uncertain);
    ReadFails(s, s1, o, id, claimed, r, phase);
    DeferralIsStored(s1, o, id, phase, Some(5), r, now);
  }

  lemma ReadFails(s: System, s': System, o: Owner, id: Id, claimed: Row, r: Row, phase: Phase)
    requires Stands(s, o, Inspecting(id, claimed), id, r) && claimed.smsPath.Some? && s' == Step(s, SnapshotReturns(o, None))
    requires phase == if claimed.phase == Some(Prepared) then Prepared else Uncertain
    ensures Stands(s', o, Deferring(id, phase, Some(5)), id, r) && Rest(s'.tasks[o]) == Rest(s.tasks[o])
  {
  }

  /** An owner inspects the row as it is. */
  lemma ClaimIsCurrent(s: System, o: Owner, id: Id, claimed: Row, r: Row)
    requires Inv(s) && Stands(s, o, Inspecting(id, claimed), id, r) && Owned(r, o)
    ensures claimed.request == r.request && claimed.phase == r.phase && claimed.smsPath == r.smsPath && r.smsPath.Some?
    ensures r.phase in {Some(Prepared), Some(SendStarted), Some(Uncertain)}
  {
    assert MessageInv(s, id) && At(s, o, id);
  }

  lemma SnapshotTaken(s: System, o: Owner, id: Id, claimed: Row, r: Row, snap: Snapshot, p: Point)
    requires Stands(s, o, Inspecting(id, claimed), id, r) && claimed.smsPath.Some?
    requires p == AfterSnapshot(id, claimed, Some(snap))
    ensures Stands(Step(s, SnapshotReturns(o, Some(snap))), o, p, id, r)
    ensures Rest(Step(s, SnapshotReturns(o, Some(snap))).tasks[o]) == Rest(s.tasks[o])
  {
  }

  function PathOf(r: Row): string {
    if r.smsPath.Some? then r.smsPath.value else ""
  }

  /** What the modem shows decides, for the row as it is:
      - it has no such object, or another message in it: given up, nothing is sent any more;
      - it has sent the message: ended as Sent;
      - it has stored it and no Send was begun: the Send begins;
      - it has stored it after a Send was begun, or is sending it: asked again later. */
  ghost predicate Decided(s: System, o: Owner, rest: Point, id: Id, r: Row, snap: Snapshot, now: int) {
    if snap.state == Missing || !Same(snap, r) then Stands(s, o, rest, id, ReleasedRow(r, Unknown, None))
    else if snap.state == Delivered then Stands(s, o, Publishing(id, Sent), id, EndedRow(r, Sent))
    else if snap.state == Stored && r.phase == Some(Prepared) then
      Stands(s, o, Calling(id, PathOf(r)), id, AdvancedRow(r, SendStarted, PathOf(r), now))
    else Stands(s, o, rest, id, ReleasedRow(r, Uncertain, Some(now + 5)))
  }

  lemma SnapshotAnswered(s: System, o: Owner, id: Id, claimed: Row, r: Row, snap: Snapshot, now: int)
    requires Inv(s) && Stands(s, o, Inspecting(id, claimed), id, r) && Owned(r, o)
    ensures Decided(Written(Step(s, SnapshotReturns(o, Some(snap))), o, now), o, Rest(s.tasks[o]), id, r, snap, now)
  {
    ClaimIsCurrent(s, o, id, claimed, r);
    var s1 := Step(s, SnapshotReturns(o, Some(snap)));
    SnapshotTaken(s, o, id, claimed, r, snap, AfterSnapshot(id, claimed, Some(snap)));
    if snap.state == Missing || !Same(snap, r) {
      DeferralIsStored(s1, o, id, Unknown, None, r, now);
    } else if snap.state == Delivered {
      EndIsStored(s1, o, id, Sent, 0, r, now);
    } else if snap.state == Stored && r.phase == Some(Prepared) {
      BeginningIsStored(s1, o, id, PathOf(r), r, now);
    } else {
      DeferralIsStored(s1, o, id, Uncertain, Some(5), r, now);
    }
  }

  // ---------- What a worker claims ----------

  function ClaimedRow(r: Row, o: Owner, now: int): Row {
    Row(r.request, r.status, r.phase, Some(o), Some(now + 90), None, r.smsPath)
  }

  /** Row `id` is the first that is due. */
  ghost predicate FirstToDo(db: Db, id: Id, r: Row, now: int) {
    && id in db.rows && db.rows[id] == r && Due(r, now) && id < db.nextId
    && forall j :: j in db.rows && Due(db.rows[j], now) ==> id <= j
  }

  lemma FirstIsClaimed(s: System, o: Owner, id: Id, r: Row, now: int)
    requires o in s.tasks && s.tasks[o] == Task(true, Idle) && FirstToDo(s.db, id, r, now)
    ensures Stands(Step(s, ClaimDueReturns(o, now, Reliable)), o, AfterClaim(Claim(id, ClaimedRow(r, o, now))), id,
                   ClaimedRow(r, o, now))
    ensures Rest(Step(s, ClaimDueReturns(o, now, Reliable)).tasks[o]) == Idle
  {
  }

  /** A claimed message that never reached the modem has failed; one whose object is not known is
      given up if it may have been sent; any other one's object is looked at. */
  lemma ClaimAnswered(s: System, o: Owner, id: Id, r: Row, now: int, later: int)
    requires o in s.tasks && s.tasks[o] == Task(true, Idle) && FirstToDo(s.db, id, r, now)
    ensures var (s1, claimed) := (Step(s, ClaimDueReturns(o, now, Reliable)), ClaimedRow(r, o, now));
      if r.phase == Some(Created) || (r.phase == Some(Prepared) && r.smsPath.None?) then
        Stands(Written(s1, o, later), o, Publishing(id, Failed), id, EndedRow(claimed, Failed))
      else if r.smsPath.None? then
        Stands(Written(s1, o, later), o, Idle, id, ReleasedRow(claimed, Unknown, None))
      else Stands(s1, o, Inspecting(id, claimed), id, claimed)
  {
    var (s1, claimed) := (Step(s, ClaimDueReturns(o, now, Reliable)), ClaimedRow(r, o, now));
    FirstIsClaimed(s, o, id, r, now);
    if r.phase == Some(Created) || (r.phase == Some(Prepared) && r.smsPath.None?) {
      EndIsStored(s1, o, id, Failed, 0, claimed, later);
    } else if r.smsPath.None? {
      DeferralIsStored(s1, o, id, Unknown, None, claimed, later);
    }
  }

  /** An end that was never acknowledged is announced by the worker that claims it. */
  lemma PendingEndIsAnnounced(s: System, o: Owner, id: Id, r: Row, now: int, later: int)
    requires o in s.tasks && s.tasks[o] == Task(true, Idle)
    requires id in s.db.rows && s.db.rows[id] == r && EventPending(r, now) && id < s.db.nextId
    requires forall j :: j in s.db.rows && EventPending(s.db.rows[j], now) ==> id <= j
    ensures var s' := Written(Step(Step(s, ClaimEventReturns(o, now, Reliable)), EventSent(o)), o, later);
      && Stands(s', o, Idle, id, r.(phase := None, owner := None, leaseUntil := None))
      && (id, r.status) in s'.published
  {
    var s1 := Step(s, ClaimEventReturns(o, now, Reliable));
    EventIsClaimed(s, s1, o, id, r, now);
    EndIsAnnounced(s1, o, id, r.status, r.(owner := Some(o), leaseUntil := Some(now + 90)), later);
  }

  lemma EventIsClaimed(s: System, s': System, o: Owner, id: Id, r: Row, now: int)
    requires o in s.tasks && s.tasks[o] == Task(true, Idle) && s' == Step(s, ClaimEventReturns(o, now, Reliable))
    requires id in s.db.rows && s.db.rows[id] == r && EventPending(r, now) && id < s.db.nextId
    requires forall j :: j in s.db.rows && EventPending(s.db.rows[j], now) ==> id <= j
    ensures Stands(s', o, Publishing(id, r.status), id, r.(owner := Some(o), leaseUntil := Some(now + 90)))
    ensures Rest(s'.tasks[o]) == Idle
  {
  }

  // ---------- When a message is claimed again ----------

  /** A released message comes back exactly at its retry time, and one that was given up never. */
  lemma ReleasedComesBack(r: Row, phase: Phase, next: int, t: int)
    ensures Due(ReleasedRow(r, phase, Some(next)), t) <==>
              phase in {Created, Prepared, SendStarted, Uncertain} && next <= t
    ensures !Due(ReleasedRow(r, Unknown, None), t)
  {
  }

  /** A lease keeps every other worker away until it is over. */
  lemma LeaseKeepsOthersAway(r: Row, o: Owner, until: int, t: int)
    requires r.owner == Some(o) && r.leaseUntil == Some(until)
    ensures t < until ==> !Due(r, t) && !EventPending(r, t)
    ensures until <= t && r.status != Sending && r.phase == Some(Complete) ==> EventPending(r, t)
  {
  }

  /** Anything but the owner's own calls on the store, at times before the lease is over. */
  predicate Foreign(a: Action, o: Owner, until: int) {
    match a
    case StoreReturns(p, _, _) => p != o
    case Heartbeat(p, _, _) => p != o
    case ClaimEventReturns(_, now, _) => now < until
    case ClaimDueReturns(_, now, _) => now < until
    case _ => true
  }

  /** The row is being sent by its owner, under a lease. */
  ghost predicate Leased(db: Db, id: Id, r: Row, o: Owner, until: int) {
    id in db.rows && db.rows[id] == r && id < db.nextId
    && Owned(r, o) && r.leaseUntil == Some(until) && r.phase != Some(Unknown)
  }

  lemma AdvanceSpares(s: System, p: Owner, now: int, fault: Fault, id: Id, r: Row, o: Owner, until: int)
    requires Leased(s.db, id, r, o, until) && p in s.tasks && p != o
    ensures s.tasks[p].at.Recording? ==> Leased(RecordingAnswered(s, p, now, fault).db, id, r, o, until)
    ensures s.tasks[p].at.Beginning? ==> Leased(BeginningAnswered(s, p, now, fault).db, id, r, o, until)
  {
  }

  lemma EndSpares(s: System, p: Owner, now: int, fault: Fault, id: Id, r: Row, o: Owner, until: int)
    requires Leased(s.db, id, r, o, until) && p in s.tasks && p != o
    ensures s.tasks[p].at.Finishing? ==> Leased(FinishingAnswered(s, p, fault).db, id, r, o, until)
    ensures s.tasks[p].at.Deferring? ==> Leased(DeferringAnswered(s, p, now, fault).db, id, r, o, until)
  {
  }

  lemma StoreCallSpares(s: System, p: Owner, now: int, fault: Fault, id: Id, r: Row, o: Owner, until: int)
    requires Leased(s.db, id, r, o, until) && p in s.tasks && p != o
    ensures Leased(StoreAnswered(s, p, now, fault).db, id, r, o, until)
  {
    AdvanceSpares(s, p, now, fault, id, r, o, until);
    EndSpares(s, p, now, fault, id, r, o, until);
  }

  lemma ClaimSpares(db: Db, p: Owner, now: int, id: Id, r: Row, o: Owner, until: int)
    requires Leased(db, id, r, o, until) && now < until
    ensures Leased(ClaimDue(db, p, now).0, id, r, o, until) && Leased(ClaimEvent(db, p, now).0, id, r, o, until)
  {
    LeaseKeepsOthersAway(r, o, until, now);
  }

  lemma {:induction false} DeleteSpares(db: Db, ids: seq<Id>, id: Id, r: Row, o: Owner, until: int)
    requires Leased(db, id, r, o, until)
    ensures Leased(DeleteEach(db, ids), id, r, o, until)
    decreases |ids|
  {
    if ids != [] { DeleteSpares(Delete(db, ids[0]), ids[1..], id, r, o, until); }
  }

  lemma ModemLeavesTheTable(s: System, a: Action)
    requires a.StartWorker? || a.PrepareReturns? || a.ConnectFails? || a.SendIssued? || a.SendReturns? || a.SnapshotReturns?
             || a.EventSent? || a.Crash?
    ensures Step(s, a).db == s.db
  {
  }

  lemma StartSpares(s: System, a: Action, id: Id, r: Row, o: Owner, until: int)
    requires Leased(s.db, id, r, o, until) && a.StartSender?
    ensures Leased(Step(s, a).db, id, r, o, until)
  {
  }

  lemma HousekeepingSpares(s: System, a: Action, id: Id, r: Row, o: Owner, until: int)
    requires Leased(s.db, id, r, o, until) && Foreign(a, o, until)
    requires a.Heartbeat? || a.RetireOld? || a.ForgetKeys?
    ensures Leased(Step(s, a).db, id, r, o, until)
  {
  }

  lemma WorkSpares(s: System, a: Action, id: Id, r: Row, o: Owner, until: int)
    requires Leased(s.db, id, r, o, until) && Foreign(a, o, until)
    requires a.StoreReturns? || a.ClaimEventReturns? || a.ClaimDueReturns? || a.DeleteByUser?
    ensures Leased(Step(s, a).db, id, r, o, until)
  {
    match a
    case StoreReturns(p, now, fault) => if p in s.tasks { StoreCallSpares(s, p, now, fault, id, r, o, until); }
    case ClaimEventReturns(p, now, _) => ClaimSpares(s.db, p, now, id, r, o, until);
    case ClaimDueReturns(p, now, _) => ClaimSpares(s.db, p, now, id, r, o, until);
    case DeleteByUser(ids) => DeleteSpares(s.db, ids, id, r, o, until);
  }

  /** Until its lease is over, nobody but its owner changes a row that is being sent. */
  lemma LeaseProtects(s: System, a: Action, id: Id, r: Row, o: Owner, until: int)
    requires Leased(s.db, id, r, o, until) && Foreign(a, o, until)
    ensures Leased(Step(s, a).db, id, r, o, until)
  {
    if a.StoreReturns? || a.ClaimEventReturns? || a.ClaimDueReturns? || a.DeleteByUser? {
      WorkSpares(s, a, id, r, o, until);
    } else if a.StartSender? {
      StartSpares(s, a, id, r, o, until);
    } else if a.Heartbeat? || a.RetireOld? || a.ForgetKeys? {
      HousekeepingSpares(s, a, id, r, o, until);
    } else {
      ModemLeavesTheTable(s, a);
    }
  }

  /** While a task waits for the modem, its heartbeat renews the lease. */
  lemma HeartbeatRenews(s: System, o: Owner, at: Point, id: Id, r: Row, now: int)
    requires (at.Preparing? || at.Calling? || at.Waiting? || at.Inspecting?) && at.id == id
    requires Stands(s, o, at, id, r) && Owned(r, o)
    ensures Stands(Step(s, Heartbeat(o, now, Reliable)), o, at, id, r.(leaseUntil := Some(now + 90)))
  {
  }

  // ---------- What a repeated request gets ----------

  /** As long as the message of a key is there, the same request is answered with it and another
      one is refused, and nothing is created. */
  lemma KeyAnswersForItsMessage(
      run: seq<System>, n: nat, id: Id, k: string, request: Request, o: Owner, now: int)
    requires Execution(run) && n < |run| && id in run[n].db.rows
    requires id in run[n].origin && run[n].origin[id] == Some(k)
    ensures CreateOrGet(run[n].db, request, Some(k), o, now)
         == (run[n].db, if run[n].db.rows[id].request == request then Replayed(id) else Conflict)
  {
    RunInv(run, n);
  }

  /** A key whose message is gone creates nothing either, until it is forgotten; a new one does. */
  lemma KeyWithoutMessage(db: Db, k: string, request: Request, o: Owner, now: int)
    ensures k in db.keys && db.keys[k].messageId.None? ==>
      CreateOrGet(db, request, Some(k), o, now) == (db, if db.keys[k].request == request then ReplayUnavailable else Conflict)
    ensures k !in db.keys ==> CreateOrGet(db, request, Some(k), o, now).1 == Inserted(db.nextId)
    ensures CreateOrGet(db, request, None, o, now).1 == Inserted(db.nextId)
  {
  }

  // ---------- An undisturbed message ----------

  lemma SenderIsStarted(s: System, o: Owner, request: Request, key: Option<string>, now: int)
    requires o !in s.tasks && (key.Some? ==> key.value !in s.db.keys)
    ensures var (s', id) := (Step(s, StartSender(o, request, key, now, Reliable)), s.db.nextId);
      && Stands(s', o, Preparing(id), id, Row(request, Sending, Some(Created), Some(o), Some(now + 90), None, None))
      && Rest(s'.tasks[o]) == Ended
      && (key.Some? ==> key.value in s'.db.keys && s'.db.keys[key.value].messageId == Some(id)
                        && s'.db.keys[key.value].request == request)
  {
  }

  lemma SendGoesOut(s: System, s': System, o: Owner, id: Id, path: string, r: Row)
    requires Stands(s, o, Calling(id, path), id, r) && s' == Step(s, SendIssued(o))
    ensures Stands(s', o, Waiting(id), id, r) && s'.issued[id] == s.issued[id] + 1
    ensures Rest(s'.tasks[o]) == Rest(s.tasks[o])
  {
  }

  lemma WrittenRestStays(s: System, o: Owner, now: int)
    requires o in s.tasks
    ensures o in Written(s, o, now).tasks && Rest(Written(s, o, now).tasks[o]) == Rest(s.tasks[o])
  {
  }

  lemma AnswerRestStays(s: System, o: Owner, path: string, reply: Reply)
    requires o in s.tasks
    ensures o in Step(s, PrepareReturns(o, Some(path))).tasks && o in Step(s, SendReturns(o, reply)).tasks
    ensures Rest(Step(s, PrepareReturns(o, Some(path))).tasks[o]) == Rest(s.tasks[o])
    ensures Rest(Step(s, SendReturns(o, reply)).tasks[o]) == Rest(s.tasks[o])
  {
  }

  /** A sender and its modem up to the call, with nobody else in between. */
  ghost predicate Begins(
      s0: System, s1: System, s2: System, s3: System, s4: System,
      o: Owner, request: Request, key: Option<string>, path: string, now: int)
  {
    && s1 == Step(s0, StartSender(o, request, key, now, Reliable))
    && s2 == Step(s1, PrepareReturns(o, Some(path)))
    && s3 == Written(s2, o, now)
    && s4 == Written(s3, o, now)
  }

  /** The call, and what follows its reply. */
  ghost predicate Goes(s4: System, s5: System, s6: System, s7: System, s8: System, s9: System, o: Owner, reply: Reply, now: int) {
    && s5 == Step(s4, SendIssued(o))
    && s6 == Step(s5, SendReturns(o, reply))
    && s7 == Written(s6, o, now)
    && s8 == Step(s7, EventSent(o))
    && s9 == Written(s8, o, now)
  }

  function StartedRow(request: Request, o: Owner, path: string, now: int): Row {
    Row(request, Sending, Some(SendStarted), Some(o), Some(now + 90), None, Some(path))
  }

  lemma BeginsWell(
      s0: System, s1: System, s2: System, s3: System, s4: System,
      o: Owner, request: Request, key: Option<string>, path: string, now: int)
    requires Begins(s0, s1, s2, s3, s4, o, request, key, path, now)
    requires o !in s0.tasks && (key.Some? ==> key.value !in s0.db.keys)
    ensures Stands(s4, o, Calling(s0.db.nextId, path), s0.db.nextId, StartedRow(request, o, path, now))
    ensures Rest(s4.tasks[o]) == Ended
  {
    var r := Row(request, Sending, Some(Created), Some(o), Some(now + 90), None, None);
    SenderIsStarted(s0, o, request, key, now);
    PreparationAnswered(s1, o, s0.db.nextId, r, path, now, now);
    AnswerRestStays(s1, o, path, NoAnswer);
    WrittenRestStays(s2, o, now);
    WrittenRestStays(s3, o, now);
  }

  /** Where a reply leaves a message and its sender. */
  ghost predicate Concluded(s7: System, s9: System, o: Owner, rest: Point, id: Id, r: Row, reply: Reply, now: int) {
    match reply
    case Accepted =>
      Stands(s9, o, rest, id, Row(r.request, Sent, None, None, None, None, r.smsPath)) && (id, Sent) in s9.published
    case Rejected =>
      Stands(s9, o, rest, id, Row(r.request, Failed, None, None, None, None, r.smsPath)) && (id, Failed) in s9.published
    case NoAnswer =>
      Stands(s7, o, rest, id, Row(r.request, Sending, Some(Uncertain), None, None, Some(now + 5), r.smsPath))
  }

  lemma GoesWell(
      s4: System, s5: System, s6: System, s7: System, s8: System, s9: System,
      o: Owner, id: Id, path: string, r: Row, reply: Reply, now: int)
    requires Goes(s4, s5, s6, s7, s8, s9, o, reply, now)
    requires Stands(s4, o, Calling(id, path), id, r) && Owned(r, o)
    ensures Concluded(s7, s9, o, Rest(s4.tasks[o]), id, r, reply, now)
  {
    SendGoesOut(s4, s5, o, id, path, r);
    SendAnswered(s5, o, id, r, reply, now);
    AnswerRestStays(s5, o, path, reply);
    WrittenRestStays(s6, o, now);
    if reply != NoAnswer {
      var status := if reply == Accepted then Sent else Failed;
      EndIsAnnounced(s7, o, id, status, EndedRow(r, status), now);
    }
  }

  /** A new message that nobody disturbs is sent, and ends as the modem answers: Sent and announced,
      Failed and announced, or uncertain and left to the recovery workers. */
  lemma UndisturbedIsSent(
      s0: System, s1: System, s2: System, s3: System, s4: System, s5: System, s6: System, s7: System, s8: System, s9: System,
      o: Owner, request: Request, key: Option<string>, path: string, reply: Reply, now: int)
    requires Begins(s0, s1, s2, s3, s4, o, request, key, path, now) && Goes(s4, s5, s6, s7, s8, s9, o, reply, now)
    requires o !in s0.tasks && (key.Some? ==> key.value !in s0.db.keys)
    ensures Concluded(s7, s9, o, Ended, s0.db.nextId, StartedRow(request, o, path, now), reply, now)
  {
    BeginsWell(s0, s1, s2, s3, s4, o, request, key, path, now);
    GoesWell(s4, s5, s6, s7, s8, s9, o, s0.db.nextId, path, StartedRow(request, o, path, now), reply, now);
  }
}
