/** Senders and recovery workers as concurrent tasks over the outbound table.

    Every `await` of the source is a point between two steps, so a run is a list of
    actions and each action is one step of one task: a store call returning (or
    failing before or after it took effect), the modem answering, a heartbeat, a
    crash, a deletion by the user or by retention. Clocks, answers and the interleaving are free. */
module OutboundProtocol {
  import opened Wrappers
  import opened OutboundStore

  const FINISH_ATTEMPTS := 5
  const RETRY_AFTER := Some(5)

  datatype ModemSmsState = Stored | InTransit | Delivered | Missing

  datatype Snapshot = Snapshot(state: ModemSmsState, phone: string, body: string)

  /** How a D-Bus Send that was issued comes back: explicitly or not at all. */
  datatype Reply = Accepted | Rejected | NoAnswer

  datatype Fault = Reliable | LostRequest | LostReply

  /** Where a task is waiting. */
  datatype Point =
    | Idle
    | Ended
    | Preparing(id: Id)
    | Recording(id: Id, path: string)
    | Beginning(id: Id, path: string)
    | Calling(id: Id, path: string)
    | Waiting(id: Id)
    | Inspecting(id: Id, claimed: Row)
    | Finishing(id: Id, status: Status, attempt: nat)
    | Deferring(id: Id, phase: Phase, retryAfter: Option<int>)
    | Publishing(id: Id, status: Status)
    | Acknowledging(id: Id)

  datatype Task = Task(worker: bool, at: Point)

  /** The database, the tasks by owner, and a record of what happened:
      `calls` counts `send_prepared` invocations, `handedBack` the ones that reached
      no modem and put the message back to Prepared, `issued` the D-Bus Sends. */
  datatype System = System(
    db: Db,
    tasks: map<Owner, Task>,
    origin: map<Id, Option<string>>,
    calls: multiset<Id>,
    handedBack: multiset<Id>,
    issued: multiset<Id>,
    accepted: set<Id>,
    rejected: set<Id>,
    seenSent: set<Id>,
    published: set<(Id, Status)>)

  datatype Action =
    | StartSender(o: Owner, request: Request, key: Option<string>, now: int, fault: Fault)
    | StartWorker(o: Owner)
    | PrepareReturns(o: Owner, path: Option<string>)
    | StoreReturns(o: Owner, now: int, fault: Fault)
    | Heartbeat(o: Owner, now: int, fault: Fault)
    | ConnectFails(o: Owner)
    | SendIssued(o: Owner)
    | SendReturns(o: Owner, reply: Reply)
    | SnapshotReturns(o: Owner, snapshot: Option<Snapshot>)
    | EventSent(o: Owner)
    | ClaimEventReturns(o: Owner, now: int, fault: Fault)
    | ClaimDueReturns(o: Owner, now: int, fault: Fault)
    | Crash(o: Owner)
    | DeleteByUser(ids: seq<Id>)
    | RetireOld(id: Id)
    | ForgetKeys(cutoff: int)

  const INITIAL := System(
    EMPTY, map[], map[], multiset{}, multiset{}, multiset{}, {}, {}, {}, {})

  /** A sender stops at the end of its message, a worker looks for the next one. */
  function Rest(t: Task): Point {
    if t.worker then Idle else Ended
  }

  function Move(s: System, o: Owner, p: Point): System
    requires o in s.tasks
  {
    s.(tasks := s.tasks[o := s.tasks[o].(at := p)])
  }

  /** A store call that would lead to `db`: the task sees its answer or an error. */
  function Commit(s: System, o: Owner, db: Db, fault: Fault, next: Point, failed: Point): System
    requires o in s.tasks
  {
    match fault
    case Reliable => Move(s.(db := db), o, next)
    case LostRequest => Move(s, o, failed)
    case LostReply => Move(s.(db := db), o, failed)
  }

  function StartedSender(s: System, o: Owner, request: Request, key: Option<string>, now: int, fault: Fault)
    : System
    requires o !in s.tasks
  {
    var (db, outcome) := CreateOrGet(s.db, request, key, o, now);
    var base := s.(tasks := s.tasks[o := Task(false, Ended)]);
    var created := if outcome.Inserted? then base.(origin := base.origin[outcome.id := key]) else base;
    match fault
    case LostRequest => base
    case LostReply => created.(db := db)
    case Reliable => Move(created.(db := db), o, if outcome.Inserted? then Preparing(outcome.id) else Ended)
  }

  function AfterSendReply(id: Id, reply: Reply): Point {
    match reply
    case Accepted => Finishing(id, Sent, 0)
    case Rejected => Finishing(id, Failed, 0)
    case NoAnswer => Deferring(id, Uncertain, RETRY_AFTER)
  }

  predicate Matches(snapshot: Snapshot, r: Row) {
    snapshot.phone == r.request.phone && snapshot.body == r.request.body
  }

  /** What a worker does with the phase it claimed. */
  function AfterClaim(claim: Claim): Point {
    var path := claim.row.smsPath;
    match claim.row.phase
    case Some(Created) => Finishing(claim.id, Failed, 0)
    case Some(Prepared) =>
      if path.None? then Finishing(claim.id, Failed, 0) else Inspecting(claim.id, claim.row)
    case Some(SendStarted) | Some(Uncertain) =>
      if path.None? then Deferring(claim.id, Unknown, None) else Inspecting(claim.id, claim.row)
    case _ => Idle
  }

  function AfterSnapshot(id: Id, claimed: Row, snapshot: Option<Snapshot>): Point
    requires claimed.smsPath.Some?
  {
    var prepared := claimed.phase == Some(Prepared);
    match snapshot
    case None => Deferring(id, if prepared then Prepared else Uncertain, RETRY_AFTER)
    case Some(snap) =>
      if snap.state == Missing || !Matches(snap, claimed) then Deferring(id, Unknown, None)
      else if snap.state == Delivered then Finishing(id, Sent, 0)
      else if snap.state == Stored && prepared then Beginning(id, claimed.smsPath.value)
      else Deferring(id, Uncertain, RETRY_AFTER)
  }

  function RecordingAnswered(s: System, o: Owner, now: int, fault: Fault): System
    requires o in s.tasks && s.tasks[o].at.Recording?
  {
    var Recording(id, path) := s.tasks[o].at;
    var (db, t) := SetPrepared(s.db, id, o, path, now);
    var rest := Rest(s.tasks[o]);
    Commit(s, o, db, fault, if t.Applied? then Beginning(id, path) else rest, rest)
  }

  function BeginningAnswered(s: System, o: Owner, now: int, fault: Fault): System
    requires o in s.tasks && s.tasks[o].at.Beginning?
  {
    var Beginning(id, path) := s.tasks[o].at;
    var (db, t) := BeginSend(s.db, id, o, now);
    var rest := Rest(s.tasks[o]);
    var called := t.Applied? && fault.Reliable?;
    Commit(s.(calls := if called then s.calls + multiset{id} else s.calls),
           o, db, fault, if t.Applied? then Calling(id, path) else rest, rest)
  }

  /** The end is written up to five times; a lost row is reported if it has ended. */
  function FinishingAnswered(s: System, o: Owner, fault: Fault): System
    requires o in s.tasks && s.tasks[o].at.Finishing?
  {
    var Finishing(id, status, attempt) := s.tasks[o].at;
    var (db, t) := Finish(s.db, id, o, status);
    var rest := Rest(s.tasks[o]);
    var retry := if attempt + 1 == FINISH_ATTEMPTS then rest else Finishing(id, status, attempt + 1);
    var next :=
      match t
      case Applied(r) => Publishing(id, r.status)
      case OwnershipLost(r) => if Terminal(r.status) then Publishing(id, r.status) else rest
      case NotFound => retry;
    Commit(s, o, db, fault, next, retry)
  }

  /** Whatever the row is after a deferral is sent out as an update event. */
  function DeferringAnswered(s: System, o: Owner, now: int, fault: Fault): System
    requires o in s.tasks && s.tasks[o].at.Deferring?
  {
    var Deferring(id, phase, retryAfter) := s.tasks[o].at;
    var (db, t) := Defer(s.db, id, o, phase, retryAfter, now);
    var rest := Rest(s.tasks[o]);
    var lost := fault.Reliable? && t.OwnershipLost? && Terminal(t.row.status);
    var returned := !fault.LostRequest? && t.Applied? && phase == Prepared
                    && s.db.rows[id].phase == Some(SendStarted);
    Commit(s.(published := if lost then s.published + {(id, t.row.status)} else s.published,
              handedBack := if returned then s.handedBack + multiset{id} else s.handedBack),
           o, db, fault, rest, rest)
  }

  function StoreAnswered(s: System, o: Owner, now: int, fault: Fault): System
    requires o in s.tasks
  {
    match s.tasks[o].at
    case Recording(_, _) => RecordingAnswered(s, o, now, fault)
    case Beginning(_, _) => BeginningAnswered(s, o, now, fault)
    case Finishing(_, _, _) => FinishingAnswered(s, o, fault)
    case Deferring(_, _, _) => DeferringAnswered(s, o, now, fault)
    case Acknowledging(id) =>
      var rest := Rest(s.tasks[o]);
      Commit(s, o, Acknowledge(s.db, id, o), fault, rest, rest)
    case _ => s
  }

  /** One step. An action its task is not waiting for leaves the system unchanged. */
  function Step(s: System, a: Action): System {
    match a
    case StartSender(o, request, key, now, fault) =>
      if o in s.tasks then s else StartedSender(s, o, request, key, now, fault)
    case StartWorker(o) =>
      if o in s.tasks then s else s.(tasks := s.tasks[o := Task(true, Idle)])
    case PrepareReturns(o, path) =>
      if o !in s.tasks || !s.tasks[o].at.Preparing? then s
      else
        var id := s.tasks[o].at.id;
        Move(s, o, if path.Some? then Recording(id, path.value) else Finishing(id, Failed, 0))
    case StoreReturns(o, now, fault) =>
      if o !in s.tasks then s else StoreAnswered(s, o, now, fault)
    case Heartbeat(o, now, fault) =>
      if o !in s.tasks || fault.LostRequest? then s
      else (match s.tasks[o].at
            case Preparing(id) => s.(db := Renew(s.db, id, o, now))
            case Calling(id, _) => s.(db := Renew(s.db, id, o, now))
            case Waiting(id) => s.(db := Renew(s.db, id, o, now))
            case Inspecting(id, _) => s.(db := Renew(s.db, id, o, now))
            case _ => s)
    case ConnectFails(o) =>
      if o !in s.tasks || !s.tasks[o].at.Calling? then s
      else Move(s, o, Deferring(s.tasks[o].at.id, Prepared, RETRY_AFTER))
    case SendIssued(o) =>
      if o !in s.tasks || !s.tasks[o].at.Calling? then s
      else
        var id := s.tasks[o].at.id;
        Move(s.(issued := s.issued + multiset{id}), o, Waiting(id))
    case SendReturns(o, reply) =>
      if o !in s.tasks || !s.tasks[o].at.Waiting? then s
      else
        var id := s.tasks[o].at.id;
        Move(s.(accepted := if reply.Accepted? then s.accepted + {id} else s.accepted,
                rejected := if reply.Rejected? then s.rejected + {id} else s.rejected),
             o, AfterSendReply(id, reply))
    case SnapshotReturns(o, snapshot) =>
      if o !in s.tasks || !s.tasks[o].at.Inspecting? || s.tasks[o].at.claimed.smsPath.None? then s
      else
        var Inspecting(id, claimed) := s.tasks[o].at;
        var sent := snapshot.Some? && snapshot.value.state == Delivered && Matches(snapshot.value, claimed);
        Move(s.(seenSent := if sent then s.seenSent + {id} else s.seenSent),
             o, AfterSnapshot(id, claimed, snapshot))
    case EventSent(o) =>
      if o !in s.tasks || !s.tasks[o].at.Publishing? then s
      else
        var Publishing(id, status) := s.tasks[o].at;
        Move(s.(published := s.published + {(id, status)}), o, Acknowledging(id))
    case ClaimEventReturns(o, now, fault) =>
      if o !in s.tasks || !s.tasks[o].at.Idle? then s
      else
        var (db, claim) := ClaimEvent(s.db, o, now);
        var next := if claim.Some? then Publishing(claim.value.id, claim.value.row.status) else Idle;
        Commit(s, o, db, fault, next, Idle)
    case ClaimDueReturns(o, now, fault) =>
      if o !in s.tasks || !s.tasks[o].at.Idle? then s
      else
        var (db, claim) := ClaimDue(s.db, o, now);
        Commit(s, o, db, fault, if claim.Some? then AfterClaim(claim.value) else Idle, Idle)
    case Crash(o) =>
      if o !in s.tasks then s else Move(s, o, Ended)
    case DeleteByUser(ids) =>
      s.(db := DeleteMany(s.db, ids).0)
    case RetireOld(id) =>
      s.(db := Retire(s.db, id))
    case ForgetKeys(cutoff) =>
      s.(db := PruneKeys(s.db, cutoff))
  }

  ghost predicate Next(s: System, s': System) {
    exists a :: s' == Step(s, a)
  }

  ghost predicate Follows(run: seq<System>, i: int) {
    0 < i < |run| && Next(run[i - 1], run[i])
  }

  /** A run: from an empty table and no tasks, one action after the other. */
  ghost predicate Execution(run: seq<System>) {
    run != [] && run[0] == INITIAL && forall i :: 0 < i < |run| ==> Follows(run, i)
  }
}
