/** The protocol served by the table that is updated in place: a call changes the table
    through its methods only, and the task goes on with what the table answered. */
module OutboundService {
  import opened Wrappers
  import opened OutboundStore
  import opened OutboundProtocol
  import opened OutboundSafety

  method StartSenderTask(table: OutboundTable, s: System, o: Owner, request: Request, key: Option<string>,
                         now: int, fault: Fault)
    returns (s': System)
    requires s.db == table.Contents() && o !in s.tasks
    modifies table
    ensures s' == StartedSender(s, o, request, key, now, fault) && s'.db == table.Contents()
  {
    s' := s.(tasks := s.tasks[o := Task(false, Ended)]);
    if fault.LostRequest? { return; }
    var outcome := table.CreateOrGetOutbound(request, key, o, now);
    s' := s'.(db := table.Contents());
    if outcome.Inserted? {
      s' := s'.(origin := s.origin[outcome.id := key]);
      if fault.Reliable? { s' := Move(s', o, Preparing(outcome.id)); }
    }
  }

  method RecordObject(table: OutboundTable, s: System, o: Owner, now: int, fault: Fault) returns (s': System)
    requires s.db == table.Contents() && o in s.tasks && s.tasks[o].at.Recording?
    modifies table
    ensures s' == RecordingAnswered(s, o, now, fault) && s'.db == table.Contents()
  {
    var Recording(id, path) := s.tasks[o].at;
    var rest := Rest(s.tasks[o]);
    if fault.LostRequest? { return Move(s, o, rest); }
    var t := table.SetOutboundPrepared(id, o, path, now);
    s' := Move(s.(db := table.Contents()), o, if fault.Reliable? && t.Applied? then Beginning(id, path) else rest);
  }

  method BeginSending(table: OutboundTable, s: System, o: Owner, now: int, fault: Fault) returns (s': System)
    requires s.db == table.Contents() && o in s.tasks && s.tasks[o].at.Beginning?
    modifies table
    ensures s' == BeginningAnswered(s, o, now, fault) && s'.db == table.Contents()
  {
    var Beginning(id, path) := s.tasks[o].at;
    if fault.LostRequest? { return Move(s, o, Rest(s.tasks[o])); }
    var t := table.BeginOutboundSend(id, o, now);
    s' := s.(db := table.Contents());
    if fault.Reliable? && t.Applied? {
      s' := Move(s'.(calls := s.calls + multiset{id}), o, Calling(id, path));
    } else {
      s' := Move(s', o, Rest(s.tasks[o]));
    }
  }

  method FinishMessage(table: OutboundTable, s: System, o: Owner, fault: Fault) returns (s': System)
    requires s.db == table.Contents() && o in s.tasks && s.tasks[o].at.Finishing?
    modifies table
    ensures s' == FinishingAnswered(s, o, fault) && s'.db == table.Contents()
  {
    var Finishing(id, status, attempt) := s.tasks[o].at;
    var rest := Rest(s.tasks[o]);
    var retry := if attempt + 1 == FINISH_ATTEMPTS then rest else Finishing(id, status, attempt + 1);
    if fault.LostRequest? { return Move(s, o, retry); }
    var t := table.FinishClaimedOutbound(id, o, status);
    s' := s.(db := table.Contents());
    if fault.LostReply? || t.NotFound? {
      s' := Move(s', o, retry);
    } else {
      s' := Move(s', o, if t.Applied? || Terminal(t.row.status) then Publishing(id, t.row.status) else rest);
    }
  }

  method DeferMessage(table: OutboundTable, s: System, o: Owner, now: int, fault: Fault) returns (s': System)
    requires s.db == table.Contents() && o in s.tasks && s.tasks[o].at.Deferring?
    modifies table
    ensures s' == DeferringAnswered(s, o, now, fault) && s'.db == table.Contents()
  {
    var Deferring(id, phase, retryAfter) := s.tasks[o].at;
    var rest := Rest(s.tasks[o]);
    if fault.LostRequest? { return Move(s, o, rest); }
    var started := id in table.rows && table.rows[id].phase == Some(SendStarted);
    var t := table.DeferOutbound(id, o, phase, retryAfter, now);
    s' := Move(s.(db := table.Contents()), o, rest);
    if t.Applied? && phase == Prepared && started {
      s' := s'.(handedBack := s.handedBack + multiset{id});
    }
    if fault.Reliable? && t.OwnershipLost? && Terminal(t.row.status) {
      s' := s'.(published := s.published + {(id, t.row.status)});
    }
  }

  method AcknowledgeEvent(table: OutboundTable, s: System, o: Owner, now: int, fault: Fault) returns (s': System)
    requires s.db == table.Contents() && o in s.tasks && s.tasks[o].at.Acknowledging?
    modifies table
    ensures s' == StoreAnswered(s, o, now, fault) && s'.db == table.Contents()
  {
    if !fault.LostRequest? {
      var _ := table.AcknowledgeOutboundEvent(s.tasks[o].at.id, o);
    }
    s' := Move(s.(db := table.Contents()), o, Rest(s.tasks[o]));
  }

  method CallStore(table: OutboundTable, s: System, o: Owner, now: int, fault: Fault) returns (s': System)
    requires s.db == table.Contents() && o in s.tasks
    modifies table
    ensures s' == StoreAnswered(s, o, now, fault) && s'.db == table.Contents()
  {
    match s.tasks[o].at
    case Recording(_, _) => s' := RecordObject(table, s, o, now, fault);
    case Beginning(_, _) => s' := BeginSending(table, s, o, now, fault);
    case Finishing(_, _, _) => s' := FinishMessage(table, s, o, fault);
    case Deferring(_, _, _) => s' := DeferMessage(table, s, o, now, fault);
    case Acknowledging(_) => s' := AcknowledgeEvent(table, s, o, now, fault);
    case _ => s' := s;
  }

  method RenewLease(table: OutboundTable, s: System, o: Owner, now: int, fault: Fault) returns (s': System)
    requires s.db == table.Contents()
    modifies table
    ensures s' == Step(s, Heartbeat(o, now, fault)) && s'.db == table.Contents()
  {
    if o in s.tasks && !fault.LostRequest? {
      var at := s.tasks[o].at;
      if at.Preparing? || at.Calling? || at.Waiting? || at.Inspecting? {
        var _ := table.RenewOutboundLease(at.id, o, now);
      }
    }
    s' := s.(db := table.Contents());
  }

  method ClaimEventFor(table: OutboundTable, s: System, o: Owner, now: int, fault: Fault) returns (s': System)
    requires s.db == table.Contents()
    modifies table
    ensures s' == Step(s, ClaimEventReturns(o, now, fault)) && s'.db == table.Contents()
  {
    if o !in s.tasks || !s.tasks[o].at.Idle? { return s; }
    if fault.LostRequest? { return Move(s, o, Idle); }
    var claim := table.ClaimPendingOutboundEvent(o, now);
    s' := Move(s.(db := table.Contents()), o,
               if fault.Reliable? && claim.Some? then Publishing(claim.value.id, claim.value.row.status) else Idle);
  }

  method ClaimDueFor(table: OutboundTable, s: System, o: Owner, now: int, fault: Fault) returns (s': System)
    requires s.db == table.Contents()
    modifies table
    ensures s' == Step(s, ClaimDueReturns(o, now, fault)) && s'.db == table.Contents()
  {
    if o !in s.tasks || !s.tasks[o].at.Idle? { return s; }
    if fault.LostRequest? { return Move(s, o, Idle); }
    var claim := table.ClaimDueOutbound(o, now);
    s' := Move(s.(db := table.Contents()), o,
               if fault.Reliable? && claim.Some? then AfterClaim(claim.value) else Idle);
  }

  method DeleteBatch(table: OutboundTable, s: System, ids: seq<Id>) returns (s': System)
    requires s.db == table.Contents()
    modifies table
    ensures s' == Step(s, DeleteByUser(ids)) && s'.db == table.Contents()
  {
    var _ := table.DeleteMessages(ids);
    s' := s.(db := table.Contents());
  }

  method Retain(table: OutboundTable, s: System, id: Id) returns (s': System)
    requires s.db == table.Contents()
    modifies table
    ensures s' == Step(s, RetireOld(id)) && s'.db == table.Contents()
  {
    var _ := table.RetireMessage(id);
    s' := s.(db := table.Contents());
  }

  method Forget(table: OutboundTable, s: System, cutoff: int) returns (s': System)
    requires s.db == table.Contents()
    modifies table
    ensures s' == Step(s, ForgetKeys(cutoff)) && s'.db == table.Contents()
  {
    var _ := table.PruneOutboundIdempotency(cutoff);
    s' := s.(db := table.Contents());
  }

  /** One step, whatever it is: the table in place goes the way of the protocol. */
  method Serve(table: OutboundTable, s: System, a: Action) returns (s': System)
    requires s.db == table.Contents()
    modifies table
    ensures s' == Step(s, a) && s'.db == table.Contents()
  {
    match a
    case StartSender(o, request, key, now, fault) =>
      if o in s.tasks { s' := s; } else { s' := StartSenderTask(table, s, o, request, key, now, fault); }
    case StoreReturns(o, now, fault) =>
      if o in s.tasks { s' := CallStore(table, s, o, now, fault); } else { s' := s; }
    case Heartbeat(o, now, fault) => s' := RenewLease(table, s, o, now, fault);
    case ClaimEventReturns(o, now, fault) => s' := ClaimEventFor(table, s, o, now, fault);
    case ClaimDueReturns(o, now, fault) => s' := ClaimDueFor(table, s, o, now, fault);
    case DeleteByUser(ids) => s' := DeleteBatch(table, s, ids);
    case RetireOld(id) => s' := Retain(table, s, id);
    case ForgetKeys(cutoff) => s' := Forget(table, s, cutoff);
    case _ => s' := Step(s, a);
  }

  /** What the rows of a table say is true of the modem, and its keys name its rows. */
  ghost predicate Sound(rows: map<Id, Row>, keys: map<string, KeyEntry>, s: System) {
    && (forall id :: id in rows ==>
          && s.issued[id] <= 1
          && (rows[id].status == Sent ==> id in s.accepted || id in s.seenSent)
          && (rows[id].status == Failed ==> s.issued[id] == 0 || id in s.rejected))
    && (forall k :: k in keys && keys[k].messageId.Some? && keys[k].messageId.value in rows ==>
          rows[keys[k].messageId.value].request == keys[k].request)
  }

  lemma InvIsSound(s: System)
    requires Inv(s)
    ensures Sound(s.db.rows, s.db.keys, s)
  {
    forall id | id in s.db.rows
      ensures s.issued[id] <= 1
      ensures s.db.rows[id].status == Sent ==> id in s.accepted || id in s.seenSent
      ensures s.db.rows[id].status == Failed ==> s.issued[id] == 0 || id in s.rejected
    {
      assert MessageInv(s, id);
    }
  }

  ghost predicate Took(run: seq<System>, actions: seq<Action>, i: int) {
    0 <= i < |actions| && |run| > i + 1 && run[i + 1] == Step(run[i], actions[i])
  }

  /** The run of a list of actions. */
  ghost predicate RunOf(actions: seq<Action>, run: seq<System>) {
    |run| == |actions| + 1 && run[0] == INITIAL && forall i :: 0 <= i < |actions| ==> Took(run, actions, i)
  }

  lemma RunGrows(actions: seq<Action>, run: seq<System>, a: Action, s: System)
    requires RunOf(actions, run) && s == Step(run[|actions|], a)
    ensures RunOf(actions + [a], run + [s])
  {
    forall i | 0 <= i <= |actions| ensures Took(run + [s], actions + [a], i) {
      if i < |actions| { assert Took(run, actions, i); }
    }
  }

  lemma RunGrowsAt(actions: seq<Action>, i: nat, run: seq<System>, s: System)
    requires i < |actions| && RunOf(actions[..i], run) && s == Step(run[i], actions[i])
    ensures RunOf(actions[..i + 1], run + [s])
  {
    RunGrows(actions[..i], run, actions[i], s);
    assert actions[..i] + [actions[i]] == actions[..i + 1];
  }

  lemma RunIsSound(actions: seq<Action>, run: seq<System>)
    requires RunOf(actions, run)
    ensures var s := run[|actions|]; Sound(s.db.rows, s.db.keys, s)
  {
    RunIsExecution(actions, run);
    RunInv(run, |actions|);
    InvIsSound(run[|actions|]);
  }

  lemma RunIsExecution(actions: seq<Action>, run: seq<System>)
    requires RunOf(actions, run)
    ensures Execution(run)
  {
    forall i | 0 < i < |run| ensures Follows(run, i) {
      assert Took(run, actions, i - 1);
    }
  }

  /** The law of the table: a fresh one, after any sequence of calls by any tasks with any
      faults, holds only rows that are true of what the modem was asked and answered. */
  method ServeAll(actions: seq<Action>) returns (table: OutboundTable, s: System, ghost run: seq<System>)
    ensures RunOf(actions, run) && s == run[|actions|] && s.db == table.Contents()
    ensures Sound(table.rows, table.keys, s)
  {
    table := new OutboundTable();
    s, run := INITIAL, [INITIAL];
    for i := 0 to |actions|
      invariant fresh(table) && s.db == table.Contents()
      invariant RunOf(actions[..i], run) && s == run[i]
    {
      s := Serve(table, s, actions[i]);
      RunGrowsAt(actions, i, run, s);
      run := run + [s];
    }
    assert actions[..|actions|] == actions;
    RunIsSound(actions, run);
  }
}
