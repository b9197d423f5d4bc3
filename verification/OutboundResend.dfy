/** A run in which a message is handed back once and then sent: the bounds of
    `OutboundSafety` are reached, and the protocol does deliver. */
module OutboundResend {
  import opened Wrappers
  import opened OutboundStore
  import opened OutboundProtocol

  const PATH := "/org/freedesktop/ModemManager1/SMS/0"

  /** One message, its sender (task 1) and one worker (task 2). */
  function Sys(row: Row, sender: Point, worker: Point, calls: nat, handedBack: nat, issued: nat, accepted: set<Id>)
    : System
  {
    System(Db(map[0 := row], 1, map[]), map[2 := Task(true, worker), 1 := Task(false, sender)], map[0 := None],
           multiset{}[0 := calls], multiset{}[0 := handedBack], multiset{}[0 := issued], accepted, {}, {}, {})
  }

  lemma Acts(s: System, a: Action, s': System)
    requires Step(s, a) == s'
    ensures Next(s, s')
  {
  }

  // ---------- One step each ----------

  lemma OneMore(k: nat)
    ensures multiset{}[0 := k] + multiset{0} == multiset{}[0 := k + 1]
  {
  }

  lemma SenderMoves(r: Row, p: Point, p': Point, worker: Point, c: nat, h: nat)
    ensures Move(Sys(r, p, worker, c, h, 0, {}), 1, p') == Sys(r, p', worker, c, h, 0, {})
  {
    assert map[2 := Task(true, worker), 1 := Task(false, p)][1 := Task(false, p')]
        == map[2 := Task(true, worker), 1 := Task(false, p')];
  }

  lemma WorkerMoves(r: Row, p: Point, p': Point, c: nat, n: nat, acc: set<Id>)
    ensures Move(Sys(r, Ended, p, c, 1, n, acc), 2, p') == Sys(r, Ended, p', c, 1, n, acc)
  {
    assert map[2 := Task(true, p), 1 := Task(false, Ended)][2 := Task(true, p')]
        == map[2 := Task(true, p'), 1 := Task(false, Ended)];
  }

  lemma RowIsPut(r: Row, r': Row, sender: Point, worker: Point, c: nat, h: nat, n: nat, acc: set<Id>)
    ensures var s := Sys(r, sender, worker, c, h, n, acc);
      s.(db := Put(s.db, 0, r')) == Sys(r', sender, worker, c, h, n, acc)
  {
    assert map[0 := r][0 := r'] == map[0 := r'];
  }

  lemma SenderPrepares(r: Row)
    ensures Next(Sys(r, Preparing(0), Idle, 0, 0, 0, {}), Sys(r, Recording(0, PATH), Idle, 0, 0, 0, {}))
  {
    SenderMoves(r, Preparing(0), Recording(0, PATH), Idle, 0, 0);
    Acts(Sys(r, Preparing(0), Idle, 0, 0, 0, {}), PrepareReturns(1, Some(PATH)),
         Sys(r, Recording(0, PATH), Idle, 0, 0, 0, {}));
  }

  lemma SenderRecords(r: Row, r': Row)
    requires r.status == Sending && r.owner == Some(1) && r.phase == Some(Created)
    requires r' == r.(phase := Some(Prepared), smsPath := Some(PATH), nextAttemptAt := None, leaseUntil := Some(LEASE))
    ensures RecordingAnswered(Sys(r, Recording(0, PATH), Idle, 0, 0, 0, {}), 1, 0, Reliable)
         == Sys(r', Beginning(0, PATH), Idle, 0, 0, 0, {})
  {
    RowIsPut(r, r', Recording(0, PATH), Idle, 0, 0, 0, {});
    SenderMoves(r', Recording(0, PATH), Beginning(0, PATH), Idle, 0, 0);
  }

  lemma SenderBegins(r: Row, r': Row)
    requires r.status == Sending && r.owner == Some(1) && r.phase == Some(Prepared)
    requires r' == r.(phase := Some(SendStarted), nextAttemptAt := None, leaseUntil := Some(LEASE))
    ensures BeginningAnswered(Sys(r, Beginning(0, PATH), Idle, 0, 0, 0, {}), 1, 0, Reliable)
         == Sys(r', Calling(0, PATH), Idle, 1, 0, 0, {})
  {
    OneMore(0);
    RowIsPut(r, r', Beginning(0, PATH), Idle, 1, 0, 0, {});
    SenderMoves(r', Beginning(0, PATH), Calling(0, PATH), Idle, 1, 0);
  }

  lemma SenderFails(r: Row)
    ensures Next(Sys(r, Calling(0, PATH), Idle, 1, 0, 0, {}), Sys(r, Deferring(0, Prepared, RETRY_AFTER), Idle, 1, 0, 0, {}))
  {
    SenderMoves(r, Calling(0, PATH), Deferring(0, Prepared, RETRY_AFTER), Idle, 1, 0);
    Acts(Sys(r, Calling(0, PATH), Idle, 1, 0, 0, {}), ConnectFails(1), Sys(r, Deferring(0, Prepared, RETRY_AFTER), Idle, 1, 0, 0, {}));
  }

  lemma SenderHandsBack(r: Row, r': Row)
    requires r.status == Sending && r.owner == Some(1) && r.phase == Some(SendStarted)
    requires r' == r.(phase := Some(Prepared), owner := None, leaseUntil := None, nextAttemptAt := RETRY_AFTER)
    ensures DeferringAnswered(Sys(r, Deferring(0, Prepared, RETRY_AFTER), Idle, 1, 0, 0, {}), 1, 0, Reliable)
         == Sys(r', Ended, Idle, 1, 1, 0, {})
  {
    OneMore(0);
    RowIsPut(r, r', Deferring(0, Prepared, RETRY_AFTER), Idle, 1, 1, 0, {});
    SenderMoves(r', Deferring(0, Prepared, RETRY_AFTER), Ended, Idle, 1, 1);
  }

  lemma RowIsDue(db: Db)
    requires db.nextId == 1 && 0 in db.rows && Due(db.rows[0], 5)
    ensures FirstDue(db, 0, 5) == Some(0)
  {
  }

  lemma WorkerClaims(r: Row, r': Row)
    requires Due(r, 5) && r.phase == Some(Prepared) && r.smsPath == Some(PATH)
    requires r' == r.(owner := Some(2), leaseUntil := Some(5 + LEASE), nextAttemptAt := None)
    ensures Next(Sys(r, Ended, Idle, 1, 1, 0, {}), Sys(r', Ended, Inspecting(0, r'), 1, 1, 0, {}))
  {
    RowIsDue(Sys(r, Ended, Idle, 1, 1, 0, {}).db);
    RowIsPut(r, r', Ended, Idle, 1, 1, 0, {});
    WorkerMoves(r', Idle, Inspecting(0, r'), 1, 0, {});
    Acts(Sys(r, Ended, Idle, 1, 1, 0, {}), ClaimDueReturns(2, 5, Reliable),
         Sys(r', Ended, Inspecting(0, r'), 1, 1, 0, {}));
  }

  lemma WorkerInspects(r: Row)
    requires r.phase == Some(Prepared) && r.smsPath == Some(PATH)
    ensures Next(Sys(r, Ended, Inspecting(0, r), 1, 1, 0, {}), Sys(r, Ended, Beginning(0, PATH), 1, 1, 0, {}))
  {
    WorkerMoves(r, Inspecting(0, r), Beginning(0, PATH), 1, 0, {});
    Acts(Sys(r, Ended, Inspecting(0, r), 1, 1, 0, {}), SnapshotReturns(2, Some(Snapshot(Stored, r.request.phone, r.request.body))),
         Sys(r, Ended, Beginning(0, PATH), 1, 1, 0, {}));
  }

  lemma WorkerBegins(r: Row, r': Row)
    requires r.status == Sending && r.owner == Some(2) && r.phase == Some(Prepared)
    requires r' == r.(phase := Some(SendStarted), nextAttemptAt := None, leaseUntil := Some(5 + LEASE))
    ensures BeginningAnswered(Sys(r, Ended, Beginning(0, PATH), 1, 1, 0, {}), 2, 5, Reliable)
         == Sys(r', Ended, Calling(0, PATH), 2, 1, 0, {})
  {
    OneMore(1);
    RowIsPut(r, r', Ended, Beginning(0, PATH), 2, 1, 0, {});
    WorkerMoves(r', Beginning(0, PATH), Calling(0, PATH), 2, 0, {});
  }

  lemma WorkerSends(r: Row)
    ensures Next(Sys(r, Ended, Calling(0, PATH), 2, 1, 0, {}), Sys(r, Ended, Waiting(0), 2, 1, 1, {}))
  {
    OneMore(0);
    WorkerMoves(r, Calling(0, PATH), Waiting(0), 2, 1, {});
    Acts(Sys(r, Ended, Calling(0, PATH), 2, 1, 0, {}), SendIssued(2),
         Sys(r, Ended, Waiting(0), 2, 1, 1, {}));
  }

  lemma ModemAccepts(r: Row)
    ensures Next(Sys(r, Ended, Waiting(0), 2, 1, 1, {}), Sys(r, Ended, Finishing(0, Sent, 0), 2, 1, 1, {0}))
  {
    WorkerMoves(r, Waiting(0), Finishing(0, Sent, 0), 2, 1, {0});
    Acts(Sys(r, Ended, Waiting(0), 2, 1, 1, {}), SendReturns(2, Accepted),
         Sys(r, Ended, Finishing(0, Sent, 0), 2, 1, 1, {0}));
  }

  lemma WorkerFinishes(r: Row, r': Row)
    requires r.status == Sending && r.owner == Some(2)
    requires r' == r.(status := Sent, phase := Some(Complete), nextAttemptAt := None)
    ensures FinishingAnswered(Sys(r, Ended, Finishing(0, Sent, 0), 2, 1, 1, {0}), 2, Reliable)
         == Sys(r', Ended, Publishing(0, Sent), 2, 1, 1, {0})
  {
    RowIsPut(r, r', Ended, Finishing(0, Sent, 0), 2, 1, 1, {0});
    WorkerMoves(r', Finishing(0, Sent, 0), Publishing(0, Sent), 2, 1, {0});
  }

  // ---------- The run ----------

  lemma WorkerStarts() returns (s: System)
    ensures s == INITIAL.(tasks := map[2 := Task(true, Idle)]) && Next(INITIAL, s)
  {
    s := INITIAL.(tasks := map[2 := Task(true, Idle)]);
    Acts(INITIAL, StartWorker(2), s);
  }

  lemma SenderStarts(s: System, q: Request)
    requires s == INITIAL.(tasks := map[2 := Task(true, Idle)])
    ensures Next(s, Sys(NewRow(q, 1, 0), Preparing(0), Idle, 0, 0, 0, {}))
  {
    Acts(s, StartSender(1, q, None, 0, Reliable), Sys(NewRow(q, 1, 0), Preparing(0), Idle, 0, 0, 0, {}));
  }

  ghost predicate Reached(s: System) {
    exists run :: Execution(run) && run[|run| - 1] == s
  }

  lemma Reaches(s: System, s': System)
    requires Reached(s) && Next(s, s')
    ensures Reached(s')
  {
    var run :| Execution(run) && run[|run| - 1] == s;
    var longer := run + [s'];
    forall i | 0 < i < |longer| ensures Follows(longer, i) {
      if i < |run| { assert Follows(run, i); }
    }
    assert longer[|longer| - 1] == s';
  }

  lemma StoreReaches(s: System, s': System, o: Owner, now: int)
    requires Reached(s) && o in s.tasks && s' == StoreAnswered(s, o, now, Reliable)
    ensures Reached(s')
  {
    Acts(s, StoreReturns(o, now, Reliable), s');
    Reaches(s, s');
  }

  lemma SenderReaches(q: Request, r: Row)
    requires r == NewRow(q, 1, 0)
    ensures Reached(Sys(r, Recording(0, PATH), Idle, 0, 0, 0, {}))
  {
    var s := WorkerStarts();
    assert Execution([INITIAL]);
    assert Reached(INITIAL);
    Reaches(INITIAL, s);
    SenderStarts(s, q);
    Reaches(s, Sys(r, Preparing(0), Idle, 0, 0, 0, {}));
    SenderPrepares(r);
    Reaches(Sys(r, Preparing(0), Idle, 0, 0, 0, {}), Sys(r, Recording(0, PATH), Idle, 0, 0, 0, {}));
  }

  lemma CallReaches(r: Row, r': Row, r'': Row)
    requires Reached(Sys(r, Recording(0, PATH), Idle, 0, 0, 0, {}))
    requires r.status == Sending && r.owner == Some(1) && r.phase == Some(Created)
    requires r' == r.(phase := Some(Prepared), smsPath := Some(PATH), nextAttemptAt := None, leaseUntil := Some(LEASE))
    requires r'' == r'.(phase := Some(SendStarted), nextAttemptAt := None, leaseUntil := Some(LEASE))
    ensures Reached(Sys(r'', Calling(0, PATH), Idle, 1, 0, 0, {}))
  {
    SenderRecords(r, r');
    StoreReaches(Sys(r, Recording(0, PATH), Idle, 0, 0, 0, {}), Sys(r', Beginning(0, PATH), Idle, 0, 0, 0, {}), 1, 0);
    SenderBegins(r', r'');
    StoreReaches(Sys(r', Beginning(0, PATH), Idle, 0, 0, 0, {}), Sys(r'', Calling(0, PATH), Idle, 1, 0, 0, {}), 1, 0);
  }

  lemma FailureReaches(r: Row)
    requires Reached(Sys(r, Calling(0, PATH), Idle, 1, 0, 0, {}))
    ensures Reached(Sys(r, Deferring(0, Prepared, RETRY_AFTER), Idle, 1, 0, 0, {}))
  {
    SenderFails(r);
    Reaches(Sys(r, Calling(0, PATH), Idle, 1, 0, 0, {}), Sys(r, Deferring(0, Prepared, RETRY_AFTER), Idle, 1, 0, 0, {}));
  }

  lemma HandBackReaches(r: Row, r': Row)
    requires Reached(Sys(r, Deferring(0, Prepared, RETRY_AFTER), Idle, 1, 0, 0, {}))
    requires r.status == Sending && r.owner == Some(1) && r.phase == Some(SendStarted)
    requires r' == r.(phase := Some(Prepared), owner := None, leaseUntil := None, nextAttemptAt := RETRY_AFTER)
    ensures Reached(Sys(r', Ended, Idle, 1, 1, 0, {}))
  {
    SenderHandsBack(r, r');
    StoreReaches(Sys(r, Deferring(0, Prepared, RETRY_AFTER), Idle, 1, 0, 0, {}), Sys(r', Ended, Idle, 1, 1, 0, {}), 1, 0);
  }

  lemma ClaimReaches(r: Row, r': Row)
    requires Reached(Sys(r, Ended, Idle, 1, 1, 0, {}))
    requires Due(r, 5) && r.phase == Some(Prepared) && r.smsPath == Some(PATH)
    requires r' == r.(owner := Some(2), leaseUntil := Some(5 + LEASE), nextAttemptAt := None)
    ensures Reached(Sys(r', Ended, Beginning(0, PATH), 1, 1, 0, {}))
  {
    WorkerClaims(r, r');
    Reaches(Sys(r, Ended, Idle, 1, 1, 0, {}), Sys(r', Ended, Inspecting(0, r'), 1, 1, 0, {}));
    WorkerInspects(r');
    Reaches(Sys(r', Ended, Inspecting(0, r'), 1, 1, 0, {}), Sys(r', Ended, Beginning(0, PATH), 1, 1, 0, {}));
  }

  lemma SendReaches(r: Row, r': Row)
    requires Reached(Sys(r, Ended, Beginning(0, PATH), 1, 1, 0, {}))
    requires r.status == Sending && r.owner == Some(2) && r.phase == Some(Prepared)
    requires r' == r.(phase := Some(SendStarted), nextAttemptAt := None, leaseUntil := Some(5 + LEASE))
    ensures Reached(Sys(r', Ended, Waiting(0), 2, 1, 1, {}))
  {
    WorkerBegins(r, r');
    StoreReaches(Sys(r, Ended, Beginning(0, PATH), 1, 1, 0, {}), Sys(r', Ended, Calling(0, PATH), 2, 1, 0, {}), 2, 5);
    WorkerSends(r');
    Reaches(Sys(r', Ended, Calling(0, PATH), 2, 1, 0, {}), Sys(r', Ended, Waiting(0), 2, 1, 1, {}));
  }

  lemma EndReaches(r: Row, r': Row)
    requires Reached(Sys(r, Ended, Waiting(0), 2, 1, 1, {}))
    requires r.status == Sending && r.owner == Some(2)
    requires r' == r.(status := Sent, phase := Some(Complete), nextAttemptAt := None)
    ensures Reached(Sys(r', Ended, Publishing(0, Sent), 2, 1, 1, {0}))
  {
    ModemAccepts(r);
    Reaches(Sys(r, Ended, Waiting(0), 2, 1, 1, {}), Sys(r, Ended, Finishing(0, Sent, 0), 2, 1, 1, {0}));
    WorkerFinishes(r, r');
    StoreReaches(Sys(r, Ended, Finishing(0, Sent, 0), 2, 1, 1, {0}), Sys(r', Ended, Publishing(0, Sent), 2, 1, 1, {0}), 2, 5);
  }

  /** A message that was handed back is sent by the worker: two calls, one Send. */
  lemma ResendHappens(q: Request) returns (run: seq<System>)
    ensures Execution(run)
    ensures var s := run[|run| - 1];
      s.calls[0] == 2 && s.handedBack[0] == 1 && s.issued[0] == 1 && 0 in s.accepted
      && 0 in s.db.rows && s.db.rows[0].status == Sent && s.db.rows[0].request == q
  {
    var created := NewRow(q, 1, 0);
    var prepared := created.(phase := Some(Prepared), smsPath := Some(PATH));
    var started := prepared.(phase := Some(SendStarted));
    var deferred := prepared.(owner := None, leaseUntil := None, nextAttemptAt := RETRY_AFTER);
    var claimed := deferred.(owner := Some(2), leaseUntil := Some(5 + LEASE), nextAttemptAt := None);
    var resent := claimed.(phase := Some(SendStarted));
    var sent := resent.(status := Sent, phase := Some(Complete));
    SenderReaches(q, created);
    CallReaches(created, prepared, started);
    FailureReaches(started);
    HandBackReaches(started, deferred);
    ClaimReaches(deferred, claimed);
    SendReaches(claimed, resent);
    EndReaches(resent, sent);
    run :| Execution(run) && run[|run| - 1] == Sys(sent, Ended, Publishing(0, Sent), 2, 1, 1, {0});
  }
}
