/** What holds in every state the outbound protocol can reach. */
module OutboundSafety {
  import opened Wrappers
  import opened OutboundStore
  import opened OutboundProtocol

  // ---------- The invariant, message by message ----------

  ghost predicate At(s: System, o: Owner, id: Id) {
    o in s.tasks && !s.tasks[o].at.Idle? && !s.tasks[o].at.Ended? && s.tasks[o].at.id == id
  }

  /** The row still carries the right to send. */
  ghost predicate Early(s: System, id: Id) {
    id in s.db.rows && (s.db.rows[id].phase == Some(Created) || s.db.rows[id].phase == Some(Prepared))
  }

  ghost predicate InCall(s: System, o: Owner, id: Id) {
    At(s, o, id) && s.tasks[o].at.Calling?
  }

  /** A call that reached no modem, about to be put back by the row's owner. */
  ghost predicate HandingBack(s: System, o: Owner, id: Id) {
    At(s, o, id) && s.tasks[o].at.Deferring? && s.tasks[o].at.phase == Prepared
    && OwnedBy(s.db, id, o) && s.db.rows[id].phase == Some(SendStarted)
  }

  ghost predicate Holds(s: System, o: Owner, id: Id) {
    InCall(s, o, id) || HandingBack(s, o, id)
  }

  /** The right to send is in one place: in the row, with one task, or used up. */
  ghost predicate SendInv(s: System, id: Id) {
    && s.issued[id] <= 1
    && s.calls[id] <= s.handedBack[id] + 1
    && (Early(s, id) ==> s.issued[id] == 0 && s.calls[id] == s.handedBack[id])
    && (forall o :: Holds(s, o, id) ==>
          s.issued[id] == 0 && !Early(s, id) && s.calls[id] == s.handedBack[id] + 1)
    && (forall o, p :: Holds(s, o, id) && Holds(s, p, id) ==> o == p)
  }

  ghost predicate RowInv(s: System, id: Id) {
    && (id in s.origin <==> id < s.db.nextId)
    && (id in s.db.rows ==> id < s.db.nextId)
    && (id >= s.db.nextId ==> s.issued[id] == s.calls[id] == s.handedBack[id] == 0)
    && (id in s.db.rows ==>
          (Terminal(s.db.rows[id].status) <==> s.db.rows[id].phase.None? || s.db.rows[id].phase == Some(Complete)))
  }

  /** A recorded end is true, and a failure leaves nobody who could still send. */
  ghost predicate StatusInv(s: System, id: Id) {
    && (id in s.accepted || id in s.rejected ==> s.issued[id] == 1)
    && (id in s.db.rows && s.db.rows[id].status == Sent ==> id in s.accepted || id in s.seenSent)
    && (id in s.db.rows && s.db.rows[id].status == Failed && id !in s.rejected ==>
          s.issued[id] == 0 && forall o :: !InCall(s, o, id))
    && (id in s.db.rows && Terminal(s.db.rows[id].status) && s.db.rows[id].phase.None? ==>
          (id, s.db.rows[id].status) in s.published)
  }

  /** What a task may rely on while it waits. */
  ghost predicate TaskInv(s: System, o: Owner, id: Id)
    requires At(s, o, id)
  {
    var own := OwnedBy(s.db, id, o);
    var kept := id in s.db.rows;
    id < s.db.nextId &&
    match s.tasks[o].at
    case Preparing(_) => own ==> s.db.rows[id].phase == Some(Created)
    case Recording(_, path) => own ==> s.db.rows[id].phase == Some(Created)
    case Beginning(_, path) =>
      own ==> s.db.rows[id].phase == Some(Prepared) && s.db.rows[id].smsPath == Some(path)
    case Calling(_, path) =>
      && (kept ==> s.db.rows[id].smsPath == Some(path))
      && (own ==> s.db.rows[id].phase == Some(SendStarted))
    case Waiting(_) => s.issued[id] == 1
    case Inspecting(_, claimed) =>
      && claimed.smsPath.Some?
      && claimed.phase in {Some(Prepared), Some(SendStarted), Some(Uncertain)}
      && (kept ==> s.db.rows[id].request == claimed.request)
      && (own ==> s.db.rows[id].phase == claimed.phase && s.db.rows[id].smsPath == claimed.smsPath)
    case Finishing(_, status, attempt) =>
      && Terminal(status)
      && attempt < FINISH_ATTEMPTS
      && (status == Sent ==> id in s.accepted || id in s.seenSent)
      && (status == Failed ==> id in s.rejected || (own ==> Early(s, id)))
    case Deferring(_, phase, _) =>
      && phase in {Prepared, Uncertain, Unknown}
      && (phase == Prepared && own ==> s.db.rows[id].phase in {Some(Prepared), Some(SendStarted)})
    case Publishing(_, status) =>
      Terminal(status) && (kept ==> s.db.rows[id].status == status)
    case Acknowledging(_) =>
      kept ==> Terminal(s.db.rows[id].status) && (id, s.db.rows[id].status) in s.published
    case _ => true
  }

  ghost predicate MessageInv(s: System, id: Id) {
    && RowInv(s, id) && SendInv(s, id) && StatusInv(s, id)
    && forall o :: At(s, o, id) ==> TaskInv(s, o, id)
  }

  ghost predicate KeyInv(s: System) {
    && (forall id :: id in s.db.rows ==> id in s.origin)
    && (forall id :: id in s.db.rows && s.origin[id].Some? ==>
          s.origin[id].value in s.db.keys && s.db.keys[s.origin[id].value].messageId == Some(id))
    && (forall k :: k in s.db.keys && s.db.keys[k].messageId.Some? ==>
          var id := s.db.keys[k].messageId.value;
          && id in s.origin && s.origin[id] == Some(k)
          && (id in s.db.rows ==> s.db.rows[id].request == s.db.keys[k].request))
  }

  ghost predicate Inv(s: System) {
    KeyInv(s) && forall id :: MessageInv(s, id)
  }

  // ---------- Every step keeps it ----------

  /** Nobody can issue a Send for the message any more. */
  ghost predicate Dead(s: System, id: Id) {
    id < s.db.nextId && !Early(s, id) && forall o :: !Holds(s, o, id)
  }

  /** What a step never undoes for a message that already exists. */
  ghost predicate ProgressAt(s: System, s': System, id: Id) {
    && (id in s'.db.rows ==> id in s.db.rows)
    && (id in s'.db.rows && Terminal(s.db.rows[id].status) ==>
          s'.db.rows[id].status == s.db.rows[id].status)
    && (Dead(s, id) ==> Dead(s', id) && s'.issued[id] == s.issued[id])
  }

  ghost predicate Progress(s: System, s': System) {
    s.db.nextId <= s'.db.nextId && forall id: Id :: id < s.db.nextId ==> ProgressAt(s, s', id)
  }

  lemma ProgressChains(s0: System, s1: System, s2: System)
    requires Progress(s0, s1) && Progress(s1, s2)
    ensures Progress(s0, s2)
  {
    forall id: Id | id < s0.db.nextId ensures ProgressAt(s0, s2, id) {
      assert ProgressAt(s0, s1, id) && ProgressAt(s1, s2, id);
    }
  }

  ghost predicate Kept(s: System, s': System) {
    Inv(s') && Progress(s, s')
  }

  /** Row, counters and records of message `id` are the same in both states. */
  ghost predicate SameRecord(s: System, s': System, id: Id) {
    && (id < s.db.nextId <==> id < s'.db.nextId)
    && (id in s.origin <==> id in s'.origin)
    && (id in s.db.rows <==> id in s'.db.rows)
    && (id in s.db.rows ==> s'.db.rows[id] == s.db.rows[id])
    && s.issued[id] == s'.issued[id] && s.calls[id] == s'.calls[id]
    && s.handedBack[id] == s'.handedBack[id]
    && (id in s.accepted <==> id in s'.accepted) && (id in s.rejected <==> id in s'.rejected)
    && (id in s.seenSent <==> id in s'.seenSent)
  }

  /** Two states that cannot be told apart by looking at message `id` only. */
  ghost predicate SameView(s: System, s': System, id: Id) {
    && SameRecord(s, s', id)
    && s.published <= s'.published
    && (forall o :: At(s, o, id) <==> At(s', o, id))
    && (forall o :: At(s, o, id) ==> s.tasks[o].at == s'.tasks[o].at)
  }

  lemma SameViewKeeps(s: System, s': System, id: Id)
    requires MessageInv(s, id) && SameView(s, s', id)
    ensures MessageInv(s', id)
    ensures forall o :: Holds(s, o, id) <==> Holds(s', o, id)
  {
    forall o ensures Holds(s, o, id) <==> Holds(s', o, id)
             ensures InCall(s, o, id) <==> InCall(s', o, id) {}
  }

  /** Task `o` moved at most within message `id`, and nothing else was touched. */
  ghost predicate OnlyAt(s: System, s': System, o: Owner, id: Id) {
    && (s.tasks == s'.tasks || (
          && (forall j :: At(s, o, j) || At(s', o, j) ==> j == id)
          && (forall p :: p != o ==> (p in s.tasks <==> p in s'.tasks))
          && (forall p :: p != o && p in s.tasks ==> s'.tasks[p] == s.tasks[p])))
    && s.published <= s'.published
    && (forall j :: j != id ==> SameRecord(s, s', j))
  }

  lemma OnlyAtConfined(s: System, s': System, o: Owner, id: Id, j: Id)
    requires OnlyAt(s, s', o, id) && j != id
    ensures SameView(s, s', j)
  {
    forall p ensures At(s, p, j) <==> At(s', p, j)
             ensures At(s, p, j) ==> s.tasks[p].at == s'.tasks[p].at
    {
      if p != o { assert s.tasks == s'.tasks || (p in s.tasks <==> p in s'.tasks); }
    }
  }

  /** What such a step may do to message `id` under the feet of the other tasks. */
  ghost predicate Gentle(s: System, s': System, o: Owner, id: Id) {
    && OnlyAt(s, s', o, id)
    && s.db.nextId <= s'.db.nextId
    && s.issued[id] <= s'.issued[id] <= 1
    && s.accepted <= s'.accepted && s.rejected <= s'.rejected && s.seenSent <= s'.seenSent
    && (id in s'.db.rows && id < s.db.nextId ==>
          && id in s.db.rows
          && s'.db.rows[id].request == s.db.rows[id].request
          && (Terminal(s.db.rows[id].status) ==> s'.db.rows[id].status == s.db.rows[id].status)
          && (s'.db.rows[id].smsPath == s.db.rows[id].smsPath || Early(s, id))
          && (forall p :: p != o && OwnedBy(s'.db, id, p) ==>
                && OwnedBy(s.db, id, p)
                && s'.db.rows[id].phase == s.db.rows[id].phase
                && s'.db.rows[id].smsPath == s.db.rows[id].smsPath))
  }

  lemma OthersKeep(s: System, s': System, o: Owner, id: Id)
    requires MessageInv(s, id) && Gentle(s, s', o, id)
    ensures forall p :: p != o ==> (At(s', p, id) <==> At(s, p, id))
    ensures forall p :: p != o && At(s', p, id) ==> TaskInv(s', p, id)
    ensures forall p :: p != o ==> (InCall(s', p, id) <==> InCall(s, p, id))
    ensures forall p :: p != o && HandingBack(s', p, id) ==> HandingBack(s, p, id)
  {
    forall p | p != o ensures At(s', p, id) <==> At(s, p, id) {
      assert s.tasks == s'.tasks || (p in s.tasks <==> p in s'.tasks);
    }
    forall p | p != o && At(s', p, id) ensures TaskInv(s', p, id) {
      assert At(s, p, id) && TaskInv(s, p, id);
      if InCall(s, p, id) { assert Holds(s, p, id); }
    }
  }

  /** The right to send may only leave the row for `o`, return from `o`, or be used by `o`. */
  ghost predicate RightMoves(s: System, s': System, o: Owner, id: Id) {
    && s'.calls[id] <= s'.handedBack[id] + 1
    && (Early(s', id) ==> s'.issued[id] == 0 && s'.calls[id] == s'.handedBack[id])
    && (Holds(s', o, id) ==> s'.issued[id] == 0 && !Early(s', id) && s'.calls[id] == s'.handedBack[id] + 1)
    && (Holds(s', o, id) || (Early(s', id) && id < s.db.nextId) || s.issued[id] != s'.issued[id]
        || s.calls[id] != s'.calls[id] || s.handedBack[id] != s'.handedBack[id]
        ==> Early(s, id) || Holds(s, o, id))
  }

  lemma SendKeeps(s: System, s': System, o: Owner, id: Id)
    requires MessageInv(s, id) && Gentle(s, s', o, id) && RightMoves(s, s', o, id)
    ensures SendInv(s', id)
    ensures id < s.db.nextId && Dead(s, id) ==> Dead(s', id) && s'.issued[id] == s.issued[id]
  {
    OthersKeep(s, s', o, id);
    assert SendInv(s, id);
    forall p | p != o && Holds(s', p, id) ensures Holds(s, p, id) {
      assert InCall(s', p, id) || HandingBack(s', p, id);
    }
    forall p | Holds(s', p, id)
      ensures s'.issued[id] == 0 && !Early(s', id) && s'.calls[id] == s'.handedBack[id] + 1
    {
      if p != o { assert Holds(s, p, id); assert At(s, p, id) && TaskInv(s, p, id); }
    }
    forall p, q | Holds(s', p, id) && Holds(s', q, id) ensures p == q {
      if p != o { assert Holds(s, p, id); }
      if q != o { assert Holds(s, q, id); }
    }
  }

  lemma TasksKeep(s: System, s': System, o: Owner, id: Id)
    requires MessageInv(s, id) && Gentle(s, s', o, id)
    requires At(s', o, id) ==> TaskInv(s', o, id)
    ensures forall p :: At(s', p, id) ==> TaskInv(s', p, id)
  {
    OthersKeep(s, s', o, id);
  }

  lemma ElsewhereKeeps(s: System, s': System, o: Owner, id: Id)
    requires Inv(s) && OnlyAt(s, s', o, id)
    ensures forall j :: j != id ==> MessageInv(s', j) && SameRecord(s, s', j)
    ensures forall j :: j != id && Dead(s, j) ==> Dead(s', j)
  {
    forall j | j != id ensures MessageInv(s', j) && SameRecord(s, s', j) && (Dead(s, j) ==> Dead(s', j)) {
      assert MessageInv(s, j);
      OnlyAtConfined(s, s', o, id, j);
      SameViewKeeps(s, s', j);
    }
  }

  /** All that has to be checked of a step of task `o` within message `id`. */
  ghost predicate Safe(s: System, s': System, o: Owner, id: Id) {
    && Gentle(s, s', o, id) && RightMoves(s, s', o, id)
    && RowInv(s', id) && StatusInv(s', id)
    && (At(s', o, id) ==> TaskInv(s', o, id))
  }

  ghost predicate SameKeys(s: System, s': System, id: Id) {
    s'.db.keys == s.db.keys && s'.origin == s.origin && id < s.db.nextId
  }

  lemma OutcomeKeeps(s: System, s': System, o: Owner, id: Id)
    requires Inv(s) && Safe(s, s', o, id) && (KeyInv(s') || SameKeys(s, s', id))
    ensures Kept(s, s')
  {
    assert MessageInv(s, id);
    SendKeeps(s, s', o, id);
    TasksKeep(s, s', o, id);
    ElsewhereKeeps(s, s', o, id);
    assert MessageInv(s', id);
    assert KeyInv(s') by {
      forall j: Id | j in s'.db.rows && j != id ensures SameRecord(s, s', j) {}
    }
    forall j: Id | j < s.db.nextId ensures ProgressAt(s, s', j) {
      if j != id { assert SameRecord(s, s', j); }
    }
  }

  // ---------- Store calls ----------

  /** Everything `s'` may differ in from `s` after a move of `o` within message `id`. */
  ghost predicate Shape(s: System, s': System, o: Owner, id: Id) {
    && o in s.tasks && o in s'.tasks
    && s'.tasks == s.tasks[o := s'.tasks[o]]
    && (s.tasks[o].at.Idle? || s.tasks[o].at.Ended? || s.tasks[o].at.id == id)
    && (s'.tasks[o].at.Idle? || s'.tasks[o].at.Ended? || s'.tasks[o].at.id == id)
    && s'.origin == s.origin && s'.db.nextId == s.db.nextId
    && (s'.db.rows == s.db.rows || (id in s'.db.rows && s'.db.rows == s.db.rows[id := s'.db.rows[id]]))
    && (s'.calls == s.calls || s'.calls == s.calls + multiset{id})
    && (s'.handedBack == s.handedBack || s'.handedBack == s.handedBack + multiset{id})
    && (s'.issued == s.issued || s'.issued == s.issued + multiset{id})
    && (s'.accepted == s.accepted || s'.accepted == s.accepted + {id})
    && (s'.rejected == s.rejected || s'.rejected == s.rejected + {id})
    && (s'.seenSent == s.seenSent || s'.seenSent == s.seenSent + {id})
    && s.published <= s'.published
  }

  lemma ShapeOnlyAt(s: System, s': System, o: Owner, id: Id)
    requires Shape(s, s', o, id)
    ensures OnlyAt(s, s', o, id)
  {
    assert forall j :: At(s, o, j) || At(s', o, j) ==> j == id;
    forall j | j != id ensures SameRecord(s, s', j) {}
  }

  /** An owner's own write cannot break what the other tasks rely on. */
  lemma OwnWriteGentle(s: System, s': System, o: Owner, id: Id)
    requires OnlyAt(s, s', o, id) && s.db.nextId == s'.db.nextId
    requires MessageInv(s, id) && s'.issued == s.issued
    requires s.accepted == s'.accepted && s.rejected == s'.rejected && s.seenSent == s'.seenSent
    requires s'.db.rows == s.db.rows ||
      (OwnedBy(s.db, id, o) && id in s'.db.rows
       && s'.db.rows[id].request == s.db.rows[id].request
       && s'.db.rows[id].owner in {Some(o), None}
       && (s'.db.rows[id].smsPath == s.db.rows[id].smsPath || Early(s, id)))
      || s'.db == Acknowledge(s.db, id, o)
    ensures Gentle(s, s', o, id)
  {
  }

  /** A task that waits for the store, its message, and what both may rely on. */
  ghost predicate Waits(s: System, o: Owner, id: Id) {
    MessageInv(s, id) && At(s, o, id) && TaskInv(s, o, id)
  }

  lemma WaitsHere(s: System, o: Owner) returns (id: Id)
    requires Inv(s) && o in s.tasks && !s.tasks[o].at.Idle? && !s.tasks[o].at.Ended?
    ensures id == s.tasks[o].at.id && Waits(s, o, id)
  {
    id := s.tasks[o].at.id;
    assert MessageInv(s, id) && At(s, o, id);
  }

  /** A write that touches no counter and leaves `o` without the right. */
  lemma QuietMovesRight(s: System, s': System, o: Owner, id: Id)
    requires SendInv(s, id) && (Early(s', id) ==> Early(s, id)) && !Holds(s', o, id)
    requires s'.issued == s.issued && s'.calls == s.calls && s'.handedBack == s.handedBack
    ensures RightMoves(s, s', o, id)
  {
  }

  lemma RecordingIsGentle(s: System, s': System, o: Owner, id: Id, now: int, fault: Fault)
    requires Waits(s, o, id) && s.tasks[o].at.Recording? && s' == RecordingAnswered(s, o, now, fault)
    ensures Gentle(s, s', o, id) && SameKeys(s, s', id)
  {
    assert Shape(s, s', o, id);
    ShapeOnlyAt(s, s', o, id);
    OwnWriteGentle(s, s', o, id);
  }

  lemma RecordingMovesRight(s: System, s': System, o: Owner, id: Id, now: int, fault: Fault)
    requires Waits(s, o, id) && s.tasks[o].at.Recording? && s' == RecordingAnswered(s, o, now, fault) && Gentle(s, s', o, id)
    ensures RightMoves(s, s', o, id) && RowInv(s', id)
  {
    QuietMovesRight(s, s', o, id);
  }

  lemma RecordingIsTruthful(s: System, s': System, o: Owner, id: Id, now: int, fault: Fault)
    requires Waits(s, o, id) && s.tasks[o].at.Recording? && s' == RecordingAnswered(s, o, now, fault) && Gentle(s, s', o, id)
    ensures StatusInv(s', id) && (At(s', o, id) ==> TaskInv(s', o, id))
  {
    OthersKeep(s, s', o, id);
  }

  lemma RecordingKeeps(s: System, o: Owner, now: int, fault: Fault)
    requires Inv(s) && o in s.tasks && s.tasks[o].at.Recording?
    ensures Kept(s, RecordingAnswered(s, o, now, fault))
  {
    var s' := RecordingAnswered(s, o, now, fault);
    var id := WaitsHere(s, o);
    RecordingIsGentle(s, s', o, id, now, fault);
    RecordingMovesRight(s, s', o, id, now, fault);
    RecordingIsTruthful(s, s', o, id, now, fault);
    OutcomeKeeps(s, s', o, id);
  }

  lemma BeginningIsGentle(s: System, s': System, o: Owner, id: Id, now: int, fault: Fault)
    requires Waits(s, o, id) && s.tasks[o].at.Beginning? && s' == BeginningAnswered(s, o, now, fault)
    ensures Gentle(s, s', o, id) && SameKeys(s, s', id)
  {
    assert Shape(s, s', o, id);
    ShapeOnlyAt(s, s', o, id);
    OwnWriteGentle(s, s', o, id);
  }

  lemma BeginningMovesRight(s: System, s': System, o: Owner, id: Id, now: int, fault: Fault)
    requires Waits(s, o, id) && s.tasks[o].at.Beginning? && s' == BeginningAnswered(s, o, now, fault) && Gentle(s, s', o, id)
    ensures RightMoves(s, s', o, id) && RowInv(s', id)
  {
    OthersKeep(s, s', o, id);
  }

  lemma BeginningIsTruthful(s: System, s': System, o: Owner, id: Id, now: int, fault: Fault)
    requires Waits(s, o, id) && s.tasks[o].at.Beginning? && s' == BeginningAnswered(s, o, now, fault) && Gentle(s, s', o, id)
    ensures StatusInv(s', id) && (At(s', o, id) ==> TaskInv(s', o, id))
  {
    OthersKeep(s, s', o, id);
  }

  lemma BeginningKeeps(s: System, o: Owner, now: int, fault: Fault)
    requires Inv(s) && o in s.tasks && s.tasks[o].at.Beginning?
    ensures Kept(s, BeginningAnswered(s, o, now, fault))
  {
    var s' := BeginningAnswered(s, o, now, fault);
    var id := WaitsHere(s, o);
    BeginningIsGentle(s, s', o, id, now, fault);
    BeginningMovesRight(s, s', o, id, now, fault);
    BeginningIsTruthful(s, s', o, id, now, fault);
    OutcomeKeeps(s, s', o, id);
  }

  lemma FinishingIsGentle(s: System, s': System, o: Owner, id: Id, fault: Fault)
    requires Waits(s, o, id) && s.tasks[o].at.Finishing? && s' == FinishingAnswered(s, o, fault)
    ensures Gentle(s, s', o, id) && SameKeys(s, s', id)
  {
    assert Shape(s, s', o, id);
    ShapeOnlyAt(s, s', o, id);
    OwnWriteGentle(s, s', o, id);
  }

  lemma FinishingMovesRight(s: System, s': System, o: Owner, id: Id, fault: Fault)
    requires Waits(s, o, id) && s.tasks[o].at.Finishing? && s' == FinishingAnswered(s, o, fault) && Gentle(s, s', o, id)
    ensures RightMoves(s, s', o, id) && RowInv(s', id)
  {
    QuietMovesRight(s, s', o, id);
  }

  lemma FinishingIsTruthful(s: System, s': System, o: Owner, id: Id, fault: Fault)
    requires Waits(s, o, id) && s.tasks[o].at.Finishing? && s' == FinishingAnswered(s, o, fault) && Gentle(s, s', o, id)
    ensures StatusInv(s', id)
  {
    forall p | InCall(s', p, id) ensures InCall(s, p, id) && Holds(s, p, id) {}
  }

  lemma FinishingGoesOn(s: System, s': System, o: Owner, id: Id, fault: Fault)
    requires Waits(s, o, id) && s.tasks[o].at.Finishing? && s' == FinishingAnswered(s, o, fault) && Gentle(s, s', o, id)
    ensures At(s', o, id) ==> TaskInv(s', o, id)
  {
  }

  lemma FinishingKeeps(s: System, o: Owner, fault: Fault)
    requires Inv(s) && o in s.tasks && s.tasks[o].at.Finishing?
    ensures Kept(s, FinishingAnswered(s, o, fault))
  {
    var s' := FinishingAnswered(s, o, fault);
    var id := WaitsHere(s, o);
    FinishingIsGentle(s, s', o, id, fault);
    FinishingMovesRight(s, s', o, id, fault);
    FinishingIsTruthful(s, s', o, id, fault);
    FinishingGoesOn(s, s', o, id, fault);
    OutcomeKeeps(s, s', o, id);
  }

  lemma DeferringIsGentle(s: System, s': System, o: Owner, id: Id, now: int, fault: Fault)
    requires Waits(s, o, id) && s.tasks[o].at.Deferring? && s' == DeferringAnswered(s, o, now, fault)
    ensures Gentle(s, s', o, id) && SameKeys(s, s', id)
  {
    assert Shape(s, s', o, id);
    ShapeOnlyAt(s, s', o, id);
    OwnWriteGentle(s, s', o, id);
  }

  /** The deferral was applied: the row is released in its new phase. */
  lemma DeferredMovesRight(s: System, s': System, o: Owner, id: Id, phase: Phase)
    requires Waits(s, o, id) && s.tasks[o].at.Deferring? && s.tasks[o].at.phase == phase && OwnedBy(s.db, id, o)
    requires Gentle(s, s', o, id) && id in s'.db.rows && s'.db.nextId == s.db.nextId
    requires s'.db.rows[id] == s.db.rows[id].(phase := Some(phase), owner := None, leaseUntil := None,
                                              nextAttemptAt := s'.db.rows[id].nextAttemptAt)
    requires s'.issued == s.issued && s'.calls == s.calls && !At(s', o, id)
    requires s'.handedBack[id] == s.handedBack[id] +
      (if phase == Prepared && s.db.rows[id].phase == Some(SendStarted) then 1 else 0)
    requires s'.origin == s.origin && (id < s.db.nextId ==> id !in s.db.rows || s'.db.rows[id].status == Sending)
    ensures RightMoves(s, s', o, id) && RowInv(s', id)
  {
    assert HandingBack(s, o, id) ==> Holds(s, o, id);
  }

  lemma DeferringMovesRight(s: System, s': System, o: Owner, id: Id, now: int, fault: Fault)
    requires Waits(s, o, id) && s.tasks[o].at.Deferring? && s' == DeferringAnswered(s, o, now, fault) && Gentle(s, s', o, id)
    ensures RightMoves(s, s', o, id) && RowInv(s', id)
  {
    if OwnedBy(s.db, id, o) && fault != LostRequest {
      DeferredMovesRight(s, s', o, id, s.tasks[o].at.phase);
    }
  }

  lemma DeferringIsTruthful(s: System, s': System, o: Owner, id: Id, now: int, fault: Fault)
    requires Waits(s, o, id) && s.tasks[o].at.Deferring? && s' == DeferringAnswered(s, o, now, fault) && Gentle(s, s', o, id)
    ensures StatusInv(s', id) && (At(s', o, id) ==> TaskInv(s', o, id))
  {
    OthersKeep(s, s', o, id);
  }

  lemma DeferringKeeps(s: System, o: Owner, now: int, fault: Fault)
    requires Inv(s) && o in s.tasks && s.tasks[o].at.Deferring?
    ensures Kept(s, DeferringAnswered(s, o, now, fault))
  {
    var s' := DeferringAnswered(s, o, now, fault);
    var id := WaitsHere(s, o);
    DeferringIsGentle(s, s', o, id, now, fault);
    DeferringMovesRight(s, s', o, id, now, fault);
    DeferringIsTruthful(s, s', o, id, now, fault);
    OutcomeKeeps(s, s', o, id);
  }

  ghost predicate Acknowledged(s: System, s': System, o: Owner, id: Id, fault: Fault) {
    && o in s.tasks
    && s' == Commit(s, o, Acknowledge(s.db, id, o), fault, Rest(s.tasks[o]), Rest(s.tasks[o]))
  }

  lemma AcknowledgingIsGentle(s: System, s': System, o: Owner, id: Id, fault: Fault)
    requires Waits(s, o, id) && s.tasks[o].at.Acknowledging? && Acknowledged(s, s', o, id, fault)
    ensures Gentle(s, s', o, id) && SameKeys(s, s', id)
  {
    assert Shape(s, s', o, id);
    ShapeOnlyAt(s, s', o, id);
    OwnWriteGentle(s, s', o, id);
  }

  lemma AcknowledgingMovesRight(s: System, s': System, o: Owner, id: Id, fault: Fault)
    requires Waits(s, o, id) && s.tasks[o].at.Acknowledging? && Acknowledged(s, s', o, id, fault) && Gentle(s, s', o, id)
    ensures RightMoves(s, s', o, id) && RowInv(s', id)
  {
    QuietMovesRight(s, s', o, id);
  }

  lemma AcknowledgingIsTruthful(s: System, s': System, o: Owner, id: Id, fault: Fault)
    requires Waits(s, o, id) && s.tasks[o].at.Acknowledging? && Acknowledged(s, s', o, id, fault) && Gentle(s, s', o, id)
    ensures StatusInv(s', id) && (At(s', o, id) ==> TaskInv(s', o, id))
  {
    OthersKeep(s, s', o, id);
  }

  lemma AcknowledgingKeeps(s: System, o: Owner, now: int, fault: Fault)
    requires Inv(s) && o in s.tasks && s.tasks[o].at.Acknowledging?
    ensures Kept(s, StoreAnswered(s, o, now, fault))
  {
    var s' := StoreAnswered(s, o, now, fault);
    var id := WaitsHere(s, o);
    AcknowledgingIsGentle(s, s', o, id, fault);
    AcknowledgingMovesRight(s, s', o, id, fault);
    AcknowledgingIsTruthful(s, s', o, id, fault);
    OutcomeKeeps(s, s', o, id);
  }

  lemma StoreKeeps(s: System, o: Owner, now: int, fault: Fault)
    requires Inv(s) && o in s.tasks
    ensures Kept(s, StoreAnswered(s, o, now, fault))
  {
    var at := s.tasks[o].at;
    if at.Recording? { RecordingKeeps(s, o, now, fault); }
    else if at.Beginning? { BeginningKeeps(s, o, now, fault); }
    else if at.Finishing? { FinishingKeeps(s, o, fault); }
    else if at.Deferring? { DeferringKeeps(s, o, now, fault); }
    else if at.Acknowledging? { AcknowledgingKeeps(s, o, now, fault); }
  }

  // ---------- Answers of the modem ----------

  /** Task `o` moves on within its message and only the record of events grows. */
  ghost predicate MovesOn(s: System, s': System, o: Owner, id: Id, p: Point) {
    && o in s.tasks && At(s, o, id) && (p.Idle? || p.Ended? || p.id == id)
    && s' == Move(s.(issued := s'.issued, accepted := s'.accepted, rejected := s'.rejected,
                     seenSent := s'.seenSent, published := s'.published), o, p)
    && (s'.issued == s.issued || s'.issued == s.issued + multiset{id})
    && (s'.accepted == s.accepted || s'.accepted == s.accepted + {id})
    && (s'.rejected == s.rejected || s'.rejected == s.rejected + {id})
    && (s'.seenSent == s.seenSent || s'.seenSent == s.seenSent + {id})
    && s.published <= s'.published
  }

  lemma MoveIsGentle(s: System, s': System, o: Owner, id: Id, p: Point)
    requires MessageInv(s, id) && MovesOn(s, s', o, id, p) && s'.issued[id] <= 1
    ensures Gentle(s, s', o, id)
  {
    assert Shape(s, s', o, id);
    ShapeOnlyAt(s, s', o, id);
  }

  lemma MoveKeeps(s: System, s': System, o: Owner, id: Id, p: Point)
    requires Inv(s) && MovesOn(s, s', o, id, p)
    requires s'.issued[id] <= 1 && RightMoves(s, s', o, id) && StatusInv(s', id)
    requires At(s', o, id) ==> TaskInv(s', o, id)
    ensures Kept(s, s')
  {
    assert MessageInv(s, id) && At(s, o, id) && TaskInv(s, o, id);
    MoveIsGentle(s, s', o, id, p);
    OutcomeKeeps(s, s', o, id);
  }

  lemma RenewalIsGentle(s: System, s': System, o: Owner, id: Id, now: int)
    requires Waits(s, o, id) && s' == s.(db := Renew(s.db, id, o, now))
    ensures Gentle(s, s', o, id) && SameKeys(s, s', id)
  {
    assert Shape(s, s', o, id);
    ShapeOnlyAt(s, s', o, id);
  }

  lemma RenewalIsSafe(s: System, s': System, o: Owner, id: Id, now: int)
    requires Waits(s, o, id) && s' == s.(db := Renew(s.db, id, o, now)) && Gentle(s, s', o, id)
    ensures Safe(s, s', o, id)
  {
    assert Early(s', id) <==> Early(s, id);
    assert Holds(s', o, id) <==> Holds(s, o, id);
    OthersKeep(s, s', o, id);
  }

  lemma HeartbeatKeeps(s: System, o: Owner, now: int, fault: Fault)
    requires Inv(s)
    ensures Kept(s, Step(s, Heartbeat(o, now, fault)))
  {
    var s' := Step(s, Heartbeat(o, now, fault));
    if s' != s {
      var id := WaitsHere(s, o);
      assert s' == s.(db := Renew(s.db, id, o, now));
      RenewalIsGentle(s, s', o, id, now);
      RenewalIsSafe(s, s', o, id, now);
      OutcomeKeeps(s, s', o, id);
    }
  }

  lemma PrepareReturnsKeeps(s: System, o: Owner, path: Option<string>)
    requires Inv(s)
    ensures Kept(s, Step(s, PrepareReturns(o, path)))
  {
    var s' := Step(s, PrepareReturns(o, path));
    if s' != s {
      var id := s.tasks[o].at.id;
      assert MessageInv(s, id) && At(s, o, id) && TaskInv(s, o, id);
      forall q | InCall(s', q, id) ensures InCall(s, q, id) {}
      MoveKeeps(s, s', o, id, s'.tasks[o].at);
    }
  }

  lemma ConnectFailsKeeps(s: System, o: Owner)
    requires Inv(s)
    ensures Kept(s, Step(s, ConnectFails(o)))
  {
    var s' := Step(s, ConnectFails(o));
    if s' != s {
      var id := s.tasks[o].at.id;
      assert MessageInv(s, id) && At(s, o, id) && TaskInv(s, o, id);
      assert InCall(s, o, id) && Holds(s, o, id);
      forall q | InCall(s', q, id) ensures InCall(s, q, id) {}
      MoveKeeps(s, s', o, id, s'.tasks[o].at);
    }
  }

  lemma SendIssuedKeeps(s: System, o: Owner)
    requires Inv(s)
    ensures Kept(s, Step(s, SendIssued(o)))
  {
    var s' := Step(s, SendIssued(o));
    if s' != s {
      var id := s.tasks[o].at.id;
      assert MessageInv(s, id) && At(s, o, id) && TaskInv(s, o, id);
      assert InCall(s, o, id) && Holds(s, o, id);
      forall q | InCall(s', q, id) ensures InCall(s, q, id) {}
      MoveKeeps(s, s', o, id, s'.tasks[o].at);
    }
  }

  lemma SendReturnsKeeps(s: System, o: Owner, reply: Reply)
    requires Inv(s)
    ensures Kept(s, Step(s, SendReturns(o, reply)))
  {
    var s' := Step(s, SendReturns(o, reply));
    if s' != s {
      var id := s.tasks[o].at.id;
      assert MessageInv(s, id) && At(s, o, id) && TaskInv(s, o, id);
      forall q | InCall(s', q, id) ensures InCall(s, q, id) {}
      MoveKeeps(s, s', o, id, s'.tasks[o].at);
    }
  }

  lemma SnapshotGoesOn(s: System, s': System, o: Owner, id: Id, snapshot: Option<Snapshot>)
    requires Waits(s, o, id) && s.tasks[o].at.Inspecting? && s' == Step(s, SnapshotReturns(o, snapshot))
    ensures MovesOn(s, s', o, id, s'.tasks[o].at) && (At(s', o, id) ==> TaskInv(s', o, id))
  {
  }

  lemma SnapshotReturnsKeeps(s: System, o: Owner, snapshot: Option<Snapshot>)
    requires Inv(s)
    ensures Kept(s, Step(s, SnapshotReturns(o, snapshot)))
  {
    var s' := Step(s, SnapshotReturns(o, snapshot));
    if s' != s {
      var id := WaitsHere(s, o);
      SnapshotGoesOn(s, s', o, id, snapshot);
      QuietMovesRight(s, s', o, id);
      forall q | InCall(s', q, id) ensures InCall(s, q, id) {}
      MoveKeeps(s, s', o, id, s'.tasks[o].at);
    }
  }

  lemma EventSentKeeps(s: System, o: Owner)
    requires Inv(s)
    ensures Kept(s, Step(s, EventSent(o)))
  {
    var s' := Step(s, EventSent(o));
    if s' != s {
      var id := s.tasks[o].at.id;
      assert MessageInv(s, id) && At(s, o, id) && TaskInv(s, o, id);
      forall q | InCall(s', q, id) ensures InCall(s, q, id) {}
      MoveKeeps(s, s', o, id, s'.tasks[o].at);
    }
  }

  // ---------- Claims, starts and ends ----------

  lemma TaskOnlyIsGentle(s: System, s': System, o: Owner, t: Task, id: Id)
    requires MessageInv(s, id) && (t.at.Idle? || t.at.Ended?) && s' == s.(tasks := s.tasks[o := t])
    requires forall j :: At(s, o, j) ==> j == id
    ensures Gentle(s, s', o, id)
  {
    assert OnlyAt(s, s', o, id);
  }

  lemma TaskOnlyIsSafe(s: System, s': System, o: Owner, t: Task, id: Id)
    requires MessageInv(s, id) && (t.at.Idle? || t.at.Ended?) && s' == s.(tasks := s.tasks[o := t])
    requires Gentle(s, s', o, id)
    ensures Safe(s, s', o, id)
  {
    OthersKeep(s, s', o, id);
  }

  /** A task may appear or stop anywhere: nobody else relies on it. */
  lemma TaskOnlyKeeps(s: System, s': System, o: Owner, t: Task)
    requires Inv(s) && (t.at.Idle? || t.at.Ended?)
    requires s' == s.(tasks := s.tasks[o := t])
    ensures Kept(s, s')
  {
    var id := if o in s.tasks && !s.tasks[o].at.Idle? && !s.tasks[o].at.Ended? then s.tasks[o].at.id else 0;
    assert MessageInv(s, id);
    TaskOnlyIsGentle(s, s', o, t, id);
    TaskOnlyIsSafe(s, s', o, t, id);
    OutcomeKeeps(s, s', o, id);
  }

  lemma NewKey(s: System, s': System, id: Id, request: Request, key: Option<string>, now: int)
    requires KeyInv(s) && (key.Some? ==> key.value !in s.db.keys)
    requires id !in s.origin && id !in s.db.rows
    requires s'.origin == s.origin[id := key]
    requires id in s'.db.rows && s'.db.rows == s.db.rows[id := s'.db.rows[id]] && s'.db.rows[id].request == request
    requires s'.db.keys == if key.Some? then s.db.keys[key.value := KeyEntry(request, Some(id), now)] else s.db.keys
    ensures KeyInv(s')
  {
  }

  ghost predicate Inserted(s: System, s': System, o: Owner, request: Request, key: Option<string>, now: int, p: Point) {
    && o in s.tasks && s.tasks[o].at.Ended?
    && (key.Some? ==> key.value !in s.db.keys)
    && (p.Ended? || p == Preparing(s.db.nextId))
    && s' == Move(s.(db := CreateOrGet(s.db, request, key, o, now).0, origin := s.origin[s.db.nextId := key]), o, p)
  }

  lemma InsertIsGentle(s: System, s': System, o: Owner, request: Request, key: Option<string>, now: int, p: Point)
    requires MessageInv(s, s.db.nextId) && Inserted(s, s', o, request, key, now, p)
    ensures Gentle(s, s', o, s.db.nextId)
  {
    var id := s.db.nextId;
    assert forall j :: At(s, o, j) || At(s', o, j) ==> j == id;
    forall j | j != id ensures SameRecord(s, s', j) {}
    assert OnlyAt(s, s', o, id);
  }

  lemma InsertIsSafe(s: System, s': System, o: Owner, request: Request, key: Option<string>, now: int, p: Point)
    requires MessageInv(s, s.db.nextId) && Inserted(s, s', o, request, key, now, p) && Gentle(s, s', o, s.db.nextId)
    ensures Safe(s, s', o, s.db.nextId)
  {
    forall q ensures !At(s, q, s.db.nextId) {}
  }

  /** A new row: its creator is the only task that knows of it. */
  lemma InsertKeeps(s: System, s': System, o: Owner, request: Request, key: Option<string>, now: int, p: Point)
    requires Inv(s) && Inserted(s, s', o, request, key, now, p)
    ensures Kept(s, s')
  {
    assert MessageInv(s, s.db.nextId);
    NewKey(s, s', s.db.nextId, request, key, now);
    InsertIsGentle(s, s', o, request, key, now, p);
    InsertIsSafe(s, s', o, request, key, now, p);
    OutcomeKeeps(s, s', o, s.db.nextId);
  }

  lemma StartIsInsertOrTask(s: System, o: Owner, request: Request, key: Option<string>, now: int, fault: Fault)
    requires o !in s.tasks
    ensures var (base, s') := (s.(tasks := s.tasks[o := Task(false, Ended)]), StartedSender(s, o, request, key, now, fault));
      s' == base || Inserted(base, s', o, request, key, now, s'.tasks[o].at)
  {
  }

  lemma StartSenderKeeps(s: System, o: Owner, request: Request, key: Option<string>, now: int, fault: Fault)
    requires Inv(s) && o !in s.tasks
    ensures Kept(s, StartedSender(s, o, request, key, now, fault))
  {
    var base, s' := s.(tasks := s.tasks[o := Task(false, Ended)]), StartedSender(s, o, request, key, now, fault);
    TaskOnlyKeeps(s, base, o, Task(false, Ended));
    StartIsInsertOrTask(s, o, request, key, now, fault);
    if s' != base {
      InsertKeeps(base, s', o, request, key, now, s'.tasks[o].at);
      ProgressChains(s, base, s');
    }
  }

  /** A claim makes an idle worker the owner of a row and shows it the row. */
  ghost predicate Claims(s: System, s': System, o: Owner, id: Id, p: Point) {
    && o in s.tasks && s.tasks[o].at.Idle? && id in s.db.rows && id in s'.db.rows
    && s' == Move(s.(db := Put(s.db, id, s'.db.rows[id])), o, p)
    && (var r := s'.db.rows[id];
        r == s.db.rows[id].(owner := Some(o), leaseUntil := r.leaseUntil, nextAttemptAt := r.nextAttemptAt))
    && (p.Idle?
        || (p == Publishing(id, s.db.rows[id].status) && Terminal(s.db.rows[id].status))
        || (s.db.rows[id].status == Sending && p == AfterClaim(Claim(id, s'.db.rows[id])) && (p.Ended? || p.id == id)))
  }

  lemma ClaimIsGentle(s: System, s': System, o: Owner, id: Id, p: Point)
    requires MessageInv(s, id) && Claims(s, s', o, id, p) && !p.Ended?
    ensures Gentle(s, s', o, id) && SameKeys(s, s', id)
  {
    assert Shape(s, s', o, id);
    ShapeOnlyAt(s, s', o, id);
  }

  lemma ClaimMovesRight(s: System, s': System, o: Owner, id: Id, p: Point)
    requires MessageInv(s, id) && Claims(s, s', o, id, p) && !p.Ended? && Gentle(s, s', o, id)
    ensures RightMoves(s, s', o, id) && RowInv(s', id)
  {
  }

  lemma ClaimIsTruthful(s: System, s': System, o: Owner, id: Id, p: Point)
    requires MessageInv(s, id) && Claims(s, s', o, id, p) && !p.Ended? && Gentle(s, s', o, id)
    ensures StatusInv(s', id) && (At(s', o, id) ==> TaskInv(s', o, id))
  {
    OthersKeep(s, s', o, id);
  }

  lemma ClaimKeeps(s: System, s': System, o: Owner, id: Id, p: Point)
    requires Inv(s) && Claims(s, s', o, id, p) && !p.Ended?
    ensures Kept(s, s')
  {
    assert MessageInv(s, id);
    ClaimIsGentle(s, s', o, id, p);
    ClaimMovesRight(s, s', o, id, p);
    ClaimIsTruthful(s, s', o, id, p);
    OutcomeKeeps(s, s', o, id);
  }

  lemma ClaimDueClaims(s: System, o: Owner, now: int, fault: Fault)
    ensures var (s', first) := (Step(s, ClaimDueReturns(o, now, fault)), FirstDue(s.db, 0, now));
      s' == s || (first.Some? && o in s'.tasks && !s'.tasks[o].at.Ended? && Claims(s, s', o, first.value, s'.tasks[o].at))
      || (o in s.tasks && s' == Move(s, o, Idle) && s.tasks[o].at.Idle?)
  {
  }

  lemma ClaimEventClaims(s: System, o: Owner, now: int, fault: Fault)
    ensures var (s', first) := (Step(s, ClaimEventReturns(o, now, fault)), FirstEvent(s.db, 0, now));
      s' == s || (first.Some? && o in s'.tasks && !s'.tasks[o].at.Ended? && Claims(s, s', o, first.value, s'.tasks[o].at))
      || (o in s.tasks && s' == Move(s, o, Idle) && s.tasks[o].at.Idle?)
  {
  }

  lemma ClaimDueKeeps(s: System, o: Owner, now: int, fault: Fault)
    requires Inv(s)
    ensures Kept(s, Step(s, ClaimDueReturns(o, now, fault)))
  {
    var s', first := Step(s, ClaimDueReturns(o, now, fault)), FirstDue(s.db, 0, now);
    ClaimDueClaims(s, o, now, fault);
    if first.Some? && o in s'.tasks && Claims(s, s', o, first.value, s'.tasks[o].at) {
      ClaimKeeps(s, s', o, first.value, s'.tasks[o].at);
    } else {
      NothingMoves(s, s', o);
    }
  }

  lemma ClaimEventKeeps(s: System, o: Owner, now: int, fault: Fault)
    requires Inv(s)
    ensures Kept(s, Step(s, ClaimEventReturns(o, now, fault)))
  {
    var s', first := Step(s, ClaimEventReturns(o, now, fault)), FirstEvent(s.db, 0, now);
    ClaimEventClaims(s, o, now, fault);
    if first.Some? && o in s'.tasks && Claims(s, s', o, first.value, s'.tasks[o].at) {
      ClaimKeeps(s, s', o, first.value, s'.tasks[o].at);
    } else {
      NothingMoves(s, s', o);
    }
  }

  lemma NothingMoves(s: System, s': System, o: Owner)
    requires Inv(s) && (s' == s || (o in s.tasks && s' == Move(s, o, Idle) && s.tasks[o].at.Idle?))
    ensures Kept(s, s')
  {
    if s' != s { TaskOnlyKeeps(s, s', o, s'.tasks[o]); }
  }

  /** A row that is gone for good, with or without its key. */
  lemma RemovalKeeps(s: System, s': System, id: Id)
    requires Inv(s) && KeyInv(s') && id in s.db.rows && Deletable(s.db.rows[id])
    requires s' == s.(db := Db(s.db.rows - {id}, s.db.nextId, s'.db.keys))
    ensures Kept(s, s')
  {
    assert MessageInv(s, id);
    assert Holds(s', 0, id) ==> Holds(s, 0, id);
    assert At(s, 0, id) ==> TaskInv(s, 0, id);
    OthersKeep(s, s', 0, id);
    OutcomeKeeps(s, s', 0, id);
  }

  lemma DeleteKeeps(s: System, id: Id)
    requires Inv(s)
    ensures Kept(s, s.(db := Delete(s.db, id)))
  {
    if id in s.db.rows && Deletable(s.db.rows[id]) { RemovalKeeps(s, s.(db := Delete(s.db, id)), id); }
  }

  lemma {:induction false} DeleteEachKeeps(s: System, ids: seq<Id>)
    requires Inv(s)
    ensures Kept(s, s.(db := DeleteEach(s.db, ids)))
    decreases |ids|
  {
    if ids != [] {
      var s1 := s.(db := Delete(s.db, ids[0]));
      DeleteKeeps(s, ids[0]);
      DeleteEachKeeps(s1, ids[1..]);
      ProgressChains(s, s1, s1.(db := DeleteEach(s1.db, ids[1..])));
    }
  }

  lemma RetireKeeps(s: System, id: Id)
    requires Inv(s)
    ensures Kept(s, Step(s, RetireOld(id)))
  {
    if id in s.db.rows && Terminal(s.db.rows[id].status) { RemovalKeeps(s, Step(s, RetireOld(id)), id); }
  }

  lemma ForgetKeeps(s: System, cutoff: int)
    requires Inv(s)
    ensures Kept(s, Step(s, ForgetKeys(cutoff)))
  {
    var s' := Step(s, ForgetKeys(cutoff));
    forall id ensures MessageInv(s', id) && (Dead(s, id) ==> Dead(s', id)) {
      assert MessageInv(s, id) && SameView(s, s', id);
      SameViewKeeps(s, s', id);
    }
  }

  /** Every step keeps the invariant. */
  lemma StepKeeps(s: System, a: Action)
    requires Inv(s)
    ensures Kept(s, Step(s, a))
  {
    match a
    case StartSender(o, request, key, now, fault) =>
      if o !in s.tasks { StartSenderKeeps(s, o, request, key, now, fault); }
    case StartWorker(o) =>
      if o !in s.tasks { TaskOnlyKeeps(s, Step(s, a), o, Task(true, Idle)); }
    case StoreReturns(o, now, fault) => if o in s.tasks { StoreKeeps(s, o, now, fault); }
    case Heartbeat(o, now, fault) => HeartbeatKeeps(s, o, now, fault);
    case ClaimEventReturns(o, now, fault) => ClaimEventKeeps(s, o, now, fault);
    case ClaimDueReturns(o, now, fault) => ClaimDueKeeps(s, o, now, fault);
    case Crash(o) => if o in s.tasks { TaskOnlyKeeps(s, Step(s, a), o, s.tasks[o].(at := Ended)); }
    case DeleteByUser(ids) =>
      if DeleteCheck(s.db, ids).Ok? { DeleteEachKeeps(s, ids); }
    case RetireOld(id) => RetireKeeps(s, id);
    case ForgetKeys(cutoff) => ForgetKeeps(s, cutoff);
    case PrepareReturns(o, path) => PrepareReturnsKeeps(s, o, path);
    case ConnectFails(o) => ConnectFailsKeeps(s, o);
    case SendIssued(o) => SendIssuedKeeps(s, o);
    case SendReturns(o, reply) => SendReturnsKeeps(s, o, reply);
    case SnapshotReturns(o, snapshot) => SnapshotReturnsKeeps(s, o, snapshot);
    case EventSent(o) => EventSentKeeps(s, o);
  }

  lemma NextKeeps(s: System, s': System)
    requires Inv(s) && Next(s, s')
    ensures Kept(s, s')
  {
    var a :| s' == Step(s, a);
    StepKeeps(s, a);
  }

  lemma InitialInv()
    ensures Inv(INITIAL)
  {
  }

  lemma {:induction false} RunInv(run: seq<System>, n: nat)
    requires Execution(run) && n < |run|
    ensures Inv(run[n])
    decreases n
  {
    if n > 0 {
      RunInv(run, n - 1);
      StepInRun(run, n, run[n - 1], run[n]);
    } else {
      InitialInv();
    }
  }

  lemma StepInRun(run: seq<System>, n: nat, s: System, s': System)
    requires Execution(run) && 0 < n < |run| && s == run[n - 1] && s' == run[n] && Inv(s)
    ensures Kept(s, s')
  {
    assert Follows(run, n);
    NextKeeps(s, s');
  }

  lemma MessageHolds(run: seq<System>, n: nat, id: Id)
    requires Execution(run) && n < |run|
    ensures MessageInv(run[n], id)
  {
    RunInv(run, n);
  }

  // ---------- What it means over whole runs ----------

  /** Whatever the interleaving, faults, crashes and clocks: one message, one D-Bus Send. */
  lemma AtMostOneSend(run: seq<System>, n: nat, id: Id)
    requires Execution(run) && n < |run|
    ensures run[n].issued[id] <= 1
  {
    MessageHolds(run, n, id);
  }

  /** A further `send_prepared` call needs a call that reached no modem and was put
      back to Prepared by the owner, and none is left once a Send was issued. */
  lemma CallsAreHandedBack(run: seq<System>, n: nat, id: Id)
    requires Execution(run) && n < |run|
    ensures run[n].calls[id] <= run[n].handedBack[id] + 1
    ensures run[n].issued[id] == 1 ==> !Early(run[n], id) && forall o :: !Holds(run[n], o, id)
  {
    MessageHolds(run, n, id);
  }

  /** The object a task sends is the one recorded for its message. */
  lemma SendsTheRecordedObject(run: seq<System>, n: nat, o: Owner, id: Id)
    requires Execution(run) && n < |run|
    requires InCall(run[n], o, id) && id in run[n].db.rows
    ensures run[n].db.rows[id].smsPath == Some(run[n].tasks[o].at.path)
  {
    MessageHolds(run, n, id);
  }

  /** Sent and Failed are true of the modem, also when a superseded owner reports late. */
  lemma TruthfulStatus(run: seq<System>, n: nat, id: Id)
    requires Execution(run) && n < |run| && id in run[n].db.rows
    ensures run[n].db.rows[id].status == Sent ==>
              (id in run[n].accepted && run[n].issued[id] == 1) || id in run[n].seenSent
    ensures run[n].db.rows[id].status == Failed ==>
              run[n].issued[id] == 0 || (id in run[n].rejected && run[n].issued[id] == 1)
  {
    MessageHolds(run, n, id);
  }

  /** An end whose event was acknowledged has been announced. */
  lemma AcknowledgedWasPublished(run: seq<System>, n: nat, id: Id)
    requires Execution(run) && n < |run|
    requires id in run[n].db.rows && run[n].db.rows[id].phase.None?
    ensures (id, run[n].db.rows[id].status) in run[n].published
  {
    MessageHolds(run, n, id);
  }

  /** An idempotency key has at most one message at a time: it can make another one only
      after the first is deleted and the key forgotten. */
  lemma OneMessagePerKey(run: seq<System>, n: nat, i: Id, j: Id)
    requires Execution(run) && n < |run|
    requires i in run[n].db.rows && j in run[n].db.rows
    ensures i in run[n].origin && j in run[n].origin
    ensures run[n].origin[i].Some? && run[n].origin[i] == run[n].origin[j] ==> i == j
  {
    RunInv(run, n);
  }

  /** A replayed key answers with the very message it created, for the same request. */
  lemma ReplayIsTheSameMessage(run: seq<System>, n: nat, request: Request, key: string, o: Owner, now: int, id: Id)
    requires Execution(run) && n < |run|
    requires CreateOrGet(run[n].db, request, Some(key), o, now).1 == Replayed(id)
    ensures id in run[n].origin && run[n].origin[id] == Some(key)
    ensures id in run[n].db.rows && run[n].db.rows[id].request == request
  {
    RunInv(run, n);
  }

  /** Nothing is forgotten: an unfinished message whose outcome is not given up becomes
      claimable once its lease and its retry delay have run out. */
  lemma UnfinishedBecomesDue(run: seq<System>, n: nat, id: Id, now: int)
    requires Execution(run) && n < |run| && id in run[n].db.rows
    requires run[n].db.rows[id].status == Sending && run[n].db.rows[id].phase != Some(Unknown)
    requires run[n].db.rows[id].leaseUntil.Some? ==> run[n].db.rows[id].leaseUntil.value <= now
    requires run[n].db.rows[id].nextAttemptAt.Some? ==> run[n].db.rows[id].nextAttemptAt.value <= now
    ensures Due(run[n].db.rows[id], now)
  {
    MessageHolds(run, n, id);
    match run[n].db.rows[id].phase.value
    case Created | Prepared | SendStarted | Uncertain =>
  }

  // ---------- What stays true for the rest of a run ----------

  lemma StepProgress(run: seq<System>, n: nat)
    requires Execution(run) && 0 < n < |run|
    ensures Progress(run[n - 1], run[n])
  {
    RunInv(run, n - 1);
    StepInRun(run, n, run[n - 1], run[n]);
  }

  lemma {:induction false} RunProgress(run: seq<System>, m: nat, n: nat)
    requires Execution(run) && m <= n < |run|
    ensures Progress(run[m], run[n])
    decreases n
  {
    if m < n {
      RunProgress(run, m, n - 1);
      StepProgress(run, n);
      ProgressChains(run[m], run[n - 1], run[n]);
    }
  }

  /** A recorded end is final: later it is the same, or the message is gone for good. */
  lemma EndIsFinal(run: seq<System>, m: nat, n: nat, id: Id)
    requires Execution(run) && m <= n < |run|
    requires id in run[m].db.rows && Terminal(run[m].db.rows[id].status) && id in run[n].db.rows
    ensures run[n].db.rows[id].status == run[m].db.rows[id].status
  {
    MessageHolds(run, m, id);
    RunProgress(run, m, n);
    assert ProgressAt(run[m], run[n], id);
  }

  /** A failure that no modem reported also stays one: no Send is ever issued for it. */
  lemma FailedIsNeverSent(run: seq<System>, m: nat, n: nat, id: Id)
    requires Execution(run) && m <= n < |run|
    requires id in run[m].db.rows && run[m].db.rows[id].status == Failed && id !in run[m].rejected
    ensures run[n].issued[id] == 0
  {
    MessageHolds(run, m, id);
    forall o ensures !Holds(run[m], o, id) { assert !InCall(run[m], o, id); }
    RunProgress(run, m, n);
    assert ProgressAt(run[m], run[n], id);
  }
}
