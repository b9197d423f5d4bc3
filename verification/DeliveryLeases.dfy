/** The queue over whole runs: any mix of enqueues, claims, completions by anyone who
    was ever handed a row, lease recoveries and deletions, at any times. */
module DeliveryLeases {
  import opened Wrappers
  import opened DeliveryStore

  /** The table, the tokens and handles ever given out, the completions applied, and the rows
      to which a success or a permanent failure was applied. */
  datatype Queue = Queue(
    rows: Rows,
    nextId: Id,
    tokens: set<Token>,
    handles: set<Handle>,
    applied: multiset<Handle>,
    completions: multiset<Id>,
    succeeded: set<Id>,
    refused: set<Id>)

  datatype Action =
    | Enqueue(messageId: nat, profile: string, created: Stamp)
    | Claim(now: int, leaseFor: int, limit: nat, token: Token, batch: set<Id>)
    | Finish(h: Handle, d: Disposition)
    | Recover(now: int)
    | Remove(id: Id)

  const EMPTY := Queue(map[], 0, {}, {}, multiset{}, multiset{}, {}, {})

  /** Tokens are fresh, the batch is the one the query picks, handles were handed out. */
  ghost predicate Enabled(q: Queue, a: Action) {
    match a
    case Claim(now, _, limit, token, batch) =>
      token !in q.tokens && IsBatch(RecoverAll(q.rows, now), now, limit, batch)
    case Finish(h, _) => h in q.handles
    case _ => true
  }

  function HandlesOf(rows: Rows, batch: set<Id>, token: Token): set<Handle>
    requires batch <= rows.Keys
  {
    set id | id in batch :: Handle(id, rows[id].profile, rows[id].attempts, token)
  }

  ghost function Step(q: Queue, a: Action): Queue
    requires Enabled(q, a)
  {
    match a
    case Enqueue(messageId, profile, created) =>
      q.(rows := q.rows[q.nextId := Row(messageId, profile, Pending, 0, None, None, None, created)],
         nextId := q.nextId + 1)
    case Claim(now, leaseFor, _, token, batch) =>
      var rows := ClaimBatch(q.rows, now, leaseFor, token, batch);
      q.(rows := rows, tokens := q.tokens + {token}, handles := q.handles + HandlesOf(rows, batch, token))
    case Finish(h, d) =>
      if Holds(q.rows, h)
      then q.(rows := Complete(q.rows, h, d), applied := q.applied + multiset{h},
              completions := q.completions + multiset{h.id},
              succeeded := if d.Success? then q.succeeded + {h.id} else q.succeeded,
              refused := if d.PermanentFailure? then q.refused + {h.id} else q.refused)
      else q.(rows := Complete(q.rows, h, d))
    case Recover(now) => q.(rows := RecoverAll(q.rows, now))
    case Remove(id) => q.(rows := q.rows - {id})
  }

  ghost predicate Next(q: Queue, q': Queue) {
    exists a :: Enabled(q, a) && q' == Step(q, a)
  }

  ghost predicate Execution(run: seq<Queue>) {
    && run != [] && run[0] == EMPTY
    && forall i :: 0 <= i < |run| - 1 ==> Next(run[i], run[i + 1])
  }

  /** In flight exactly when leased and held under a token. */
  ghost predicate RowInv(q: Queue, id: Id)
    requires id in q.rows
  {
    var r := q.rows[id];
    && id < q.nextId
    && (r.state == InFlight <==> r.lease.Some?)
    && (r.state == InFlight <==> r.token.Some?)
    && (r.token.Some? ==> r.token.value in q.tokens)
    && r.attempts == q.completions[id]
    && (r.state == Succeeded <==> id in q.succeeded)
    && (r.state == PermanentFailed <==> id in q.refused)
  }

  ghost predicate HandleInv(q: Queue, h: Handle)
  {
    && (h in q.handles ==> h.token in q.tokens && h.id < q.nextId)
    && (h in q.handles && Holds(q.rows, h) ==>
          q.rows[h.id].attempts == h.attempts && q.rows[h.id].profile == h.profile && q.applied[h] == 0)
    && (h !in q.handles ==> q.applied[h] == 0)
    && q.applied[h] <= 1
  }

  ghost predicate Inv(q: Queue) {
    && (forall id :: id in q.rows ==> RowInv(q, id))
    && (forall id :: id >= q.nextId ==> q.completions[id] == 0 && id !in q.succeeded && id !in q.refused)
    && (forall h :: HandleInv(q, h))
    && (forall g, h :: g in q.handles && h in q.handles && g.id == h.id && g.token == h.token ==> g == h)
  }

  /** A spent token stays spent. */
  ghost predicate HandleProgress(q: Queue, q': Queue, h: Handle) {
    h in q.handles && !Holds(q.rows, h) ==>
      h in q'.handles && !Holds(q'.rows, h) && q'.applied[h] == q.applied[h]
  }

  /** A deleted row never returns and an ended one stays as it is. */
  ghost predicate IdProgress(q: Queue, q': Queue, id: Id) {
    id < q.nextId && id in q'.rows ==>
      id in q.rows && (Terminal(q.rows[id]) ==> q'.rows[id] == q.rows[id])
  }

  ghost predicate Progress(q: Queue, q': Queue) {
    && q.nextId <= q'.nextId
    && (forall h :: HandleProgress(q, q', h))
    && (forall id :: IdProgress(q, q', id))
  }

  lemma ProgressChains(q0: Queue, q1: Queue, q2: Queue)
    requires Progress(q0, q1) && Progress(q1, q2)
    ensures Progress(q0, q2)
  {
    forall h ensures HandleProgress(q0, q2, h) {
      assert HandleProgress(q0, q1, h) && HandleProgress(q1, q2, h);
    }
    forall id ensures IdProgress(q0, q2, id) {
      assert IdProgress(q0, q1, id) && IdProgress(q1, q2, id);
    }
  }

  /** One row under a claim: leased if it was picked, else at most recovered. */
  lemma ClaimedRowCases(q: Queue, a: Action, id: Id)
    requires a.Claim? && Enabled(q, a) && id in q.rows
    ensures var r, r' := q.rows[id], Step(q, a).rows[id];
      if id in a.batch
      then r' == Leased(Recovered(r, a.now), a.now + a.leaseFor, a.token) && !Terminal(r)
      else r' == Recovered(r, a.now)
  {
    if id in a.batch { assert id in DueIds(RecoverAll(q.rows, a.now), a.now); }
  }

  lemma ClaimKeepsHandle(q: Queue, a: Action, h: Handle)
    requires Inv(q) && a.Claim? && Enabled(q, a)
    ensures HandleInv(Step(q, a), h) && HandleProgress(q, Step(q, a), h)
  {
    assert HandleInv(q, h);
    if h.id in q.rows {
      assert RowInv(q, h.id);
      ClaimedRowCases(q, a, h.id);
    }
  }

  lemma ClaimKeeps(q: Queue, a: Action)
    requires Inv(q) && a.Claim? && Enabled(q, a)
    ensures Inv(Step(q, a)) && Progress(q, Step(q, a))
  {
    var q' := Step(q, a);
    forall id | id in q'.rows ensures RowInv(q', id) {
      assert RowInv(q, id);
      ClaimedRowCases(q, a, id);
    }
    forall h ensures HandleInv(q', h) && HandleProgress(q, q', h) {
      ClaimKeepsHandle(q, a, h);
    }
    forall id ensures IdProgress(q, q', id) {
      if id in q.rows { ClaimedRowCases(q, a, id); }
    }
    forall g, h | g in q'.handles && h in q'.handles && g.id == h.id && g.token == h.token ensures g == h {
      assert HandleInv(q, g) && HandleInv(q, h);
    }
  }

  lemma FinishKeeps(q: Queue, a: Action)
    requires Inv(q) && a.Finish? && Enabled(q, a)
    ensures Inv(Step(q, a)) && Progress(q, Step(q, a))
  {
    var q' := Step(q, a);
    assert HandleInv(q, a.h);
    forall id | id in q'.rows ensures RowInv(q', id) {
      assert RowInv(q, id);
    }
    forall h ensures HandleInv(q', h) && HandleProgress(q, q', h) {
      assert HandleInv(q, h);
    }
    forall id ensures IdProgress(q, q', id) {}
  }

  lemma OtherKeeps(q: Queue, a: Action)
    requires Inv(q) && !a.Claim? && !a.Finish? && Enabled(q, a)
    ensures Inv(Step(q, a)) && Progress(q, Step(q, a))
  {
    var q' := Step(q, a);
    forall id | id in q'.rows ensures RowInv(q', id) {
      if id in q.rows { assert RowInv(q, id); }
    }
    forall h ensures HandleInv(q', h) && HandleProgress(q, q', h) {
      assert HandleInv(q, h);
    }
    forall id ensures IdProgress(q, q', id) {}
  }

  lemma StepKeeps(q: Queue, a: Action)
    requires Inv(q) && Enabled(q, a)
    ensures Inv(Step(q, a)) && Progress(q, Step(q, a))
  {
    match a
    case Claim(_, _, _, _, _) => ClaimKeeps(q, a);
    case Finish(_, _) => FinishKeeps(q, a);
    case _ => OtherKeeps(q, a);
  }

  lemma {:induction false} RunInv(run: seq<Queue>, n: nat)
    requires Execution(run) && n < |run|
    ensures Inv(run[n])
    ensures n > 0 ==> Progress(run[n - 1], run[n])
    decreases n
  {
    if n > 0 {
      RunInv(run, n - 1);
      assert Next(run[n - 1], run[n - 1 + 1]);
      var a :| Enabled(run[n - 1], a) && run[n] == Step(run[n - 1], a);
      StepKeeps(run[n - 1], a);
    }
  }

  lemma {:induction false} RunProgress(run: seq<Queue>, m: nat, n: nat)
    requires Execution(run) && m <= n < |run|
    ensures Progress(run[m], run[n])
    decreases n
  {
    if m < n {
      RunProgress(run, m, n - 1);
      RunInv(run, n);
      ProgressChains(run[m], run[n - 1], run[n]);
    }
  }

  // ---------- What it means over whole runs ----------

  /** A claim of a row is completed at most once, however often its worker reports. */
  lemma AppliedAtMostOnce(run: seq<Queue>, n: nat, h: Handle)
    requires Execution(run) && n < |run|
    ensures run[n].applied[h] <= 1
    ensures h !in run[n].handles ==> run[n].applied[h] == 0
  {
    RunInv(run, n);
    assert HandleInv(run[n], h);
  }

  /** Once a token is superseded, by completion, expiry or another claim, it never
      holds the row again and completing with it changes nothing. */
  lemma SupersededTokenIsInert(run: seq<Queue>, m: nat, n: nat, h: Handle, d: Disposition)
    requires Execution(run) && m <= n < |run|
    requires h in run[m].handles && !Holds(run[m].rows, h)
    ensures Complete(run[n].rows, h, d) == run[n].rows
    ensures run[n].applied[h] == run[m].applied[h]
  {
    RunProgress(run, m, n);
    assert HandleProgress(run[m], run[n], h);
  }

  /** Nobody else can complete a row that one handle holds. */
  lemma LeaseIsExclusive(run: seq<Queue>, n: nat, g: Handle, h: Handle)
    requires Execution(run) && n < |run|
    requires g in run[n].handles && h in run[n].handles && g.id == h.id
    requires Holds(run[n].rows, g) && Holds(run[n].rows, h)
    ensures g == h
  {
    RunInv(run, n);
  }

  /** Succeeded and failed rows are never touched again, until they are deleted. */
  lemma TerminalRowsAreFrozen(run: seq<Queue>, m: nat, n: nat, id: Id)
    requires Execution(run) && m <= n < |run|
    requires id in run[m].rows && Terminal(run[m].rows[id]) && id in run[n].rows
    ensures run[n].rows[id] == run[m].rows[id]
  {
    RunInv(run, m);
    assert RowInv(run[m], id);
    RunProgress(run, m, n);
    assert IdProgress(run[m], run[n], id);
  }

  lemma InFlightMeansHeld(run: seq<Queue>, n: nat, id: Id)
    requires Execution(run) && n < |run| && id in run[n].rows
    ensures run[n].rows[id].state == InFlight <==> run[n].rows[id].lease.Some?
    ensures run[n].rows[id].state == InFlight <==> run[n].rows[id].token.Some?
  {
    RunInv(run, n);
    assert RowInv(run[n], id);
  }

  /** `attempt_count` is the number of completions that were applied to the row. */
  lemma AttemptCountIsAppliedCompletions(run: seq<Queue>, n: nat, id: Id)
    requires Execution(run) && n < |run| && id in run[n].rows
    ensures run[n].rows[id].attempts == run[n].completions[id]
  {
    RunInv(run, n);
    assert RowInv(run[n], id);
  }

  /** A row ends as succeeded exactly if a success was applied to it, and as failed exactly if a
      permanent failure was; never both. */
  lemma EndsAsCompleted(run: seq<Queue>, n: nat, id: Id)
    requires Execution(run) && n < |run| && id in run[n].rows
    ensures run[n].rows[id].state == Succeeded <==> id in run[n].succeeded
    ensures run[n].rows[id].state == PermanentFailed <==> id in run[n].refused
  {
    RunInv(run, n);
    assert RowInv(run[n], id);
  }

  // ---------- How long a lease protects ----------

  ghost predicate Takes(run: seq<Queue>, actions: seq<Action>, i: int) {
    0 <= i < |actions| && i + 1 < |run| && Enabled(run[i], actions[i]) && run[i + 1] == Step(run[i], actions[i])
  }

  ghost predicate RunOf(run: seq<Queue>, actions: seq<Action>) {
    |run| == |actions| + 1 && run[0] == EMPTY && forall i :: 0 <= i < |actions| ==> Takes(run, actions, i)
  }

  lemma RunIsExecution(run: seq<Queue>, actions: seq<Action>)
    requires RunOf(run, actions)
    ensures Execution(run)
  {
    forall i | 0 <= i < |run| - 1 ensures Next(run[i], run[i + 1]) {
      assert Takes(run, actions, i);
    }
  }

  /** Neither the owner's completion, nor a deletion, nor a claim or recovery after the lease. */
  predicate Spares(a: Action, h: Handle, until: int) {
    match a
    case Claim(now, _, _, _, _) => now < until
    case Finish(g, _) => g != h
    case Recover(now) => now < until
    case Remove(id) => id != h.id
    case Enqueue(_, _, _) => true
  }

  lemma SparedRowStays(q: Queue, a: Action, h: Handle, until: int)
    requires Inv(q) && Enabled(q, a) && Spares(a, h, until)
    requires h in q.handles && Holds(q.rows, h) && q.rows[h.id].lease == Some(At(until))
    ensures h.id in Step(q, a).rows && Step(q, a).rows[h.id] == q.rows[h.id] && h in Step(q, a).handles
  {
    assert RowInv(q, h.id);
    if a.Claim? { ClaimedRowCases(q, a, h.id); }
  }

  /** The row of `h` is `row`, and `h` holds it until `until`. */
  ghost predicate HeldUntil(q: Queue, h: Handle, row: Row, until: int) {
    h in q.handles && Holds(q.rows, h) && q.rows[h.id] == row && row.lease == Some(At(until))
  }

  lemma ClaimHandsOut(q: Queue, a: Action, q': Queue, h: Handle, until: int)
    requires Inv(q) && a.Claim? && Enabled(q, a) && q' == Step(q, a) && h.id in a.batch && h.id in q'.rows
    requires h == Handle(h.id, q'.rows[h.id].profile, q'.rows[h.id].attempts, a.token) && until == a.now + a.leaseFor
    ensures HeldUntil(q', h, q'.rows[h.id], until)
  {
    ClaimedRowCases(q, a, h.id);
  }

  lemma {:induction false} StaysHeld(
      run: seq<Queue>, actions: seq<Action>, m: nat, n: nat, h: Handle, row: Row, until: int)
    requires RunOf(run, actions) && m <= n < |run| && HeldUntil(run[m], h, row, until)
    requires forall j :: m <= j < n ==> Spares(actions[j], h, until)
    ensures HeldUntil(run[n], h, row, until)
    decreases n
  {
    if m < n {
      StaysHeld(run, actions, m, n - 1, h, row, until);
      RunIsExecution(run, actions);
      RunInv(run, n - 1);
      assert Takes(run, actions, n - 1);
      SparedRowStays(run[n - 1], actions[n - 1], h, until);
    }
  }

  /** From its claim until its lease is over, a row stays with its claimer, unless the claimer
      completes it or it is deleted: whatever other workers claim, complete or recover. */
  lemma LeaseProtects(run: seq<Queue>, actions: seq<Action>, i: nat, n: nat, id: Id, h: Handle, until: int)
    requires RunOf(run, actions) && i < n < |run| && actions[i].Claim? && id in actions[i].batch
    requires until == actions[i].now + actions[i].leaseFor && id in run[i + 1].rows
    requires h == Handle(id, run[i + 1].rows[id].profile, run[i + 1].rows[id].attempts, actions[i].token)
    requires forall j :: i < j < n ==> Spares(actions[j], h, until)
    ensures HeldUntil(run[n], h, run[i + 1].rows[id], until)
  {
    RunIsExecution(run, actions);
    RunInv(run, i);
    assert Takes(run, actions, i);
    ClaimHandsOut(run[i], actions[i], run[i + 1], h, until);
    StaysHeld(run, actions, i + 1, n, h, run[i + 1].rows[id], until);
  }

  /** What a claim hands to its worker is the stored row, with a handle that holds it. */
  lemma ClaimTellsTheRow(q: Queue, a: Action, id: Id)
    requires Inv(q) && a.Claim? && Enabled(q, a) && id in a.batch && id in Step(q, a).rows
    ensures var (row, c) := (Step(q, a).rows[id], ClaimedRow(Step(q, a).rows, id, a.token));
      && c.messageId == row.messageId && c.next == row.next && c.created == row.created
      && c.handle.id == id && c.handle.attempts == row.attempts && c.handle.profile == row.profile
      && c.handle in Step(q, a).handles && Holds(Step(q, a).rows, c.handle)
  {
    ClaimedRowCases(q, a, id);
  }

  /** Once the lease is over, whoever claims or recovers takes the row back. */
  lemma LeaseEnds(q: Queue, h: Handle, row: Row, until: int, now: int)
    requires HeldUntil(q, h, row, until)
    ensures now >= until ==> Claimable(RecoverAll(q.rows, now)[h.id], now) && !Holds(RecoverAll(q.rows, now), h)
    ensures now < until ==> RecoverAll(q.rows, now)[h.id] == row
  {
  }
}
