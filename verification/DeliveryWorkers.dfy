/** The worker itself: the queue of claimed rows, the set of running tasks, and the loops
    over them. Every method keeps to the rules of
    `DeliveryBatch`: its ghost `load` is a state that some run of them reaches. */
module DeliveryWorkers {
  import opened Wrappers
  import opened DeliveryBatch

  datatype Handle = Handle(finishAt: int, error: Option<Error>)

  /** The rows that coming claims will hand out. */
  function Supply(feed: seq<Answer>): seq<Work> {
    if feed == [] then []
    else (if feed[0].Rows? then feed[0].rows else []) + Supply(feed[1..])
  }

  lemma Regroup(a: seq<Work>, b: seq<Work>, c: seq<Work>)
    ensures a + (b + c) == (a + b) + c
  {
  }

  /** A claim returns no more rows than it asked for. */
  ghost predicate Supplies(feed: seq<Answer>, slots: nat, longest: nat) {
    forall i :: 0 <= i < |feed| && feed[i].Rows? ==> Bounded(feed[i].rows, slots, longest)
  }

  /** What the worker has in its hands. */
  datatype Desk = Desk(now: int, rows: seq<Work>, tasks: map<Task, Handle>, spawned: nat)

  ghost predicate TaskMirrors(d: Desk, s: Load, t: Task) {
    t in d.tasks ==>
      t < d.spawned == |s.spawned| && d.tasks[t].error == s.spawned[t].error && d.tasks[t].finishAt == FinishOf(s, t)
  }

  ghost predicate Mirrors(d: Desk, s: Load) {
    && d.now == s.now && d.rows == s.buffered && d.tasks.Keys == s.running
    && d.spawned == |s.spawned| == |s.starts|
    && forall t: Task :: TaskMirrors(d, s, t)
  }

  function DeskAfterSpawn(d: Desk): Desk
    requires d.rows != []
  {
    Desk(d.now, d.rows[1..], d.tasks[d.spawned := Handle(d.now + d.rows[0].lasts, d.rows[0].error)], d.spawned + 1)
  }

  lemma SpawnMirrors(d: Desk, s: Load)
    requires Mirrors(d, s) && d.rows != [] && d.spawned !in d.tasks
    ensures Mirrors(DeskAfterSpawn(d), After(s, Spawned)) && |DeskAfterSpawn(d).tasks| == |d.tasks| + 1
  {
    var (d', s') := (DeskAfterSpawn(d), After(s, Spawned));
    forall t: Task ensures TaskMirrors(d', s', t) {
      assert TaskMirrors(d, s, t);
    }
    TaskCount(d);
    TaskCount(d');
    assert d'.tasks.Keys == d.tasks.Keys + {d.spawned};
  }

  lemma TaskCount(d: Desk)
    ensures |d.tasks.Keys| == |d.tasks|
  {
  }

  lemma MaySpawn(d: Desk, s: Load, slots: nat, longest: nat)
    requires Mirrors(d, s) && d.rows != [] && |d.tasks| < slots
    ensures Allowed(s, Spawned, slots, longest) && d.spawned !in d.tasks
  {
    TaskCount(d);
    assert TaskMirrors(d, s, d.spawned);
  }

  function DeskAfterJoin(d: Desk, first: Task): Desk
    requires first in d.tasks
  {
    d.(now := d.tasks[first].finishAt, tasks := d.tasks - {first})
  }

  lemma JoinMirrors(d: Desk, s: Load, first: Task)
    requires Mirrors(d, s) && first in d.tasks && first < |s.spawned|
    ensures Mirrors(DeskAfterJoin(d, first), After(s, Joined(first, d.tasks[first].finishAt)))
    ensures |DeskAfterJoin(d, first).tasks| == |d.tasks| - 1
  {
    var (d', s') := (DeskAfterJoin(d, first), After(s, Joined(first, d.tasks[first].finishAt)));
    forall t: Task ensures TaskMirrors(d', s', t) {
      assert TaskMirrors(d, s, t);
    }
    TaskCount(d);
    TaskCount(d');
    assert d'.tasks.Keys == d.tasks.Keys - {first};
  }

  /** The task that finishes first may be joined. */
  lemma FirstMayBeJoined(d: Desk, s: Load, first: Task, slots: nat, longest: nat)
    requires Mirrors(d, s) && first in d.tasks && !s.owed && Balanced(s, slots)
    requires forall t :: t in d.tasks ==> d.tasks[first].finishAt <= d.tasks[t].finishAt
    requires d.rows == [] || |d.tasks| >= slots
    ensures Allowed(s, Joined(first, d.tasks[first].finishAt), slots, longest) && first < |s.spawned|
    ensures d.tasks[first].error == s.spawned[first].error
  {
    TaskCount(d);
    assert TaskMirrors(d, s, first);
    forall t | t in s.running ensures d.tasks[first].finishAt <= FinishOf(s, t) {
      assert TaskMirrors(d, s, t);
    }
  }

  lemma ClaimMirrors(d: Desk, s: Load, claimed: seq<Work>)
    requires Mirrors(d, s)
    ensures Mirrors(d.(rows := d.rows + claimed), After(s, Claimed(claimed)))
    ensures forall e :: Mirrors(d, After(s, ClaimFailed(e)))
  {
    forall t: Task ensures TaskMirrors(d.(rows := d.rows + claimed), After(s, Claimed(claimed)), t) {
      assert TaskMirrors(d, s, t);
    }
    forall e ensures Mirrors(d, After(s, ClaimFailed(e))) {
      forall t: Task ensures TaskMirrors(d, After(s, ClaimFailed(e)), t) {
        assert TaskMirrors(d, s, t);
      }
    }
  }

  class DeliveryWorker {
    const concurrency: nat
    ghost const longest: nat
    var now: int
    var feed: seq<Answer>
    var rows: seq<Work>
    var tasks: map<Task, Handle>
    var spawned: nat
    ghost var load: Load

    ghost predicate Logged()
      reads this
    {
      Reachable(load, concurrency, longest)
    }

    function Contents(): Desk
      reads this
    {
      Desk(now, rows, tasks, spawned)
    }

    ghost predicate Valid()
      reads this
    {
      Logged() && Mirrors(Contents(), load) && Supplies(feed, concurrency, longest)
    }

    constructor (concurrency: nat, feed: seq<Answer>, now: int, ghost longest: nat)
      requires Supplies(feed, concurrency, longest)
      ensures Valid() && load == Idle(now)
      ensures this.concurrency == concurrency && this.longest == longest && this.feed == feed
    {
      this.concurrency, this.longest := concurrency, longest;
      this.now, this.feed, this.rows, this.tasks, this.spawned := now, feed, [], map[], 0;
      this.load := Idle(now);
      IdleIsReachable(now, concurrency, longest);
    }

    ghost method Log(e: Event)
      requires Logged() && Allowed(load, e, concurrency, longest)
      modifies this`load
      ensures Logged() && load == After(old(load), e)
    {
      ReachMore(load, e, concurrency, longest);
      load := After(load, e);
    }

    /** The store's answer to the next claim. */
    method NextAnswer() returns (answer: Answer)
      requires Supplies(feed, concurrency, longest)
      modifies this`feed
      ensures Supplies(feed, concurrency, longest) && |feed| <= |old(feed)|
      ensures answer.Rows? ==> Bounded(answer.rows, concurrency, longest)
      ensures answer.Rows? && answer.rows != [] ==> |feed| < |old(feed)|
      ensures old(Supply(feed)) == (if answer.Rows? then answer.rows else []) + Supply(feed)
    {
      if feed == [] { return Rows([]); }
      answer := feed[0];
      feed := feed[1..];
      assert answer.Rows? ==> Bounded(old(feed)[0].rows, concurrency, longest);
    }

    /** Claims into the empty buffer. */
    method ClaimDeliveryBatch() returns (r: Result<nat, Error>)
      requires Valid() && rows == [] && load.error.None? && (load.owed || tasks == map[])
      modifies this`feed, this`rows, this`load
      ensures Valid() && !load.owed
      ensures r.Ok? ==> load.error.None? && r.value == |rows| == load.claim.size
      ensures r.Err? ==> load.error == Some(r.error) && rows == []
      ensures load.claimed == old(load.claimed) + rows && |rows| <= WAVES * concurrency
      ensures old(Supply(feed)) == rows + Supply(feed)
      ensures |feed| <= |old(feed)| && (rows != [] ==> |feed| < |old(feed)|)
    {
      assert MayClaim(load) by { assert tasks == map[] ==> tasks.Keys == {}; }
      var answer := NextAnswer();
      match answer {
        case Rows(claimed) =>
          Take(claimed);
          r := Ok(|claimed|);
        case StoreError(error) =>
          Fail(error);
          r := Err(error);
      }
    }

    method Take(claimed: seq<Work>)
      requires Valid() && MayClaim(load) && Bounded(claimed, concurrency, longest)
      modifies this`rows, this`load
      ensures Valid() && load == After(old(load), Claimed(claimed)) && rows == claimed
    {
      ghost var d := Contents();
      ClaimMirrors(d, load, claimed);
      Log(Claimed(claimed));
      rows := rows + claimed;
      assert Contents() == d.(rows := d.rows + claimed);
    }

    ghost method Fail(error: Error)
      requires Valid() && MayClaim(load)
      modifies this`load
      ensures Valid() && load == After(old(load), ClaimFailed(error))
    {
      ClaimMirrors(Contents(), load, []);
      Log(ClaimFailed(error));
    }

    method SpawnDeliveryTask(row: Work)
      requires Valid() && rows != [] && row == rows[0] && |tasks| < concurrency
      modifies this`rows, this`tasks, this`spawned, this`load
      ensures Valid() && load == After(old(load), Spawned)
      ensures |tasks| == |old(tasks)| + 1 && rows == old(rows)[1..]
    {
      ghost var d := Contents();
      MaySpawn(d, load, concurrency, longest);
      SpawnMirrors(d, load);
      Log(Spawned);
      tasks := tasks[spawned := Handle(now + row.lasts, row.error)];
      spawned := spawned + 1;
      rows := rows[1..];
      assert Contents() == DeskAfterSpawn(d);
    }

    method FillDeliverySlots()
      requires Valid()
      modifies this`rows, this`tasks, this`spawned, this`load
      ensures Valid()
      ensures load.claimed == old(load.claimed) && load.claim == old(load.claim)
      ensures load.error == old(load.error) && load.owed == old(load.owed)
      ensures rows == [] || |tasks| >= concurrency
      ensures |rows| + |tasks| == |old(rows)| + |old(tasks)|
    {
      while |tasks| < concurrency && rows != []
        invariant Valid()
        invariant load.claimed == old(load.claimed) && load.claim == old(load.claim)
        invariant load.error == old(load.error) && load.owed == old(load.owed)
        invariant |rows| + |tasks| == |old(rows)| + |old(tasks)|
        decreases |rows|
      {
        SpawnDeliveryTask(rows[0]);
      }
    }

    /** The task that finishes first; which one of several is up to the scheduler. */
    method FirstToFinish() returns (first: Task)
      requires tasks != map[]
      ensures first in tasks && forall t :: t in tasks ==> tasks[first].finishAt <= tasks[t].finishAt
    {
      first :| first in tasks;
      var todo := tasks.Keys - {first};
      while todo != {}
        invariant todo <= tasks.Keys && first in tasks
        invariant forall t :: t in tasks.Keys - todo ==> tasks[first].finishAt <= tasks[t].finishAt
        decreases todo
      {
        var t :| t in todo;
        if tasks[t].finishAt < tasks[first].finishAt { first := t; }
        todo := todo - {t};
      }
    }

    method JoinNext() returns (error: Option<Error>)
      requires Valid() && tasks != map[] && !load.owed && (rows == [] || |tasks| >= concurrency)
      modifies this`now, this`tasks, this`load
      ensures Valid() && |tasks| == |old(tasks)| - 1
      ensures load.error == (if old(load.error).Some? then old(load.error) else error)
      ensures load.owed == (rows == [] && load.error.None?)
      ensures load.claimed == old(load.claimed) && load.claim == old(load.claim)
    {
      var first := FirstToFinish();
      ReachableIsBalanced(load, concurrency, longest);
      FirstMayBeJoined(Contents(), load, first, concurrency, longest);
      JoinMirrors(Contents(), load, first);
      var done := tasks[first];
      Log(Joined(first, done.finishAt));
      now := done.finishAt;
      tasks := tasks - {first};
      error := done.error;
    }

    /** A claim, if the buffer has run dry and nothing has failed. */
    method Refill(firstError: Option<Error>) returns (count: nat, error: Option<Error>)
      requires Valid() && load.error == firstError && load.owed == (rows == [] && firstError.None?)
      modifies this`feed, this`rows, this`load
      ensures Valid() && !load.owed && load.error == error && (firstError.Some? ==> error == firstError)
      ensures |load.claimed| == |old(load.claimed)| + count
      ensures load.claimed + Supply(feed) == old(load.claimed + Supply(feed))
      ensures error.None? && old(rows) == [] ==> load.claim.size == |rows|
      ensures old(rows) != [] ==> rows == old(rows)
      ensures |Supply(feed)| + |rows| == |old(Supply(feed))| + |old(rows)| && |feed| <= |old(feed)|
    {
      count, error := 0, firstError;
      if rows == [] && firstError.None? {
        var more := ClaimDeliveryBatch();
        Regroup(old(load.claimed), rows, Supply(feed));
        match more {
          case Ok(claimed) => count := claimed;
          case Err(e) => error := Some(e);
        }
      }
    }

    /** Join one task, claim again if the buffer is empty, and fill the slots. */
    method Turn(firstError: Option<Error>) returns (count: nat, error: Option<Error>)
      requires Valid() && load.error == firstError && !load.owed
      requires tasks != map[] && (rows == [] || |tasks| >= concurrency)
      modifies this
      ensures Valid() && load.error == error && !load.owed
      ensures rows == [] || |tasks| >= concurrency
      ensures |load.claimed| == |old(load.claimed)| + count
      ensures tasks == map[] && rows == [] && error.None? ==> load.claim.size == 0
      ensures |feed| <= |old(feed)|
      ensures load.claimed + Supply(feed) == old(load.claimed + Supply(feed))
      ensures |Supply(feed)| + |rows| + |tasks| < |old(Supply(feed))| + |old(rows)| + |old(tasks)|
    {
      error := JoinNext();
      if firstError.Some? { error := firstError; }
      count, error := Refill(error);
      FillDeliverySlots();
    }

    /** Turn by turn until no task is left. */
    method Roll() returns (count: nat, firstError: Option<Error>)
      requires concurrency > 0
      requires Valid() && load.error.None? && !load.owed && tasks != map[] && (rows == [] || |tasks| >= concurrency)
      modifies this
      ensures Valid() && rows == [] && tasks == map[] && load.error == firstError && !load.owed
      ensures count == |load.claimed| - |old(load.claimed)|
      ensures load.claimed + Supply(feed) == old(load.claimed + Supply(feed))
      ensures firstError.None? ==> load.claim.size == 0
      ensures |feed| <= |old(feed)|
    {
      count, firstError := 0, None;
      while tasks != map[]
        invariant Valid() && load.error == firstError && !load.owed && |feed| <= |old(feed)|
        invariant rows == [] || |tasks| >= concurrency
        invariant count == |load.claimed| - |old(load.claimed)|
        invariant load.claimed + Supply(feed) == old(load.claimed + Supply(feed))
        invariant tasks == map[] && firstError.None? ==> load.claim.size == 0
        decreases |Supply(feed)| + |rows| + |tasks|
      {
        var claimed;
        claimed, firstError := Turn(firstError);
        count := count + claimed;
      }
    }

    /** Every row that was claimed has been spawned and joined when the batch is over, and
        the answer is the number of rows or the first error. */
    method ProcessDeliveryBatch() returns (r: Result<nat, Error>)
      requires Valid() && rows == [] && tasks == map[] && load.error.None?
      modifies this
      ensures Valid() && rows == [] && tasks == map[]
      ensures load.claimed + Supply(feed) == old(load.claimed + Supply(feed))
      ensures load.spawned == load.claimed && forall t: Task :: t in load.ends <==> t < |load.claimed|
      ensures r.Ok? ==> load.error.None? && r.value == |load.claimed| - |old(load.claimed)| && load.claim.size == 0
      ensures r.Err? ==> load.error == Some(r.error)
      ensures FirstFailure(load)
      ensures |feed| <= |old(feed)| && (r.Ok? && r.value > 0 ==> |feed| < |old(feed)|) && !load.owed
    {
      r := ClaimDeliveryBatch();
      Regroup(old(load.claimed), rows, Supply(feed));
      if r.Ok? && rows != [] {
        FillDeliverySlots();
        var more, firstError := Roll();
        r := if firstError.Some? then Err(firstError.value) else Ok(r.value + more);
      }
      NothingIsLeft(load, concurrency, longest);
    }

    /** Batch after batch, until one finds nothing to claim or fails. */
    method DrainDueDeliveries() returns (r: Result<nat, Error>)
      requires Valid() && rows == [] && tasks == map[] && load.error.None?
      modifies this
      ensures Valid() && rows == [] && tasks == map[]
      ensures load.claimed + Supply(feed) == old(load.claimed + Supply(feed))
      ensures load.spawned == load.claimed && forall t: Task :: t in load.ends <==> t < |load.claimed|
      ensures r.Ok? ==> load.error.None? && r.value == |load.claimed| - |old(load.claimed)| && load.claim.size == 0
      ensures r.Err? ==> load.error == Some(r.error)
      ensures FirstFailure(load)
    {
      var processed, drained := 0, false;
      while !drained
        invariant Valid() && rows == [] && tasks == map[] && load.error.None?
        invariant load.claimed + Supply(feed) == old(load.claimed + Supply(feed))
        invariant processed == |load.claimed| - |old(load.claimed)|
        invariant drained ==> load.claim.size == 0
        decreases |feed|, !drained
      {
        var batch := ProcessDeliveryBatch();
        if batch.Err? {
          NothingIsLeft(load, concurrency, longest);
          return batch;
        }
        processed, drained := processed + batch.value, batch.value == 0;
      }
      NothingIsLeft(load, concurrency, longest);
      return Ok(processed);
    }
  }
}
