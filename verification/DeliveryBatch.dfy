/** The delivery worker's rolling batch: claim, fill the free slots, join, and claim
    again whenever the buffer runs dry.

    The store and the tasks are scripted: `feed` holds the answers of the coming claims,
    and every claimed row carries how long its task will run and how it will end. All
    results hold for every script. Only tasks take time. */
module DeliveryBatch {
  import opened Wrappers

  type Error = nat
  type Task = nat

  const WAVES := 4
  const LEASE_SECS := 90

  datatype Work = Work(id: nat, lasts: nat, error: Option<Error>)

  datatype Answer = Rows(rows: seq<Work>) | StoreError(error: Error)

  // ---------- What a batch may do, event by event ----------

  datatype Event =
    | Claimed(rows: seq<Work>)
    | ClaimFailed(error: Error)
    | Spawned
    | Joined(task: Task, at: int)

  /** The latest claim: when, the number of its first task, the tasks then running, and
      how many rows it returned. */
  datatype Claim = Claim(at: int, first: Task, carried: nat, size: nat)

  datatype Start = Start(claim: Claim, at: int)

  /** Tasks are numbered in the order in which they are spawned. `failures` are those of claims
      and joined tasks, in the order in which the worker meets them. */
  datatype Load = Load(
    now: int,
    claim: Claim,
    claimed: seq<Work>,
    buffered: seq<Work>,
    spawned: seq<Work>,
    starts: seq<Start>,
    running: set<Task>,
    ends: map<Task, int>,
    owed: bool,
    error: Option<Error>,
    failures: seq<Error>)

  function Idle(now: int): Load {
    Load(now, Claim(now, 0, 0, 0), [], [], [], [], {}, map[], false, None, [])
  }

  /** When a started task is over. */
  function FinishOf(s: Load, task: Task): int {
    if task < |s.starts| && task < |s.spawned| then s.starts[task].at + s.spawned[task].lasts else s.now
  }

  ghost predicate ShortWork(rows: seq<Work>, longest: nat) {
    forall i :: 0 <= i < |rows| ==> rows[i].lasts <= longest
  }

  /** A claim returns no more rows than it asked for. */
  ghost predicate Bounded(rows: seq<Work>, slots: nat, longest: nat) {
    |rows| <= WAVES * slots && ShortWork(rows, longest)
  }

  /** A claim is made when no task runs, or right after a join that found the buffer empty. */
  predicate MayClaim(s: Load) {
    s.buffered == [] && s.error.None? && (s.owed || s.running == {})
  }

  /** A spawn needs a free slot. The task that is over first is joined, when no claim is owed
      and no row waits beside a free slot. */
  ghost predicate Allowed(s: Load, e: Event, slots: nat, longest: nat) {
    match e
    case Claimed(rows) => MayClaim(s) && Bounded(rows, slots, longest)
    case ClaimFailed(_) => MayClaim(s)
    case Spawned => s.buffered != [] && |s.running| < slots
    case Joined(task, at) =>
      && !s.owed
      && task in s.running
      && (s.buffered != [] ==> |s.running| == slots)
      && at == FinishOf(s, task)
      && (forall t :: t in s.running ==> at <= FinishOf(s, t))
  }

  function After(s: Load, e: Event): Load {
    match e
    case Claimed(rows) =>
      s.(claimed := s.claimed + rows, buffered := s.buffered + rows,
         claim := Claim(s.now, |s.spawned|, |s.running|, |rows|), owed := false)
    case ClaimFailed(error) => s.(error := Some(error), owed := false, failures := s.failures + [error])
    case Spawned =>
      if s.buffered == [] then s
      else s.(buffered := s.buffered[1..], spawned := s.spawned + [s.buffered[0]],
              starts := s.starts + [Start(s.claim, s.now)], running := s.running + {|s.spawned|})
    case Joined(task, at) =>
      var error := if s.error.None? && task < |s.spawned| then s.spawned[task].error else s.error;
      s.(now := at, running := s.running - {task}, ends := s.ends[task := at],
         owed := s.buffered == [] && error.None?, error := error,
         failures := s.failures + (if task < |s.spawned| && s.spawned[task].error.Some?
                                   then [s.spawned[task].error.value] else []))
  }

  ghost predicate Next(s: Load, s': Load, slots: nat, longest: nat) {
    exists e :: Allowed(s, e, slots, longest) && s' == After(s, e)
  }

  ghost predicate Follows(run: seq<Load>, i: int, slots: nat, longest: nat) {
    0 < i < |run| && Next(run[i - 1], run[i], slots, longest)
  }

  /** A batch, or several in a row: one allowed event after the other. */
  ghost predicate Execution(run: seq<Load>, slots: nat, longest: nat) {
    && run != [] && run[0] == Idle(run[0].now)
    && forall i :: 0 < i < |run| ==> Follows(run, i, slots, longest)
  }

  ghost predicate Reachable(s: Load, slots: nat, longest: nat) {
    exists run :: Execution(run, slots, longest) && run[|run| - 1] == s
  }

  lemma IdleIsReachable(now: int, slots: nat, longest: nat)
    ensures Reachable(Idle(now), slots, longest)
  {
    var run := [Idle(now)];
    assert Execution(run, slots, longest) && run[|run| - 1] == Idle(now);
  }

  lemma ReachMore(s: Load, e: Event, slots: nat, longest: nat)
    requires Reachable(s, slots, longest) && Allowed(s, e, slots, longest)
    ensures Reachable(After(s, e), slots, longest)
  {
    var run :| Execution(run, slots, longest) && run[|run| - 1] == s;
    var more := run + [After(s, e)];
    forall i | 0 < i < |more| ensures Follows(more, i, slots, longest) {
      assert i < |run| ==> Follows(run, i, slots, longest);
    }
    assert Execution(more, slots, longest) && more[|more| - 1] == After(s, e);
  }

  // ---------- Conservation ----------

  /** A task number is in use once: running, or joined. */
  ghost predicate Accounted(s: Load, task: Task) {
    && (task < |s.spawned| <==> task in s.running || task in s.ends)
    && !(task in s.running && task in s.ends)
  }

  /** The answer of a batch that has failed is its first failure. */
  ghost predicate FirstFailure(s: Load) {
    s.error == if s.failures == [] then None else Some(s.failures[0])
  }

  ghost predicate Balanced(s: Load, slots: nat) {
    && FirstFailure(s)
    && s.claimed == s.spawned + s.buffered
    && |s.starts| == |s.spawned|
    && |s.running| <= slots
    && (forall t: Task :: Accounted(s, t))
  }

  lemma NextIsBalanced(s: Load, s': Load, slots: nat, longest: nat)
    requires Balanced(s, slots) && Next(s, s', slots, longest)
    ensures Balanced(s', slots)
  {
    var e :| Allowed(s, e, slots, longest) && s' == After(s, e);
    BalanceIsKept(s, e, slots, longest);
  }

  /** At every point rows are spawned exactly once each, in the order claimed; every spawned
      task is either running or was joined once; and no more than `slots` run. */
  lemma {:induction false} Conservation(run: seq<Load>, slots: nat, longest: nat, n: nat)
    requires Execution(run, slots, longest) && n < |run|
    ensures Balanced(run[n], slots)
    decreases n
  {
    if n > 0 {
      Conservation(run, slots, longest, n - 1);
      assert Follows(run, n, slots, longest);
      NextIsBalanced(run[n - 1], run[n], slots, longest);
    }
  }

  lemma ReachableIsBalanced(s: Load, slots: nat, longest: nat)
    requires Reachable(s, slots, longest)
    ensures Balanced(s, slots)
  {
    var run :| Execution(run, slots, longest) && run[|run| - 1] == s;
    Conservation(run, slots, longest, |run| - 1);
  }

  /** Once the buffer and the task set are empty, every claimed row was spawned and joined. */
  lemma NothingIsLeft(s: Load, slots: nat, longest: nat)
    requires Reachable(s, slots, longest) && s.buffered == [] && s.running == {}
    ensures s.spawned == s.claimed && forall t: Task :: t in s.ends <==> t < |s.claimed|
    ensures FirstFailure(s)
  {
    ReachableIsBalanced(s, slots, longest);
    forall t: Task ensures t in s.ends <==> t < |s.claimed| {
      assert Accounted(s, t);
    }
  }

  lemma RowsAreKept(s: Load, e: Event)
    requires s.claimed == s.spawned + s.buffered
    ensures After(s, e).claimed == After(s, e).spawned + After(s, e).buffered
  {
  }

  lemma BalanceIsKept(s: Load, e: Event, slots: nat, longest: nat)
    requires Balanced(s, slots) && Allowed(s, e, slots, longest)
    ensures Balanced(After(s, e), slots)
  {
    RowsAreKept(s, e);
    forall t: Task ensures Accounted(After(s, e), t) {
      assert Accounted(s, t);
      assert Accounted(s, |s.spawned|);
    }
  }

  // ---------- The schedule ----------

  /** How many full waves of `slots` tasks start before the row at this place. */
  function Wave(place: nat, slots: nat): (w: nat) {
    if place < slots then 0 else if place < 2 * slots then 1 else if place < 3 * slots then 2 else 3
  }

  function Times(n: nat, longest: nat): (t: int)
    ensures n == 0 ==> t == 0
  {
    match n case 0 => 0 case 1 => longest case 2 => 2 * longest case 3 => 3 * longest case _ => 4 * longest
  }

  /** One wave is lost to tasks that were already running when the claim was made. */
  function Latest(claim: Claim, place: nat, slots: nat, longest: nat): int {
    claim.at + Times(Wave(place, slots) + (if claim.carried == 0 then 0 else 1), longest)
  }

  /** A claim that finds a slot taken loses a task time; with one slot there is no such claim. */
  predicate Unhindered(claim: Claim, slots: nat) {
    claim.carried == 0 || slots == 1
  }

  ghost predicate StartedInTime(s: Load, task: Task, slots: nat, longest: nat) {
    task < |s.starts| ==>
      var claim := s.starts[task].claim;
      s.starts[task].at <= claim.at + (if Unhindered(claim, slots) then 3 * longest else 4 * longest)
  }

  ghost predicate EndedInTime(s: Load, task: Task, longest: nat) {
    task < |s.starts| && task in s.ends ==> s.ends[task] <= s.starts[task].at + longest
  }

  /** A running task is not over yet, and none takes longer than `longest`. */
  ghost predicate Ticking(s: Load, task: Task, longest: nat) {
    task in s.running && task < |s.starts| ==> s.now <= FinishOf(s, task) <= s.starts[task].at + longest
  }

  /** Where a started task stands relative to the latest claim. */
  ghost predicate Placed(s: Load, task: Task, slots: nat, longest: nat) {
    && Ticking(s, task, longest)
    && StartedInTime(s, task, slots, longest)
    && EndedInTime(s, task, longest)
    && (task < |s.starts| ==>
          && s.starts[task].at <= s.now
          && (task < s.claim.first ==> s.starts[task].at <= s.claim.at && (s.claim.carried == 0 ==> task !in s.running))
          && (task >= s.claim.first ==> s.starts[task].at <= Latest(s.claim, task - s.claim.first, slots, longest)))
  }

  ghost predicate Paced(s: Load, slots: nat, longest: nat) {
    && s.claim.at <= s.now
    && s.claim.first <= |s.spawned|
    && |s.spawned| - s.claim.first + |s.buffered| <= 4 * slots
    && (s.owed ==> s.buffered == [] && |s.running| < slots)
    && (slots == 1 ==> s.claim.carried == 0)
    && (s.buffered != [] ==> s.now <= Latest(s.claim, |s.spawned| - s.claim.first, slots, longest))
  }

  ghost predicate OnTime(s: Load, slots: nat, longest: nat) {
    && Balanced(s, slots)
    && Paced(s, slots, longest)
    && ShortWork(s.buffered, longest)
    && (forall t: Task :: Placed(s, t, slots, longest))
  }

  lemma {:induction false} Pigeonhole(tasks: set<Task>, low: nat, high: nat)
    requires low <= high && forall t :: t in tasks ==> low <= t < high
    ensures |tasks| <= high - low
    decreases high - low
  {
    if low < high {
      Pigeonhole(tasks - {low}, low + 1, high);
      if low in tasks { assert |tasks - {low}| == |tasks| - 1; } else { assert tasks - {low} == tasks; }
    } else {
      assert tasks == {};
    }
  }

  /** All slots are busy with tasks that have not run for longer than `longest`. */
  lemma NextRowIsInTime(s: Load, at: int, slots: nat, longest: nat)
    requires OnTime(s, slots, longest) && s.buffered != [] && |s.running| == slots
    requires forall t :: t in s.running ==> at <= FinishOf(s, t)
    ensures at <= Latest(s.claim, |s.spawned| - s.claim.first, slots, longest)
  {
    var first, place := s.claim.first, |s.spawned| - s.claim.first;
    if at > Latest(s.claim, place, slots, longest) {
      var low := match Wave(place, slots) case 0 => first case 1 => first + slots
        case 2 => first + 2 * slots case _ => first + 3 * slots;
      forall t | t in s.running ensures low <= t < |s.spawned| {
        assert Placed(s, t, slots, longest) && Accounted(s, t);
      }
      Pigeonhole(s.running, low, |s.spawned|);
      assert false;
    }
  }

  lemma ClaimKeepsPace(s: Load, e: Event, slots: nat, longest: nat)
    requires Balanced(s, slots) && Paced(s, slots, longest) && Allowed(s, e, slots, longest)
    requires e.Claimed? || e.ClaimFailed?
    ensures Paced(After(s, e), slots, longest)
  {
    assert s.running == {} ==> |s.running| == 0;
  }

  lemma SpawnKeepsPace(s: Load, slots: nat, longest: nat)
    requires Paced(s, slots, longest) && Allowed(s, Spawned, slots, longest) && !s.owed
    ensures Paced(After(s, Spawned), slots, longest)
  {
  }

  lemma JoinKeepsPace(s: Load, task: Task, at: int, slots: nat, longest: nat)
    requires OnTime(s, slots, longest) && Allowed(s, Joined(task, at), slots, longest)
    ensures Paced(After(s, Joined(task, at)), slots, longest)
    ensures s.now <= at
  {
    assert Placed(s, task, slots, longest) && Accounted(s, task);
    if s.buffered != [] { NextRowIsInTime(s, at, slots, longest); }
  }

  lemma PaceIsKept(s: Load, e: Event, slots: nat, longest: nat)
    requires OnTime(s, slots, longest) && Allowed(s, e, slots, longest)
    ensures Paced(After(s, e), slots, longest)
    ensures s.now <= After(s, e).now
  {
    match e
    case Claimed(_) => ClaimKeepsPace(s, e, slots, longest);
    case ClaimFailed(_) => ClaimKeepsPace(s, e, slots, longest);
    case Spawned => SpawnKeepsPace(s, slots, longest);
    case Joined(task, at) => JoinKeepsPace(s, task, at, slots, longest);
  }

  lemma ShortWorkIsKept(s: Load, e: Event, slots: nat, longest: nat)
    requires ShortWork(s.buffered, longest) && Allowed(s, e, slots, longest)
    ensures ShortWork(After(s, e).buffered, longest)
  {
  }

  lemma TickingIsKept(s: Load, e: Event, slots: nat, longest: nat, t: Task)
    requires Ticking(s, t, longest) && ShortWork(s.buffered, longest) && Allowed(s, e, slots, longest)
    requires Accounted(s, t) && |s.starts| == |s.spawned|
    ensures Ticking(After(s, e), t, longest)
  {
  }

  /** The next claim comes after every task that was started before it. */
  lemma ClaimKeepsPlace(s: Load, rows: seq<Work>, slots: nat, longest: nat, t: Task)
    requires Placed(s, t, slots, longest) && Paced(s, slots, longest) && t < |s.starts| == |s.spawned|
    ensures Placed(After(s, Claimed(rows)), t, slots, longest)
  {
    if |s.running| == 0 { assert s.running == {}; }
  }

  /** A task that was started before the event. */
  lemma StartedIsKept(s: Load, e: Event, slots: nat, longest: nat, t: Task)
    requires Placed(s, t, slots, longest) && Paced(s, slots, longest) && Allowed(s, e, slots, longest)
    requires t < |s.starts| == |s.spawned| && s.now <= After(s, e).now && Ticking(After(s, e), t, longest)
    ensures Placed(After(s, e), t, slots, longest)
  {
    match e
    case Claimed(rows) => ClaimKeepsPlace(s, rows, slots, longest, t);
    case ClaimFailed(_) =>
    case Spawned => assert After(s, e).starts[t] == s.starts[t];
    case Joined(_, _) =>
  }

  lemma NewIsPlaced(s: Load, slots: nat, longest: nat)
    requires OnTime(s, slots, longest) && Allowed(s, Spawned, slots, longest)
    requires Ticking(After(s, Spawned), |s.spawned|, longest)
    ensures Placed(After(s, Spawned), |s.spawned|, slots, longest)
  {
    assert Accounted(s, |s.spawned|);
  }

  lemma PlacedIsKept(s: Load, e: Event, slots: nat, longest: nat, t: Task)
    requires OnTime(s, slots, longest) && Allowed(s, e, slots, longest) && s.now <= After(s, e).now
    ensures Placed(After(s, e), t, slots, longest)
  {
    assert Placed(s, t, slots, longest) && Accounted(s, t);
    TickingIsKept(s, e, slots, longest, t);
    if t < |s.starts| {
      StartedIsKept(s, e, slots, longest, t);
    } else if e.Spawned? && t == |s.spawned| {
      NewIsPlaced(s, slots, longest);
    }
  }

  lemma OnTimeIsKept(s: Load, e: Event, slots: nat, longest: nat)
    requires OnTime(s, slots, longest) && Allowed(s, e, slots, longest)
    ensures OnTime(After(s, e), slots, longest)
  {
    BalanceIsKept(s, e, slots, longest);
    PaceIsKept(s, e, slots, longest);
    ShortWorkIsKept(s, e, slots, longest);
    forall t: Task ensures Placed(After(s, e), t, slots, longest) {
      PlacedIsKept(s, e, slots, longest, t);
    }
  }

  /** Within five task times of its claim every row is finished; four are enough when all
      slots were free, which with one slot they always are. */
  ghost predicate Punctual(s: Load, task: Task, slots: nat, longest: nat) {
    task in s.ends && task < |s.starts| ==>
      var claim := s.starts[task].claim;
      s.ends[task] <= claim.at + (if Unhindered(claim, slots) then 4 * longest else 5 * longest)
  }

  lemma NextIsOnTime(s: Load, s': Load, slots: nat, longest: nat)
    requires OnTime(s, slots, longest) && Next(s, s', slots, longest)
    ensures OnTime(s', slots, longest)
  {
    var e :| Allowed(s, e, slots, longest) && s' == After(s, e);
    OnTimeIsKept(s, e, slots, longest);
  }

  lemma {:induction false} RunsOnTime(run: seq<Load>, slots: nat, longest: nat, n: nat)
    requires Execution(run, slots, longest) && n < |run|
    ensures OnTime(run[n], slots, longest)
    decreases n
  {
    if n > 0 {
      RunsOnTime(run, slots, longest, n - 1);
      assert Follows(run, n, slots, longest);
      NextIsOnTime(run[n - 1], run[n], slots, longest);
    }
  }

  /** Whatever a batch comes to, its rows start and end in time. */
  lemma BatchIsPunctual(s: Load, slots: nat, longest: nat, task: Task)
    requires Reachable(s, slots, longest)
    ensures StartedInTime(s, task, slots, longest) && Punctual(s, task, slots, longest)
  {
    var run :| Execution(run, slots, longest) && run[|run| - 1] == s;
    RunsOnTime(run, slots, longest, |run| - 1);
    assert Placed(s, task, slots, longest);
  }
}
