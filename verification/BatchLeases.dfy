/** How long a claim's leases must last for its rows to be finished under them. */
module BatchLeases {
  import opened Wrappers
  import opened DeliveryBatch

  /** Seconds; `channelTimeout` is the configured request timeout. */
  function LeaseFor(channelTimeout: nat): int {
    LEASE_SECS + WAVES * channelTimeout
  }

  /** The task was over before another claim could recover its row. */
  ghost predicate EndsUnderLease(s: Load, task: Task, lease: int) {
    task in s.ends && task < |s.starts| ==> s.ends[task] < s.starts[task].claim.at + lease
  }

  /** Whatever a batch comes to. */
  ghost predicate LeasesSuffice(slots: nat, longest: nat, lease: int) {
    forall s: Load, task: Task :: Reachable(s, slots, longest) ==> EndsUnderLease(s, task, lease)
  }

  /** The task times that a batch can take from a claim to the end of its last row. */
  function WorstTaskTimes(slots: nat): nat {
    if slots == 1 then 4 else 5
  }

  // ---------- The slowest batch ----------

  /** The set is { `a`, ..., `b - 1` }. */
  ghost predicate IsRange(tasks: set<Task>, a: nat, b: nat) {
    forall t: Task :: t in tasks <==> a <= t < b
  }

  lemma {:induction false} RangeSize(tasks: set<Task>, a: nat, b: nat)
    requires a <= b && IsRange(tasks, a, b)
    ensures |tasks| == b - a
    decreases b - a
  {
    if a < b {
      RangeSize(tasks - {a}, a + 1, b);
    } else {
      assert tasks == {};
    }
  }

  /** All slots are taken at time 0 and one of them is free again at once. From then on the
      task that follows `slots` others starts when the first of them is over. */
  function StartOf(i: nat, slots: nat, longest: nat): int
    requires slots > 0
  {
    if i <= slots then 0 else StartOf(i - slots, slots, longest) + longest
  }

  lemma {:induction false} LaterTasksStartLater(i: nat, j: nat, slots: nat, longest: nat)
    requires slots > 0 && i <= j
    ensures 0 <= StartOf(i, slots, longest) <= StartOf(j, slots, longest)
    decreases j
  {
    if j > slots {
      LaterTasksStartLater(if i > slots then i - slots else 0, j - slots, slots, longest);
    }
  }

  /** Task 0 takes no time, every other one all it may; each starts when it should. */
  ghost predicate OnSchedule(s: Load, i: nat, slots: nat, longest: nat)
    requires slots > 0
  {
    i < |s.starts| && i < |s.spawned| ==>
      && s.starts[i].at == StartOf(i, slots, longest)
      && s.starts[i].claim.at == 0
      && s.spawned[i] == RowOf(i, longest)
  }

  function RowOf(i: nat, longest: nat): Work {
    Work(i, if i == 0 then 0 else longest, None)
  }

  /** The rows of the tasks `a`, ..., `b - 1`. */
  function RowsOf(a: nat, b: nat, longest: nat): (rows: seq<Work>)
    requires a <= b
    ensures AreRows(rows, a, b, longest)
  {
    seq(b - a, i requires 0 <= i < b - a => RowOf(a + i, longest))
  }

  ghost predicate AreRows(rows: seq<Work>, a: nat, b: nat, longest: nat)
    requires a <= b
  {
    |rows| == b - a && forall j :: 0 <= j < |rows| ==> rows[j] == RowOf(a + j, longest)
  }

  /** At `now` the tasks `first`, ..., `next - 1` run, and the rows of the tasks up to `end`
      are buffered. */
  ghost predicate Rolling(s: Load, now: int, first: nat, next: nat, end: nat, slots: nat, longest: nat)
    requires slots > 0 && first <= next <= end
  {
    && s.now == now && IsRange(s.running, first, next)
    && |s.starts| == |s.spawned| == next && AreRows(s.buffered, next, end, longest)
    && (forall i: nat :: OnSchedule(s, i, slots, longest))
    && s.error == None
  }

  lemma SpawnRolls(s: Load, now: int, first: nat, next: nat, next': nat, end: nat, slots: nat, longest: nat)
    requires slots > 0 && first <= next < end && next' == next + 1
    requires Rolling(s, now, first, next, end, slots, longest)
    requires next - first < slots && now == StartOf(next, slots, longest) && s.claim.at == 0
    ensures Allowed(s, Spawned, slots, longest)
    ensures Rolling(After(s, Spawned), now, first, next', end, slots, longest)
    ensures After(s, Spawned).owed == s.owed && After(s, Spawned).claim == s.claim
  {
    RangeSize(s.running, first, next);
    var s' := After(s, Spawned);
    assert AreRows(s'.buffered, next', end, longest);
    SpawnKeepsSchedule(s, now, slots, longest);
  }

  lemma SpawnKeepsSchedule(s: Load, now: int, slots: nat, longest: nat)
    requires slots > 0 && s.buffered != [] && |s.starts| == |s.spawned| && s.claim.at == 0
    requires forall i: nat :: OnSchedule(s, i, slots, longest)
    requires s.now == StartOf(|s.spawned|, slots, longest) && s.buffered[0] == RowOf(|s.spawned|, longest)
    ensures forall i: nat :: OnSchedule(After(s, Spawned), i, slots, longest)
  {
    forall i: nat ensures OnSchedule(After(s, Spawned), i, slots, longest) {
      assert OnSchedule(s, i, slots, longest);
    }
  }

  lemma JoinRolls(s: Load, now: int, at: int, first: nat, first': nat, next: nat, end: nat, slots: nat, longest: nat)
    requires slots > 0 && first < next <= end && first' == first + 1
    requires Rolling(s, now, first, next, end, slots, longest)
    requires !s.owed && (next - first == slots || next == end)
    requires at == StartOf(first, slots, longest) + (if first == 0 then 0 else longest)
    ensures Allowed(s, Joined(first, at), slots, longest)
    ensures Rolling(After(s, Joined(first, at)), at, first', next, end, slots, longest)
    ensures After(s, Joined(first, at)).owed == (next == end) && After(s, Joined(first, at)).claim == s.claim
  {
    RangeSize(s.running, first, next);
    var s' := After(s, Joined(first, at));
    assert OnSchedule(s, first, slots, longest) && at == FinishOf(s, first);
    forall t | t in s.running ensures at <= FinishOf(s, t) {
      assert OnSchedule(s, t, slots, longest);
      LaterTasksStartLater(first, t, slots, longest);
    }
    forall i: nat ensures OnSchedule(s', i, slots, longest) {
      assert OnSchedule(s, i, slots, longest);
    }
  }

  lemma ClaimRolls(s: Load, rows: seq<Work>, now: int, first: nat, next: nat, end: nat, slots: nat, longest: nat)
    requires slots > 0 && first <= next <= end && Rolling(s, now, first, next, next, slots, longest)
    requires end - next <= 4 * slots && (s.owed || first == next) && AreRows(rows, next, end, longest)
    ensures Allowed(s, Claimed(rows), slots, longest)
    ensures Rolling(After(s, Claimed(rows)), now, first, next, end, slots, longest)
    ensures !After(s, Claimed(rows)).owed && After(s, Claimed(rows)).claim.at == now
  {
    var s' := After(s, Claimed(rows));
    assert s.buffered == [] && s'.buffered == rows;
    assert first == next ==> s.running == {};
    forall i: nat ensures OnSchedule(s', i, slots, longest) {
      assert OnSchedule(s, i, slots, longest);
    }
  }

  lemma Do(s: Load, e: Event, slots: nat, longest: nat) returns (next: Load)
    requires Reachable(s, slots, longest) && Allowed(s, e, slots, longest)
    ensures next == After(s, e) && Reachable(next, slots, longest)
  {
    next := After(s, e);
    ReachMore(s, e, slots, longest);
  }

  lemma FirstClaim(slots: nat, longest: nat) returns (s: Load)
    requires slots > 0
    ensures Reachable(s, slots, longest) && Rolling(s, 0, 0, 0, slots, slots, longest) && !s.owed && s.claim.at == 0
  {
    s := Idle(0);
    IdleIsReachable(0, slots, longest);
    assert Rolling(s, 0, 0, 0, 0, slots, longest);
    var rows := RowsOf(0, slots, longest);
    ClaimRolls(s, rows, 0, 0, 0, slots, slots, longest);
    s := Do(s, Claimed(rows), slots, longest);
  }

  /** The slots are filled at time 0. */
  lemma {:induction false} Fill(k: nat, slots: nat, longest: nat) returns (s: Load)
    requires k <= slots && slots > 0
    ensures Reachable(s, slots, longest) && Rolling(s, 0, 0, k, slots, slots, longest) && !s.owed && s.claim.at == 0
    decreases k
  {
    if k == 0 {
      s := FirstClaim(slots, longest);
    } else {
      s := Fill(k - 1, slots, longest);
      SpawnRolls(s, 0, 0, k - 1, k, slots, slots, longest);
      s := Do(s, Spawned, slots, longest);
    }
  }

  /** The first task is over at once, the largest possible claim is made, and its first row
      is started. */
  lemma LateClaim(next: nat, end: nat, slots: nat, longest: nat) returns (s: Load)
    requires slots > 0 && next == slots + 1 && end == 5 * slots
    ensures Reachable(s, slots, longest) && !s.owed && s.claim.at == 0
    ensures Rolling(s, 0, 1, next, end, slots, longest)
  {
    s := Fill(slots, slots, longest);
    JoinRolls(s, 0, 0, 0, 1, slots, slots, slots, longest);
    s := Do(s, Joined(0, 0), slots, longest);
    var rows := RowsOf(slots, end, longest);
    ClaimRolls(s, rows, 0, 1, slots, end, slots, longest);
    s := Do(s, Claimed(rows), slots, longest);
    SpawnRolls(s, 0, 1, slots, next, end, slots, longest);
    s := Do(s, Spawned, slots, longest);
  }

  /** The first running task ends and the next row starts. */
  lemma RollOn(s: Load, now: int, first: nat, next: nat, end: nat, slots: nat, longest: nat)
    returns (s': Load, at: int)
    requires slots > 0 && 1 < first && next == first + slots <= end && !s.owed
    requires Rolling(s, now, first - 1, next - 1, end, slots, longest)
    requires Reachable(s, slots, longest) && s.claim.at == 0
    ensures Reachable(s', slots, longest) && !s'.owed && s'.claim.at == 0
    ensures Rolling(s', at, first, next, end, slots, longest)
    ensures at == StartOf(next - 1, slots, longest)
  {
    at := StartOf(next - 1, slots, longest);
    JoinRolls(s, now, at, first - 1, first, next - 1, end, slots, longest);
    s' := Do(s, Joined(first - 1, at), slots, longest);
    SpawnRolls(s', at, first, next - 1, next, end, slots, longest);
    s' := Do(s', Spawned, slots, longest);
  }

  /** Task by task, until the tasks `first`, ..., `next - 1` run. */
  lemma {:induction false} Roll(first: nat, next: nat, end: nat, slots: nat, longest: nat) returns (s: Load, now: int)
    requires slots > 0 && 0 < first && next == first + slots <= end && end == 5 * slots
    ensures now == StartOf(next - 1, slots, longest) && Reachable(s, slots, longest)
    ensures !s.owed && s.claim.at == 0 && Rolling(s, now, first, next, end, slots, longest)
    decreases first
  {
    if first == 1 {
      s := LateClaim(next, end, slots, longest);
      now := 0;
    } else {
      s, now := Roll(first - 1, next - 1, end, slots, longest);
      s, now := RollOn(s, now, first, next, end, slots, longest);
    }
  }

  lemma StartsOfTheLastRows(i: nat, task: nat, slots: nat, longest: nat)
    requires i < slots && task == 4 * slots + i
    ensures StartOf(task, slots, longest) == (if i == 0 then 3 * longest else 4 * longest)
  {
    assert StartOf(slots + i, slots, longest) == (if i == 0 then 0 else longest);
    assert StartOf(2 * slots + i, slots, longest) == (if i == 0 then longest else 2 * longest);
    assert StartOf(3 * slots + i, slots, longest) == (if i == 0 then 2 * longest else 3 * longest);
  }

  /** A row has ended at that time, and was claimed at 0. */
  ghost predicate Ended(s: Load, task: Task, at: int) {
    task in s.ends && task < |s.starts| && s.starts[task].claim.at == 0 && s.ends[task] == at
  }

  /** With one slot, the last of the four rows of a claim ends after four task times. */
  lemma FourTaskTimesHappen(longest: nat) returns (s: Load)
    ensures Reachable(s, 1, longest) && Ended(s, 4, 4 * longest)
  {
    var now;
    s, now := Roll(4, 5, 5, 1, longest);
    StartsOfTheLastRows(0, 4, 1, longest);
    JoinRolls(s, now, 4 * longest, 4, 5, 5, 5, 1, longest);
    assert OnSchedule(s, 4, 1, longest);
    s := Do(s, Joined(4, 4 * longest), 1, longest);
  }

  /** The last rows of the claim end together. */
  lemma LastRowsEnd(s: Load, first: nat, end: nat, slots: nat, longest: nat)
    requires slots >= 2 && first == 4 * slots && end == 5 * slots
    requires !s.owed && Rolling(s, 4 * longest, first + 1, end, end, slots, longest)
    ensures Allowed(s, Joined(end - 1, 5 * longest), slots, longest)
    ensures Ended(After(s, Joined(end - 1, 5 * longest)), end - 1, 5 * longest)
  {
    assert s.buffered == [];
    forall t | t in s.running ensures FinishOf(s, t) == 5 * longest {
      assert OnSchedule(s, t, slots, longest);
      StartsOfTheLastRows(t - 4 * slots, t, slots, longest);
    }
    assert end - 1 in s.running && OnSchedule(s, end - 1, slots, longest);
  }

  /** From the moment when all rows of the claim have started. */
  lemma WindDown(s: Load, first: nat, end: nat, slots: nat, longest: nat) returns (s': Load)
    requires slots >= 2 && first == 4 * slots && end == 5 * slots
    requires StartOf(first, slots, longest) == 3 * longest
    requires !s.owed && Rolling(s, 4 * longest, first, end, end, slots, longest) && Reachable(s, slots, longest)
    ensures Reachable(s', slots, longest) && Ended(s', end - 1, 5 * longest)
  {
    JoinRolls(s, 4 * longest, 4 * longest, first, first + 1, end, end, slots, longest);
    s' := Do(s, Joined(first, 4 * longest), slots, longest);
    ClaimRolls(s', [], 4 * longest, first + 1, end, end, slots, longest);
    s' := Do(s', Claimed([]), slots, longest);
    LastRowsEnd(s', first, end, slots, longest);
    s' := Do(s', Joined(end - 1, 5 * longest), slots, longest);
  }

  /** With more slots, a claim made while all but one are taken, and only tasks that use all
      their time, the last row of the claim ends after five task times. */
  lemma FiveTaskTimesHappen(first: nat, end: nat, slots: nat, longest: nat) returns (s: Load)
    requires slots >= 2 && first == 4 * slots && end == 5 * slots
    ensures Reachable(s, slots, longest) && Ended(s, end - 1, 5 * longest)
  {
    var now;
    s, now := Roll(first, end, end, slots, longest);
    StartsOfTheLastRows(0, first, slots, longest);
    StartsOfTheLastRows(slots - 1, end - 1, slots, longest);
    s := WindDown(s, first, end, slots, longest);
  }

  /** The bounds are reached, for any number of slots. */
  lemma WorstCaseHappens(slots: nat, taskTimes: nat, longest: nat) returns (s: Load, last: Task)
    requires slots > 0 && taskTimes == WorstTaskTimes(slots)
    ensures Reachable(s, slots, longest) && Ended(s, last, taskTimes * longest)
  {
    if slots == 1 {
      s := FourTaskTimesHappen(longest);
      last := 4;
    } else {
      s := FiveTaskTimesHappen(4 * slots, 5 * slots, slots, longest);
      last := 5 * slots - 1;
    }
  }

  /** Leases suffice exactly if the worst case is over before they are: four task times with
      one slot, five with more. */
  lemma LeasesSufficeExactly(slots: nat, longest: nat, channelTimeout: nat)
    requires slots > 0
    ensures LeasesSuffice(slots, longest, LeaseFor(channelTimeout)) <==>
              (if slots == 1 then 4 else 5) * longest < 90 + 4 * channelTimeout
  {
    var lease := LeaseFor(channelTimeout);
    if WorstTaskTimes(slots) * longest < lease {
      forall s: Load, task: Task | Reachable(s, slots, longest) ensures EndsUnderLease(s, task, lease) {
        BatchIsPunctual(s, slots, longest, task);
      }
    }
    var s, last := WorstCaseHappens(slots, WorstTaskTimes(slots), longest);
    if LeasesSuffice(slots, longest, lease) { assert EndsUnderLease(s, last, lease); }
  }
}
