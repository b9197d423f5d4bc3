/** The login failure window and lockout. Times are integers on a monotonic clock. */
module LoginLimiter {
  import opened Wrappers

  type Peer = nat

  const MAX_LOGIN_FAILURES := 5
  const WINDOW := 300_000_000_000

  datatype Failures = Failures(windowStarted: int, count: nat, lockedUntil: Option<int>)

  datatype LoginResult = Authenticated | Rejected | RateLimited

  datatype Attempt = Attempt(at: int, peer: Peer, correct: bool)

  type Table = map<Peer, Failures>

  predicate Retained(f: Failures, now: int) {
    (f.lockedUntil.Some? && f.lockedUntil.value > now) || now - f.windowStarted < WINDOW
  }

  predicate Locked(f: Failures, now: int) {
    f.lockedUntil.Some? && f.lockedUntil.value > now
  }

  /** What one attempt does to its own peer's entry. */
  function Judge(entry: Option<Failures>, now: int, correct: bool): (Option<Failures>, LoginResult) {
    if entry.Some? && Locked(entry.value, now) then (entry, RateLimited)
    else if correct then (None, Authenticated)
    else
      var f := if entry.Some? && Retained(entry.value, now) then entry.value else Failures(now, 0, None);
      var count := f.count + 1;
      (Some(Failures(f.windowStarted, count,
                     if count >= MAX_LOGIN_FAILURES then Some(now + WINDOW) else f.lockedUntil)), Rejected)
  }

  function Lookup(table: Table, peer: Peer): Option<Failures> {
    if peer in table then Some(table[peer]) else None
  }

  function Visible(entry: Option<Failures>, now: int): Option<Failures> {
    if entry.Some? && Retained(entry.value, now) then entry else None
  }

  function Swept(table: Table, now: int): Table {
    map p | p in table && Retained(table[p], now) :: table[p]
  }

  function With(table: Table, peer: Peer, entry: Option<Failures>): Table {
    if entry.Some? then table[peer := entry.value] else table - {peer}
  }

  function Decide(table: Table, a: Attempt): (Table, LoginResult) {
    var swept := Swept(table, a.at);
    var (entry, r) := Judge(Lookup(swept, a.peer), a.at, a.correct);
    (With(swept, a.peer, entry), r)
  }

  class SessionStore {
    var loginFailures: Table

    constructor ()
      ensures loginFailures == map[]
    {
      loginFailures := map[];
    }

    method Authenticate(now: int, peer: Peer, correct: bool) returns (r: LoginResult)
      modifies this
      ensures (loginFailures, r) == Decide(old(loginFailures), Attempt(now, peer, correct))
    {
      loginFailures := map p | p in loginFailures
          && ((loginFailures[p].lockedUntil.Some? && loginFailures[p].lockedUntil.value > now)
              || now - loginFailures[p].windowStarted < WINDOW) :: loginFailures[p];
      assert loginFailures == Swept(old(loginFailures), now);
      if peer in loginFailures && loginFailures[peer].lockedUntil.Some? && loginFailures[peer].lockedUntil.value > now {
        assert loginFailures == With(loginFailures, peer, Lookup(loginFailures, peer));
        return RateLimited;
      }
      if correct {
        loginFailures := With(loginFailures, peer, None);
        return Authenticated;
      }
      if peer !in loginFailures {
        loginFailures := loginFailures[peer := Failures(now, 0, None)];
      }
      var failure := loginFailures[peer];
      // The sweep has already removed every entry whose window is over.
      assert now - failure.windowStarted < WINDOW;
      failure := failure.(count := failure.count + 1);
      if failure.count >= MAX_LOGIN_FAILURES {
        failure := failure.(lockedUntil := Some(now + WINDOW));
      }
      loginFailures := loginFailures[peer := failure];
      assert loginFailures == With(Swept(old(loginFailures), now), peer, Some(failure));
      r := Rejected;
    }
  }

  // ---------- Runs ----------

  ghost predicate Ordered(attempts: seq<Attempt>) {
    forall i, j :: 0 <= i < j < |attempts| ==> attempts[i].at <= attempts[j].at
  }

  function After(attempts: seq<Attempt>): Table {
    if attempts == [] then map[]
    else Decide(After(attempts[..|attempts| - 1]), attempts[|attempts| - 1]).0
  }

  function ResultAt(attempts: seq<Attempt>, k: nat): LoginResult
    requires k < |attempts|
  {
    Decide(After(attempts[..k]), attempts[k]).1
  }

  lemma AfterNext(attempts: seq<Attempt>, k: nat)
    requires k < |attempts|
    ensures After(attempts[..k + 1]) == Decide(After(attempts[..k]), attempts[k]).0
  {
    assert attempts[..k + 1][..k] == attempts[..k];
  }

  /** The rejections of one peer among the attempts `i`, ..., `j - 1`. */
  function Rejections(attempts: seq<Attempt>, peer: Peer, i: nat, j: nat): nat
    requires i <= j <= |attempts|
    decreases j
  {
    if i == j then 0
    else Rejections(attempts, peer, i, j - 1) + Rejection(attempts, peer, j - 1)
  }

  ghost predicate ValidEntry(f: Failures) {
    && 1 <= f.count <= MAX_LOGIN_FAILURES
    && (f.count == MAX_LOGIN_FAILURES <==> f.lockedUntil.Some?)
    && (f.lockedUntil.Some? ==> f.lockedUntil.value >= f.windowStarted + WINDOW)
  }

  ghost predicate EntryInv(entry: Option<Failures>, clock: int) {
    entry.Some? ==> ValidEntry(entry.value) && entry.value.windowStarted <= clock
  }

  lemma OneAttempt(table: Table, a: Attempt, peer: Peer, clock: int)
    requires EntryInv(Lookup(table, peer), clock) && clock <= a.at
    ensures EntryInv(Lookup(Decide(table, a).0, peer), a.at)
    ensures a.peer != peer ==> Lookup(Decide(table, a).0, peer) == Visible(Lookup(table, peer), a.at)
    ensures a.peer == peer ==>
      Lookup(Decide(table, a).0, peer) == Judge(Visible(Lookup(table, peer), a.at), a.at, a.correct).0
      && Decide(table, a).1 == Judge(Visible(Lookup(table, peer), a.at), a.at, a.correct).1
  {
  }

  lemma {:induction false} EntriesAreValid(attempts: seq<Attempt>, peer: Peer, k: nat, clock: int)
    requires Ordered(attempts) && k <= |attempts| && forall i :: 0 <= i < k ==> attempts[i].at <= clock
    ensures EntryInv(Lookup(After(attempts[..k]), peer), clock)
  {
    if k > 0 {
      EntriesAreValid(attempts, peer, k - 1, attempts[k - 1].at);
      AfterNext(attempts, k - 1);
      OneAttempt(After(attempts[..k - 1]), attempts[k - 1], peer, attempts[k - 1].at);
    }
  }

  function EntryAt(attempts: seq<Attempt>, k: nat, peer: Peer): Option<Failures>
    requires k <= |attempts|
  {
    Lookup(After(attempts[..k]), peer)
  }

  /** What attempt `k` does to the entry of one peer. */
  lemma EntrySteps(attempts: seq<Attempt>, k: nat, peer: Peer)
    requires Ordered(attempts) && k < |attempts|
    ensures var (a, entry) := (attempts[k], EntryAt(attempts, k, peer));
      && EntryInv(entry, a.at)
      && EntryInv(EntryAt(attempts, k + 1, peer), a.at)
      && (if a.peer == peer
          then (EntryAt(attempts, k + 1, peer), ResultAt(attempts, k)) == Judge(Visible(entry, a.at), a.at, a.correct)
          else EntryAt(attempts, k + 1, peer) == Visible(entry, a.at))
  {
    var a := attempts[k];
    EntriesAreValid(attempts, peer, k, a.at);
    AfterNext(attempts, k);
    OneAttempt(After(attempts[..k]), a, peer, a.at);
  }

  // ---------- At most eight rejections per window ----------

  /** How many rejections an entry still allows before the deadline. */
  function Budget(entry: Option<Failures>, deadline: int): int {
    match entry
    case None => MAX_LOGIN_FAILURES
    case Some(f) =>
      if f.lockedUntil.Some? then (if f.lockedUntil.value >= deadline then 0 else MAX_LOGIN_FAILURES)
      else if f.windowStarted + WINDOW >= deadline then MAX_LOGIN_FAILURES - f.count
      else 2 * MAX_LOGIN_FAILURES - 1 - f.count
  }

  lemma BudgetIsSpent(entry: Option<Failures>, now: int, correct: bool, deadline: int)
    requires EntryInv(entry, now) && now < deadline <= now + WINDOW
    ensures 0 <= Budget(entry, deadline) <= 2 * MAX_LOGIN_FAILURES - 2
    ensures Budget(Visible(entry, now), deadline) <= Budget(entry, deadline)
    ensures var (next, r) := Judge(Visible(entry, now), now, correct);
      r == Authenticated
      || Budget(next, deadline) <= Budget(entry, deadline) - (if r == Rejected then 1 else 0)
  {
  }

  /** Attempt `k` is made within one window from `start`, and is no success of the peer. */
  ghost predicate Within(attempts: seq<Attempt>, peer: Peer, start: int, k: nat) {
    && k < |attempts|
    && start <= attempts[k].at < start + WINDOW
    && (attempts[k].peer == peer ==> ResultAt(attempts, k) != Authenticated)
  }

  /** The budget before and after attempt `k`. */
  function BudgetAt(attempts: seq<Attempt>, k: nat, peer: Peer, deadline: int): int
    requires k <= |attempts|
  {
    Budget(EntryAt(attempts, k, peer), deadline)
  }

  function Rejection(attempts: seq<Attempt>, peer: Peer, k: nat): nat
    requires k < |attempts|
  {
    if attempts[k].peer == peer && ResultAt(attempts, k) == Rejected then 1 else 0
  }

  lemma BudgetStep(attempts: seq<Attempt>, peer: Peer, start: int, k: nat)
    requires Ordered(attempts) && Within(attempts, peer, start, k)
    ensures BudgetAt(attempts, k + 1, peer, start + WINDOW) + Rejection(attempts, peer, k)
              <= BudgetAt(attempts, k, peer, start + WINDOW)
    ensures 0 <= BudgetAt(attempts, k + 1, peer, start + WINDOW)
    ensures BudgetAt(attempts, k, peer, start + WINDOW) <= 2 * MAX_LOGIN_FAILURES - 2
  {
    var a := attempts[k];
    EntrySteps(attempts, k, peer);
    BudgetIsSpent(EntryAt(attempts, k, peer), a.at, a.correct, start + WINDOW);
    BudgetIsSpent(EntryAt(attempts, k + 1, peer), a.at, true, start + WINDOW);
  }

  ghost predicate SpentBy(attempts: seq<Attempt>, peer: Peer, i: nat, j: nat, deadline: int)
    requires i <= j <= |attempts|
  {
    Rejections(attempts, peer, i, j) + BudgetAt(attempts, j, peer, deadline) <= BudgetAt(attempts, i, peer, deadline)
  }

  lemma {:induction false} RejectionsWithinBudget(attempts: seq<Attempt>, peer: Peer, start: int, i: nat, j: nat)
    requires Ordered(attempts) && i <= j <= |attempts|
    requires forall k :: i <= k < j ==> Within(attempts, peer, start, k)
    ensures i < j ==> SpentBy(attempts, peer, i, j, start + WINDOW)
    decreases j
  {
    if i < j {
      RejectionsWithinBudget(attempts, peer, start, i, j - 1);
      assert Within(attempts, peer, start, j - 1);
      BudgetStep(attempts, peer, start, j - 1);
      if i == j - 1 { assert Rejections(attempts, peer, i, i) == 0; }
    }
  }

  /** Between two of its successes, a peer is rejected at most eight times in any
      half-open interval of one window length. */
  lemma AtMostEightRejections(attempts: seq<Attempt>, peer: Peer, start: int, i: nat, j: nat)
    requires Ordered(attempts) && i <= j <= |attempts|
    requires forall k :: i <= k < j ==> Within(attempts, peer, start, k)
    ensures Rejections(attempts, peer, i, j) <= 8
  {
    if i < j {
      RejectionsWithinBudget(attempts, peer, start, i, j);
      BudgetStep(attempts, peer, start, i);
      BudgetStep(attempts, peer, start, j - 1);
    }
  }

  /** One failure, three more just before its window ends, and five at its end. */
  function Burst(peer: Peer, k: nat): Attempt {
    Attempt(if k == 0 then 0 else if k <= 3 then WINDOW - 1 else WINDOW, peer, false)
  }

  function BurstOf(peer: Peer): seq<Attempt> {
    seq(9, k requires 0 <= k < 9 => Burst(peer, k))
  }

  function BurstTable(peer: Peer, k: nat): Table {
    if k == 0 then map[]
    else if k <= 4 then map[peer := Failures(0, k, None)]
    else map[peer := Failures(WINDOW, k - 4, if k == 9 then Some(2 * WINDOW) else None)]
  }

  lemma BurstStep(peer: Peer, k: nat)
    requires k < 9
    ensures Decide(BurstTable(peer, k), Burst(peer, k)) == (BurstTable(peer, k + 1), Rejected)
  {
    var a, table := Burst(peer, k), BurstTable(peer, k);
    var swept := if k == 4 then map[] else table;
    assert Swept(table, a.at) == swept;
    assert BurstTable(peer, k + 1) == swept[peer := BurstTable(peer, k + 1)[peer]];
  }

  lemma {:induction false} BurstIsRejected(peer: Peer, k: nat)
    requires k <= 9
    ensures After(BurstOf(peer)[..k]) == BurstTable(peer, k)
    ensures k < 9 ==> ResultAt(BurstOf(peer), k) == Rejected
  {
    if k > 0 {
      BurstIsRejected(peer, k - 1);
      AfterNext(BurstOf(peer), k - 1);
      BurstStep(peer, k - 1);
    }
    if k < 9 { BurstStep(peer, k); }
  }

  lemma {:induction false} BurstCount(peer: Peer, k: nat)
    requires 1 <= k <= 9
    ensures Rejections(BurstOf(peer), peer, 1, k) == k - 1
  {
    if k > 1 {
      BurstCount(peer, k - 1);
      BurstIsRejected(peer, k - 1);
    }
  }

  lemma BurstIsOrdered(peer: Peer)
    ensures Ordered(BurstOf(peer)) && |BurstOf(peer)| == 9
  {
  }

  lemma BurstIsWithin(peer: Peer, k: nat)
    requires 1 <= k < 9
    ensures Within(BurstOf(peer), peer, 1, k)
  {
    BurstIsRejected(peer, k);
  }

  /** The bound is reached. */
  lemma EightRejectionsHappen(peer: Peer) returns (attempts: seq<Attempt>)
    ensures Ordered(attempts) && |attempts| == 9
    ensures forall k :: 1 <= k < 9 ==> Within(attempts, peer, 1, k)
    ensures Rejections(attempts, peer, 1, 9) == 8
  {
    attempts := BurstOf(peer);
    BurstIsOrdered(peer);
    forall k | 1 <= k < 9 ensures Within(attempts, peer, 1, k) { BurstIsWithin(peer, k); }
    BurstCount(peer, 9);
  }

  // ---------- Counted rejections ----------

  /** The rejection that opened the peer's current window: attempt `index`, made at `at`. */
  datatype Opening = Opening(index: nat, at: int)

  /** A success closes the window; a rejection opens one if none is open at its time. */
  function OpeningAfter(o: Option<Opening>, a: Attempt, k: nat, peer: Peer, r: LoginResult): Option<Opening> {
    if a.peer != peer || r == RateLimited then o
    else if r == Authenticated then None
    else if o.Some? && a.at - o.value.at < WINDOW then o
    else Some(Opening(k, a.at))
  }

  /** From the results alone, without the stored table. */
  function OpeningAt(attempts: seq<Attempt>, k: nat, peer: Peer): (o: Option<Opening>)
    requires k <= |attempts|
    ensures o.Some? ==> o.value.index < k
    decreases k
  {
    if k == 0 then None
    else OpeningAfter(OpeningAt(attempts, k - 1, peer), attempts[k - 1], k - 1, peer, ResultAt(attempts, k - 1))
  }

  /** The rejections of the peer's current window. */
  function RejectionsInWindow(attempts: seq<Attempt>, k: nat, peer: Peer): nat
    requires k <= |attempts|
  {
    var o := OpeningAt(attempts, k, peer);
    if o.Some? then Rejections(attempts, peer, o.value.index, k) else 0
  }

  /** An entry agrees with the window and its `count` rejections; without an entry the window
      is over. */
  ghost predicate Agrees(entry: Option<Failures>, o: Option<Opening>, count: nat, clock: int) {
    && (entry.Some? ==> o.Some? && entry.value.windowStarted == o.value.at && entry.value.count == count)
    && (entry.None? && o.Some? ==> clock - o.value.at >= WINDOW)
  }

  lemma AgreementIsKept(entry: Option<Failures>, o: Option<Opening>, count: nat, clock: int, a: Attempt, k: nat, peer: Peer)
    requires Agrees(entry, o, count, clock) && clock <= a.at && EntryInv(entry, a.at)
    ensures a.peer != peer ==> Agrees(Visible(entry, a.at), o, count, a.at)
    ensures a.peer == peer ==>
      var (entry', r) := Judge(Visible(entry, a.at), a.at, a.correct);
      var o' := OpeningAfter(o, a, k, peer, r);
      Agrees(entry', o', if o' != o then 1 else if r == Rejected then count + 1 else count, a.at)
  {
  }

  lemma WindowStep(attempts: seq<Attempt>, k: nat, peer: Peer)
    requires k < |attempts|
    ensures var (o, o') := (OpeningAt(attempts, k, peer), OpeningAt(attempts, k + 1, peer));
      && o' == OpeningAfter(o, attempts[k], k, peer, ResultAt(attempts, k))
      && RejectionsInWindow(attempts, k + 1, peer) ==
           (if o'.None? then 0 else if o' != o then 1
            else RejectionsInWindow(attempts, k, peer) + Rejection(attempts, peer, k))
  {
    assert Rejections(attempts, peer, k, k) == 0;
  }

  /** What is stored for a peer is the number of its rejections since its window was opened. */
  lemma {:induction false} CountIsRejections(attempts: seq<Attempt>, k: nat, peer: Peer, clock: int)
    requires Ordered(attempts) && k <= |attempts| && (k > 0 ==> clock == attempts[k - 1].at)
    ensures Agrees(EntryAt(attempts, k, peer), OpeningAt(attempts, k, peer), RejectionsInWindow(attempts, k, peer), clock)
    decreases k
  {
    if k > 0 {
      var a := attempts[k - 1];
      var before := if k > 1 then attempts[k - 2].at else a.at;
      CountIsRejections(attempts, k - 1, peer, before);
      EntrySteps(attempts, k - 1, peer);
      WindowStep(attempts, k - 1, peer);
      AgreementIsKept(EntryAt(attempts, k - 1, peer), OpeningAt(attempts, k - 1, peer),
                      RejectionsInWindow(attempts, k - 1, peer), before, a, k - 1, peer);
    }
  }

  /** Attempt `j` was the fifth rejection of the peer's window. */
  ghost predicate FifthRejection(attempts: seq<Attempt>, peer: Peer, j: nat) {
    && j < |attempts| && attempts[j].peer == peer && ResultAt(attempts, j) == Rejected
    && RejectionsInWindow(attempts, j + 1, peer) == MAX_LOGIN_FAILURES
  }

  // ---------- Lockout ----------

  ghost predicate LockedUntil(attempts: seq<Attempt>, peer: Peer, k: nat, until: int)
    requires k <= |attempts|
  {
    EntryAt(attempts, k, peer).Some? && EntryAt(attempts, k, peer).value.lockedUntil == Some(until)
  }

  /** The fifth rejection locks, and nothing else does. */
  lemma LockStep(attempts: seq<Attempt>, peer: Peer, k: nat, until: int)
    requires Ordered(attempts) && k < |attempts|
    ensures LockedUntil(attempts, peer, k + 1, until) ==>
      LockedUntil(attempts, peer, k, until) || (FifthRejection(attempts, peer, k) && until == attempts[k].at + WINDOW)
    ensures FifthRejection(attempts, peer, k) && until == attempts[k].at + WINDOW ==>
      LockedUntil(attempts, peer, k + 1, until)
  {
    EntrySteps(attempts, k, peer);
    CountIsRejections(attempts, k + 1, peer, attempts[k].at);
  }

  lemma LockStays(attempts: seq<Attempt>, peer: Peer, k: nat, until: int)
    requires Ordered(attempts) && k < |attempts| && LockedUntil(attempts, peer, k, until) && attempts[k].at < until
    ensures LockedUntil(attempts, peer, k + 1, until)
    ensures attempts[k].peer == peer ==> ResultAt(attempts, k) == RateLimited
  {
    EntrySteps(attempts, k, peer);
  }

  /** From the fifth rejection of a window on, for a whole window, every attempt of the peer
      is rate limited, even one with the right password. */
  lemma {:induction false} LockedOut(attempts: seq<Attempt>, peer: Peer, j: nat, k: nat)
    requires Ordered(attempts) && j < k < |attempts| && FifthRejection(attempts, peer, j)
    requires attempts[k].at < attempts[j].at + WINDOW
    ensures LockedUntil(attempts, peer, k + 1, attempts[j].at + WINDOW)
    ensures attempts[k].peer == peer ==> ResultAt(attempts, k) == RateLimited
    decreases k
  {
    var until := attempts[j].at + WINDOW;
    if k == j + 1 { LockStep(attempts, peer, j, until); } else { LockedOut(attempts, peer, j, k - 1); }
    LockStays(attempts, peer, k, until);
  }

  /** A lock stems from a fifth rejection, and lasts one window from it. */
  lemma {:induction false} LockHasCause(attempts: seq<Attempt>, peer: Peer, k: nat, until: int) returns (j: nat)
    requires Ordered(attempts) && k <= |attempts| && LockedUntil(attempts, peer, k, until)
    ensures j < k && FifthRejection(attempts, peer, j) && until == attempts[j].at + WINDOW
    decreases k
  {
    LockStep(attempts, peer, k - 1, until);
    if LockedUntil(attempts, peer, k - 1, until) {
      j := LockHasCause(attempts, peer, k - 1, until);
    } else {
      j := k - 1;
    }
  }

  lemma LimitedByLock(attempts: seq<Attempt>, k: nat) returns (until: int)
    requires Ordered(attempts) && k < |attempts| && ResultAt(attempts, k) == RateLimited
    ensures LockedUntil(attempts, attempts[k].peer, k, until) && attempts[k].at < until
  {
    EntrySteps(attempts, k, attempts[k].peer);
    until := EntryAt(attempts, k, attempts[k].peer).value.lockedUntil.value;
  }

  /** A peer is rate limited exactly within one window from the fifth rejection of a window. */
  lemma RateLimitedExactly(attempts: seq<Attempt>, k: nat)
    requires Ordered(attempts) && k < |attempts|
    ensures ResultAt(attempts, k) == RateLimited <==>
      exists j :: 0 <= j < k && FifthRejection(attempts, attempts[k].peer, j) && attempts[k].at < attempts[j].at + WINDOW
  {
    if ResultAt(attempts, k) == RateLimited {
      var until := LimitedByLock(attempts, k);
      var j := LockHasCause(attempts, attempts[k].peer, k, until);
    }
    forall j | 0 <= j < k && FifthRejection(attempts, attempts[k].peer, j) && attempts[k].at < attempts[j].at + WINDOW
      ensures ResultAt(attempts, k) == RateLimited
    {
      LockedOut(attempts, attempts[k].peer, j, k);
    }
  }

  /** The attempt comes within one window of a fifth rejection of its own peer. */
  ghost predicate LockedAt(attempts: seq<Attempt>, k: nat)
    requires k < |attempts|
  {
    exists j :: 0 <= j < k && FifthRejection(attempts, attempts[k].peer, j) && attempts[k].at < attempts[j].at + WINDOW
  }

  /** Who is let in: the right password logs in and a wrong one is rejected, unless the peer is
      locked out, which nothing overrides. */
  lemma LetInExactly(attempts: seq<Attempt>, k: nat)
    requires Ordered(attempts) && k < |attempts|
    ensures ResultAt(attempts, k) == Authenticated <==> attempts[k].correct && !LockedAt(attempts, k)
    ensures ResultAt(attempts, k) == Rejected <==> !attempts[k].correct && !LockedAt(attempts, k)
    ensures ResultAt(attempts, k) == RateLimited <==> LockedAt(attempts, k)
  {
    RateLimitedExactly(attempts, k);
    EntrySteps(attempts, k, attempts[k].peer);
  }

  /** A success forgets the peer: no entry is kept and its count of rejections starts again. */
  lemma SuccessForgets(attempts: seq<Attempt>, k: nat)
    requires Ordered(attempts) && k < |attempts| && ResultAt(attempts, k) == Authenticated
    ensures attempts[k].peer !in After(attempts[..k + 1])
    ensures RejectionsInWindow(attempts, k + 1, attempts[k].peer) == 0
  {
    EntrySteps(attempts, k, attempts[k].peer);
    WindowStep(attempts, k, attempts[k].peer);
  }

  // ---------- Peers do not affect each other ----------

  function Own(attempts: seq<Attempt>, peer: Peer): seq<Attempt> {
    if attempts == [] then []
    else
      var own := Own(attempts[..|attempts| - 1], peer);
      if attempts[|attempts| - 1].peer == peer then own + [attempts[|attempts| - 1]] else own
  }

  lemma {:induction false} EntryDependsOnOwn(attempts: seq<Attempt>, peer: Peer, now: int)
    requires Ordered(attempts) && forall i :: 0 <= i < |attempts| ==> attempts[i].at <= now
    ensures Visible(Lookup(After(attempts), peer), now) == Visible(Lookup(After(Own(attempts, peer)), peer), now)
    ensures EntryInv(Lookup(After(attempts), peer), now) && EntryInv(Lookup(After(Own(attempts, peer)), peer), now)
    decreases |attempts|
  {
    if attempts != [] {
      var before, a := attempts[..|attempts| - 1], attempts[|attempts| - 1];
      var own := Own(before, peer);
      EntryDependsOnOwn(before, peer, a.at);
      OneAttempt(After(before), a, peer, a.at);
      OneAttempt(After(own), a, peer, a.at);
      EntryDependsOnOwn(before, peer, now);
      assert (own + [a])[..|own|] == own;
    }
  }

  /** What a peer is told depends only on its own attempts. */
  lemma PeersAreIndependent(attempts: seq<Attempt>, a: Attempt)
    requires Ordered(attempts + [a])
    ensures ResultAt(attempts + [a], |attempts|) == ResultAt(Own(attempts, a.peer) + [a], |Own(attempts, a.peer)|)
  {
    var own := Own(attempts, a.peer);
    assert (attempts + [a])[..|attempts|] == attempts && (own + [a])[..|own|] == own;
    forall i | 0 <= i < |attempts| ensures attempts[i].at <= a.at {
      assert (attempts + [a])[i].at <= (attempts + [a])[|attempts|].at;
    }
    assert Ordered(attempts) by {
      forall i, j | 0 <= i < j < |attempts| ensures attempts[i].at <= attempts[j].at {
        assert (attempts + [a])[i].at <= (attempts + [a])[j].at;
      }
    }
    EntryDependsOnOwn(attempts, a.peer, a.at);
    OneAttempt(After(attempts), a, a.peer, a.at);
    OneAttempt(After(own), a, a.peer, a.at);
  }
}
