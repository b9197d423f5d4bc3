/** What the delivery worker decides about one claimed row, the jittered backoff, and
    how often one delivery can be dispatched because of them.

    Times and durations are integers in nanoseconds. */
module RetryPolicy {
  import opened Wrappers
  import opened AttemptSamples
  import opened DeliveryStore

  const RETRY_MAX_DELAY := 3600
  const RETRY_MAX_AGE := 86_400_000_000_000
  const U64_MAX := 0xFFFF_FFFF_FFFF_FFFF

  function Seconds(s: int): int {
    1_000_000_000 * s
  }

  // ---------- The delay before the next attempt ----------

  function SaturatingPow2(e: nat): (r: nat)
    ensures 1 <= r <= U64_MAX
  {
    if e == 0 then 1
    else
      var doubled := 2 * SaturatingPow2(e - 1);
      if doubled > U64_MAX then U64_MAX else doubled
  }

  function Min(a: int, b: int): int {
    if a <= b then a else b
  }

  /** `(attempt - 1).min(10) as u32`. */
  function Exponent(attempt: int): nat {
    var e := Min(attempt - 1, 10);
    if e < 0 then e % 0x1_0000_0000 else e
  }

  function BaseDelay(attempt: int): nat {
    var scaled := 30 * SaturatingPow2(Exponent(attempt));
    Min(if scaled > U64_MAX then U64_MAX else scaled, RETRY_MAX_DELAY)
  }

  /** The remainder of an unsigned division. */
  function Remainder(a: nat, m: nat): (r: nat)
    requires m > 0
    ensures r < m && (a < m ==> r == a)
  {
    if a < m then a else Remainder(a - m, m)
  }

  lemma {:induction false} RemainderIsExact(a: nat, m: nat) returns (q: nat)
    requires m > 0
    ensures a == q * m + Remainder(a, m)
  {
    q := 0;
    if a >= m {
      var less := RemainderIsExact(a - m, m);
      q := less + 1;
      assert q * m == less * m + m;
    }
  }

  function Jittered(delay: nat, sample: nat): int {
    var spread := delay / 4;
    var offset := if spread == 0 then 0 else Remainder(sample, spread * 2 + 1);
    Min(delay - spread + offset, RETRY_MAX_DELAY)
  }

  /** In seconds; `sample` is any 64-bit number drawn for this delivery and attempt. */
  function RetryDelay(attempt: int, sample: nat): int {
    Jittered(BaseDelay(attempt), sample)
  }

  function ShortestDelay(attempt: int): int {
    BaseDelay(attempt) - BaseDelay(attempt) / 4
  }

  lemma BaseDelayTable(attempt: int)
    requires attempt >= 1
    ensures BaseDelay(attempt) ==
      match attempt
      case 1 => 30 case 2 => 60 case 3 => 120 case 4 => 240 case 5 => 480 case 6 => 960 case 7 => 1920
      case _ => 3600
  {
    var e := Exponent(attempt);
    Pow2Table(e);
  }

  lemma Pow2Table(e: nat)
    requires e <= 10
    ensures SaturatingPow2(e) ==
      match e
      case 0 => 1 case 1 => 2 case 2 => 4 case 3 => 8 case 4 => 16 case 5 => 32
      case 6 => 64 case 7 => 128 case 8 => 256 case 9 => 512 case _ => 1024
  {
    if e > 0 { Pow2Table(e - 1); }
  }

  lemma JitterBounds(delay: nat, sample: nat)
    requires 30 <= delay <= RETRY_MAX_DELAY
    ensures delay - delay / 4 <= Jittered(delay, sample) <= Min(delay + delay / 4, RETRY_MAX_DELAY)
    ensures sample <= 2 * (delay / 4) ==>
              Jittered(delay, sample) == Min(delay - delay / 4 + sample, RETRY_MAX_DELAY)
  {
  }

  /** Within a quarter of the base delay, capped at one hour; both ends are reached. */
  lemma RetryDelayBounds(attempt: int, sample: nat)
    requires attempt >= 1
    ensures ShortestDelay(attempt) <= RetryDelay(attempt, sample)
    ensures RetryDelay(attempt, sample) <= Min(BaseDelay(attempt) + BaseDelay(attempt) / 4, RETRY_MAX_DELAY)
    ensures RetryDelay(attempt, 0) == ShortestDelay(attempt)
    ensures RetryDelay(attempt, 2 * (BaseDelay(attempt) / 4)) ==
              Min(BaseDelay(attempt) + BaseDelay(attempt) / 4, RETRY_MAX_DELAY)
    ensures 23 <= RetryDelay(attempt, sample)
  {
    BaseDelayTable(attempt);
    JitterBounds(BaseDelay(attempt), sample);
    JitterBounds(BaseDelay(attempt), 0);
    JitterBounds(BaseDelay(attempt), 2 * (BaseDelay(attempt) / 4));
  }

  lemma JitterIsExact(delay: nat, m: nat, sample: nat) returns (q: nat, offset: nat)
    requires delay >= 4 && m == delay / 4 * 2 + 1
    ensures sample == q * m + offset && offset < m
    ensures Jittered(delay, sample) == Min(delay - delay / 4 + offset, RETRY_MAX_DELAY)
  {
    offset := Remainder(sample, m);
    q := RemainderIsExact(sample, m);
  }

  /** Every sample counts: the delay is the lower end plus what the sample leaves when divided
      by the number of whole seconds in the range. */
  lemma RetryDelayExactly(attempt: int, sample: nat) returns (q: nat, offset: nat)
    requires attempt >= 1
    ensures var spread := BaseDelay(attempt) / 4;
      && offset <= 2 * spread && sample == q * (2 * spread + 1) + offset
      && RetryDelay(attempt, sample) == Min(BaseDelay(attempt) - spread + offset, RETRY_MAX_DELAY)
  {
    BaseDelayTable(attempt);
    q, offset := JitterIsExact(BaseDelay(attempt), 2 * (BaseDelay(attempt) / 4) + 1, sample);
  }

  // ---------- One claimed row ----------

  datatype Outcome = Delivered | Transient | Permanent

  datatype DispatchResult = Attempted(outcome: Outcome) | ProfileMissing

  datatype Lookup = Found | NotFound | LookupFailed

  /** A completion may fail without effect, or report a failure after it was committed. */
  datatype Fault = NoFault | LostBefore | LostAfter

  /** Everything that comes from outside, in the order in which the task meets it. */
  datatype Surroundings = Surroundings(
    checkedAt: int,
    message: Lookup,
    result: DispatchResult,
    completedAt: int,
    decidedAt: int,
    fault: Fault,
    sample: nat)

  datatype StoreError = StoreError

  datatype Attempt = Attempt(completedAt: int, success: bool)

  /** Without a disposition nothing is written. */
  datatype Verdict = Verdict(dispatched: bool, disposition: Option<Disposition>, attempt: Option<Attempt>)

  function ElapsedSince(value: Stamp, now: int): (d: int)
    ensures 0 <= d
  {
    match value
    case At(t) => if now > t then now - t else 0
    case Malformed => RETRY_MAX_AGE + Seconds(1)
  }

  /** What becomes of a row once its provider has answered. */
  function Settled(row: Claimed, w: Surroundings, outcome: Outcome, retryAfter: int): Disposition {
    match outcome
    case Delivered => Success
    case Permanent => PermanentFailure
    case Transient =>
      if ElapsedSince(row.created, w.decidedAt) > RETRY_MAX_AGE then PermanentFailure
      else RetryAt(w.completedAt + retryAfter)
  }

  /** What is to be done with a row, as the worker's rules read. */
  function Judge(row: Claimed, w: Surroundings, retryAfter: int): Verdict {
    if row.next == Some(Malformed) || ElapsedSince(row.created, w.checkedAt) > RETRY_MAX_AGE then
      Verdict(false, Some(PermanentFailure), None)
    else
      match w.message
      case LookupFailed => Verdict(false, None, None)
      case NotFound => Verdict(false, Some(PermanentFailure), None)
      case Found =>
        match w.result
        case ProfileMissing => Verdict(true, Some(PermanentFailure), None)
        case Attempted(outcome) =>
          Verdict(true, Some(Settled(row, w, outcome, retryAfter)),
                  Some(Attempt(w.completedAt, outcome == Delivered)))
  }

  function RetryAfter(row: Claimed, w: Surroundings): int {
    Seconds(RetryDelay(row.handle.attempts + 1, w.sample))
  }

  function RowsAfter(rows: Rows, h: Handle, d: Option<Disposition>, fault: Fault): Rows {
    if d.Some? && fault != LostBefore then Complete(rows, h, d.value) else rows
  }

  /** The attempt, if there is one, is written in the same transaction. */
  function SamplesAfter(samples: set<Sample>, nextId: nat, h: Handle, attempt: Option<Attempt>, fault: Fault)
    : set<Sample>
  {
    if attempt.Some? && fault != LostBefore
    then Record(samples, Sample(nextId, h.profile, h.id, h.attempts + 1, attempt.value.completedAt, attempt.value.success))
    else samples
  }

  lemma AppliedAttempt(rows: Rows, samples: set<Sample>, nextId: nat, h: Handle, d: Disposition, attempt: Attempt, fault: Fault)
    requires fault != LostBefore
    ensures RowsAfter(rows, h, Some(d), fault) == Complete(rows, h, d)
    ensures SamplesAfter(samples, nextId, h, Some(attempt), fault)
         == Record(samples, Sample(nextId, h.profile, h.id, h.attempts + 1, attempt.completedAt, attempt.success))
  {
  }

  // ---------- The rules of the worker, outcome by outcome ----------

  /** Older than a day; a time that cannot be read counts as old. */
  predicate Expired(created: Stamp, now: int) {
    match created case At(t) => now - t > RETRY_MAX_AGE case Malformed => true
  }

  /** The message is looked up: the row's due time can be read, and it is not too old. */
  predicate Asked(row: Claimed, w: Surroundings) {
    row.next != Some(Malformed) && !Expired(row.created, w.checkedAt)
  }

  /** How the row is to end if its completion reaches the store; `delay` is the retry delay. */
  ghost predicate EndsRight(before: Rows, after: Rows, row: Claimed, w: Surroundings, delay: int) {
    var h := row.handle;
    if !Asked(row, w) || w.message.NotFound? || w.result.ProfileMissing? then
      EndsAs(before, after, h, PermanentFailed, None)
    else
      match w.result.outcome
      case Delivered => EndsAs(before, after, h, Succeeded, None)
      case Permanent => EndsAs(before, after, h, PermanentFailed, None)
      case Transient =>
        if Expired(row.created, w.decidedAt) then EndsAs(before, after, h, PermanentFailed, None)
        else EndsAs(before, after, h, RetryWait, Some(At(w.completedAt + Seconds(delay))))
  }

  /** Without a lookup, an answer or the lease nothing is written to the row. */
  ghost predicate RowsRight(before: Rows, after: Rows, row: Claimed, w: Surroundings, delay: int) {
    if w.fault == LostBefore || (Asked(row, w) && w.message.LookupFailed?) || !Holds(before, row.handle)
    then after == before
    else EndsRight(before, after, row, w, delay)
  }

  /** An answer of the provider is recorded, also if the row was lost. */
  ghost predicate SamplesRight(before: set<Sample>, nextId: nat, after: set<Sample>, row: Claimed, w: Surroundings) {
    var h := row.handle;
    if w.fault == LostBefore || !Asked(row, w) || !w.message.Found? || w.result.ProfileMissing? then after == before
    else after == Record(before, Sample(nextId, h.profile, h.id, h.attempts + 1, w.completedAt, w.result.outcome == Delivered))
  }

  lemma SettledIsRight(rows: Rows, row: Claimed, w: Surroundings, retryAfter: int, delay: int)
    requires Asked(row, w) && w.message.Found? && w.result.Attempted? && Holds(rows, row.handle)
    requires retryAfter == Seconds(delay)
    ensures EndsRight(rows, Complete(rows, row.handle, Settled(row, w, w.result.outcome, retryAfter)), row, w, delay)
  {
    CompletedExactly(rows, row.handle, w.completedAt + retryAfter, 0, Success);
  }

  lemma VerdictIsRight(rows: Rows, row: Claimed, w: Surroundings, retryAfter: int, delay: int)
    requires retryAfter == Seconds(delay)
    ensures var v := Judge(row, w, retryAfter);
      && (v.dispatched <==> Asked(row, w) && w.message.Found?)
      && (v.disposition.None? <==> Asked(row, w) && w.message.LookupFailed?)
      && RowsRight(rows, RowsAfter(rows, row.handle, v.disposition, w.fault), row, w, delay)
  {
    CompletedExactly(rows, row.handle, 0, 0, PermanentFailure);
    if Asked(row, w) && w.message.Found? && w.result.Attempted? && Holds(rows, row.handle) {
      SettledIsRight(rows, row, w, retryAfter, delay);
    }
  }

  lemma AttemptIsRight(samples: set<Sample>, nextId: nat, row: Claimed, w: Surroundings, retryAfter: int)
    ensures SamplesRight(samples, nextId, SamplesAfter(samples, nextId, row.handle, Judge(row, w, retryAfter).attempt, w.fault), row, w)
  {
  }

  /** The task fails exactly if the store does; what it writes and whether it calls the provider
      are the verdict. */
  method ProcessDelivery(store: DeliveryTable, row: Claimed, w: Surroundings)
    returns (dispatched: bool, r: Result<(), StoreError>)
    requires store.Valid()
    modifies store`rows, store`samples, store`nextSampleId
    ensures store.Valid()
    ensures var v := Judge(row, w, RetryAfter(row, w));
      && dispatched == v.dispatched
      && (r.Ok? <==> v.disposition.Some? && w.fault == NoFault)
      && store.rows == RowsAfter(old(store.rows), row.handle, v.disposition, w.fault)
      && store.samples == SamplesAfter(old(store.samples), old(store.nextSampleId), row.handle, v.attempt, w.fault)
    ensures dispatched <==> Asked(row, w) && w.message.Found?
    ensures r.Ok? <==> w.fault == NoFault && !(Asked(row, w) && w.message.LookupFailed?)
    ensures RowsRight(old(store.rows), store.rows, row, w, RetryDelay(row.handle.attempts + 1, w.sample))
    ensures SamplesRight(old(store.samples), old(store.nextSampleId), store.samples, row, w)
  {
    VerdictIsRight(store.rows, row, w, RetryAfter(row, w), RetryDelay(row.handle.attempts + 1, w.sample));
    AttemptIsRight(store.samples, store.nextSampleId, row, w, RetryAfter(row, w));
    dispatched := false;
    if row.next == Some(Malformed) {
      r := CompleteWithoutSample(store, row.handle, w.fault);
      return;
    }
    var retryAfter := RetryAfter(row, w);
    if ElapsedSince(row.created, w.checkedAt) > RETRY_MAX_AGE {
      r := CompleteWithoutSample(store, row.handle, w.fault);
      return;
    }
    match w.message {
      case LookupFailed =>
        r := Err(StoreError);
      case NotFound =>
        r := CompleteWithoutSample(store, row.handle, w.fault);
      case Found =>
        dispatched := true;
        r := Dispatched(store, row, w, retryAfter);
    }
  }

  method CompleteWithoutSample(store: DeliveryTable, h: Handle, fault: Fault) returns (r: Result<(), StoreError>)
    requires store.Valid()
    modifies store`rows
    ensures store.Valid() && (r.Ok? <==> fault == NoFault)
    ensures store.rows == RowsAfter(old(store.rows), h, Some(PermanentFailure), fault)
  {
    if fault == LostBefore { return Err(StoreError); }
    var applied := store.CompleteDelivery(h, PermanentFailure);
    r := if fault == NoFault then Ok(()) else Err(StoreError);
  }

  /** The provider has been called. */
  method Dispatched(store: DeliveryTable, row: Claimed, w: Surroundings, retryAfter: int)
    returns (r: Result<(), StoreError>)
    requires store.Valid() && w.message.Found?
    requires row.next != Some(Malformed) && ElapsedSince(row.created, w.checkedAt) <= RETRY_MAX_AGE
    modifies store`rows, store`samples, store`nextSampleId
    ensures store.Valid() && (r.Ok? <==> w.fault == NoFault)
    ensures store.rows == RowsAfter(old(store.rows), row.handle, Judge(row, w, retryAfter).disposition, w.fault)
    ensures store.samples ==
      SamplesAfter(old(store.samples), old(store.nextSampleId), row.handle, Judge(row, w, retryAfter).attempt, w.fault)
  {
    match w.result {
      case ProfileMissing =>
        r := CompleteWithoutSample(store, row.handle, w.fault);
      case Attempted(outcome) =>
        var disposition := Success;
        match outcome {
          case Delivered =>
          case Permanent =>
            disposition := PermanentFailure;
          case Transient =>
            if ElapsedSince(row.created, w.decidedAt) > RETRY_MAX_AGE {
              disposition := PermanentFailure;
            } else {
              disposition := RetryAt(w.completedAt + retryAfter);
            }
        }
        r := CompleteWithAttempt(store, row.handle, disposition, Attempt(w.completedAt, outcome == Delivered), w.fault);
    }
  }

  method CompleteWithAttempt(store: DeliveryTable, h: Handle, d: Disposition, attempt: Attempt, fault: Fault)
    returns (r: Result<(), StoreError>)
    requires store.Valid()
    modifies store`rows, store`samples, store`nextSampleId
    ensures store.Valid() && (r.Ok? <==> fault == NoFault)
    ensures store.rows == RowsAfter(old(store.rows), h, Some(d), fault)
    ensures store.samples == SamplesAfter(old(store.samples), old(store.nextSampleId), h, Some(attempt), fault)
  {
    r := if fault == NoFault then Ok(()) else Err(StoreError);
    if fault != LostBefore {
      ghost var (rows, samples, next) := (store.rows, store.samples, store.nextSampleId);
      var _ := store.CompleteDeliveryWithAttempt(h, d, attempt.completedAt, attempt.success);
      AppliedAttempt(rows, samples, next, h, d, attempt, fault);
    }
  }

  // ---------- The whole life of one delivery ----------

  /** One claim that the worker completes before its lease runs out. */
  datatype Round = Round(claimedAt: int, leaseFor: int, token: Token, w: Surroundings)

  /** A row, how often it was dispatched and the clock. */
  datatype Life = Life(row: Row, dispatches: nat, clock: int)

  /** Clocks do not go back, and the store does not fail. */
  ghost predicate Timely(clock: int, r: Round) {
    && clock <= r.claimedAt <= r.w.checkedAt <= r.w.completedAt <= r.w.decidedAt
    && r.w.fault == NoFault && !r.w.message.LookupFailed?
  }

  function LeasedRow(id: Id, row: Row, r: Round): Rows {
    map[id := Leased(row, r.claimedAt + r.leaseFor, r.token)]
  }

  /** What the worker decides about the row it claims in this round. */
  function Ruling(id: Id, l: Life, r: Round): Verdict {
    var row := ClaimedRow(LeasedRow(id, l.row, r), id, r.token);
    Judge(row, r.w, RetryAfter(row, r.w))
  }

  /** A row that is not due, or has ended, is not claimed. */
  function Live(id: Id, l: Life, r: Round, v: Verdict): Life {
    if !Claimable(l.row, r.claimedAt) then l.(clock := r.w.decidedAt)
    else
      var held := Handle(id, l.row.profile, l.row.attempts, r.token);
      Life(RowsAfter(LeasedRow(id, l.row, r), held, v.disposition, r.w.fault)[id],
           l.dispatches + (if v.dispatched then 1 else 0), r.w.decidedAt)
  }

  ghost predicate Lifetime(id: Id, created: int, lives: seq<Life>, rounds: seq<Round>) {
    && |lives| == |rounds| + 1
    && lives[0].row.state == Pending && lives[0].row.attempts == 0 && lives[0].row.next.None?
    && lives[0].row.created == At(created) && lives[0].dispatches == 0 && created <= lives[0].clock
    && forall i :: 0 <= i < |rounds| ==>
         Timely(lives[i].clock, rounds[i]) && lives[i + 1] == Live(id, lives[i], rounds[i], Ruling(id, lives[i], rounds[i]))
  }

  /** The least time, in seconds, between creation and the dispatch after `n` others. */
  function LeastWait(n: nat): (w: int)
    ensures 0 <= w
  {
    match n
    case 0 => 0 case 1 => 23 case 2 => 68 case 3 => 158 case 4 => 338 case 5 => 698 case 6 => 1418
    case _ => 2858 + 2700 * (n - 7)
  }

  lemma LeastWaitIsTheSum(n: nat)
    ensures LeastWait(0) == 0
    ensures LeastWait(n + 1) == LeastWait(n) + ShortestDelay(n + 1)
  {
    BaseDelayTable(n + 1);
  }

  /** A row that still waits has waited out every delay it was given. */
  ghost predicate WaitInv(created: int, l: Life) {
    && l.row.created == At(created)
    && l.dispatches <= 38
    && (Waiting(l.row) ==>
          && l.row.attempts == l.dispatches
          && l.row.next != Some(Malformed)
          && (l.dispatches > 0 ==>
                && l.row.next.Some?
                && l.row.next.value.time >= created + Seconds(LeastWait(l.dispatches))))
  }

  /** The same for any delay that is at least the shortest one. */
  lemma LiveKeepsFor(id: Id, created: int, l: Life, r: Round, retryAfter: int)
    requires WaitInv(created, l) && Timely(l.clock, r) && created <= l.clock
    requires retryAfter >= Seconds(LeastWait(l.dispatches + 1) - LeastWait(l.dispatches))
    ensures var v := Judge(ClaimedRow(LeasedRow(id, l.row, r), id, r.token), r.w, retryAfter);
      var l' := Live(id, l, r, v);
      WaitInv(created, l') && created <= l'.clock
  {
  }

  lemma LiveKeeps(id: Id, created: int, l: Life, r: Round)
    requires WaitInv(created, l) && Timely(l.clock, r) && created <= l.clock
    ensures var l' := Live(id, l, r, Ruling(id, l, r)); WaitInv(created, l') && created <= l'.clock
  {
    if Claimable(l.row, r.claimedAt) {
      LeastWaitIsTheSum(l.dispatches);
      RetryDelayBounds(l.dispatches + 1, r.w.sample);
      LiveKeepsFor(id, created, l, r, RetryAfter(ClaimedRow(LeasedRow(id, l.row, r), id, r.token), r.w));
    }
  }

  /** No delivery is dispatched more than 38 times, whatever the provider answers. */
  lemma {:induction false} AtMost38Dispatches(id: Id, created: int, lives: seq<Life>, rounds: seq<Round>, n: nat)
    requires Lifetime(id, created, lives, rounds) && n < |lives|
    ensures WaitInv(created, lives[n]) && created <= lives[n].clock
    ensures lives[n].dispatches <= 38
    decreases n
  {
    if n > 0 {
      AtMost38Dispatches(id, created, lives, rounds, n - 1);
      assert lives[n - 1 + 1] == Live(id, lives[n - 1], rounds[n - 1], Ruling(id, lives[n - 1], rounds[n - 1]));
      LiveKeeps(id, created, lives[n - 1], rounds[n - 1]);
    }
  }

  /** The worst case: instant transient failures, each with the shortest delay. */
  function WorstRound(created: int, n: nat): Round {
    var t := created + Seconds(LeastWait(n));
    Round(t, Seconds(90), n, Surroundings(t, Found, Attempted(Transient), t, t, NoFault, 0))
  }

  function WorstLife(created: int, n: nat): Life {
    if n == 0 then Life(Row(0, "", Pending, 0, None, None, None, At(created)), 0, created)
    else Life(Row(0, "", RetryWait, n, Some(At(created + Seconds(LeastWait(n)))), None, None, At(created)),
              n, created + Seconds(LeastWait(n - 1)))
  }

  function WorstRuling(created: int, n: nat): Verdict {
    Verdict(true, Some(RetryAt(created + Seconds(LeastWait(n + 1)))),
            Some(Attempt(created + Seconds(LeastWait(n)), false)))
  }

  lemma JudgeTransient(row: Claimed, w: Surroundings, created: int, retryAfter: int)
    requires row.created == At(created) && row.next != Some(Malformed)
    requires w.message.Found? && w.result == Attempted(Transient)
    requires created <= w.checkedAt <= w.decidedAt <= created + RETRY_MAX_AGE
    ensures Judge(row, w, retryAfter)
              == Verdict(true, Some(RetryAt(w.completedAt + retryAfter)), Some(Attempt(w.completedAt, false)))
  {
  }

  lemma WorstDelay(n: nat)
    ensures LeastWait(n + 1) == LeastWait(n) + RetryDelay(n + 1, 0)
  {
    LeastWaitIsTheSum(n);
    RetryDelayBounds(n + 1, 0);
  }

  lemma WorstRulingFor(id: Id, created: int, n: nat, retryAfter: int)
    requires n < 38 && retryAfter == Seconds(LeastWait(n + 1) - LeastWait(n))
    ensures var l, r := WorstLife(created, n), WorstRound(created, n);
      Judge(ClaimedRow(LeasedRow(id, l.row, r), id, r.token), r.w, retryAfter) == WorstRuling(created, n)
  {
    var l, r := WorstLife(created, n), WorstRound(created, n);
    JudgeTransient(ClaimedRow(LeasedRow(id, l.row, r), id, r.token), r.w, created, retryAfter);
  }

  lemma WorstRulingIsRight(id: Id, created: int, n: nat)
    requires n < 38
    ensures Ruling(id, WorstLife(created, n), WorstRound(created, n)) == WorstRuling(created, n)
  {
    WorstDelay(n);
    WorstRulingFor(id, created, n, Seconds(RetryDelay(n + 1, 0)));
  }

  lemma WorstLifeContinues(id: Id, created: int, n: nat)
    requires n < 38
    ensures Timely(WorstLife(created, n).clock, WorstRound(created, n))
    ensures Live(id, WorstLife(created, n), WorstRound(created, n), WorstRuling(created, n))
              == WorstLife(created, n + 1)
  {
  }

  /** The bound is exact: a delivery can be dispatched 38 times. */
  lemma ThirtyEightDispatchesHappen(id: Id, created: int) returns (lives: seq<Life>, rounds: seq<Round>)
    ensures Lifetime(id, created, lives, rounds) && |lives| == 39 && lives[38].dispatches == 38
  {
    lives := seq(39, i requires 0 <= i < 39 => WorstLife(created, i));
    rounds := seq(38, i requires 0 <= i < 38 => WorstRound(created, i));
    forall i | 0 <= i < |rounds|
      ensures Timely(lives[i].clock, rounds[i])
      ensures lives[i + 1] == Live(id, lives[i], rounds[i], Ruling(id, lives[i], rounds[i]))
    {
      WorstLifeContinues(id, created, i);
      WorstRulingIsRight(id, created, i);
    }
  }
}
