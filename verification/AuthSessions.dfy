/** Login sessions in the database. Times are integers; row ids grow with every insertion. */
module AuthSessions {
  import opened Wrappers

  type Hash = nat
  type Proof = nat
  type RowId = nat

  const MAX_SESSIONS := 256
  const SESSION_SECONDS := 7 * 24 * 3600

  datatype Session = Session(tokenHash: Hash, proof: Proof, expires: int)

  datatype StoreError = DuplicateToken

  type Rows = map<RowId, Session>

  datatype Table = Table(rows: Rows, nextId: RowId)

  function Unexpired(rows: Rows, now: int): Rows {
    map id | id in rows && !(rows[id].expires <= now) :: rows[id]
  }

  function Without(rows: Rows, tokenHash: Hash): Rows {
    map id | id in rows && rows[id].tokenHash != tokenHash :: rows[id]
  }

  /** `ORDER BY expires_at ASC, rowid ASC`. */
  predicate Sooner(rows: Rows, i: RowId, j: RowId)
    requires i in rows && j in rows
  {
    rows[i].expires < rows[j].expires || (rows[i].expires == rows[j].expires && i < j)
  }

  /** `evicted` is what a limit of `count` selects in that order. */
  ghost predicate IsEvicted(rows: Rows, count: int, evicted: set<RowId>) {
    && evicted <= rows.Keys
    && |evicted| == (if count <= 0 then 0 else if count <= |rows| then count else |rows|)
    && (forall i, j :: i in evicted && j in rows.Keys - evicted ==> Sooner(rows, i, j))
  }

  ghost predicate Evicts(rows: Rows, now: int, maxSessions: nat, evicted: set<RowId>) {
    IsEvicted(Unexpired(rows, now), |Unexpired(rows, now)| - maxSessions + 1, evicted)
  }

  predicate HasToken(rows: Rows, tokenHash: Hash) {
    exists id :: id in rows && rows[id].tokenHash == tokenHash
  }

  predicate IsValid(rows: Rows, tokenHash: Hash, proof: Proof, now: int) {
    exists id :: id in rows && rows[id].tokenHash == tokenHash && rows[id].proof == proof && rows[id].expires > now
  }

  function Created(t: Table, session: Session, now: int, evicted: set<RowId>): (Table, Result<RowId, StoreError>) {
    var room := Unexpired(t.rows, now) - evicted;
    if HasToken(room, session.tokenHash) then (t, Err(DuplicateToken))
    else (Table(room[t.nextId := session], t.nextId + 1), Ok(t.nextId))
  }

  class AuthSessionTable {
    var rows: Rows
    var nextId: RowId

    function Contents(): Table
      reads this
    {
      Table(rows, nextId)
    }

    constructor ()
      ensures Contents() == Table(map[], 0)
    {
      rows, nextId := map[], 0;
    }

    method FirstToExpire() returns (first: RowId)
      requires rows != map[]
      ensures first in rows && forall j :: j in rows && j != first ==> Sooner(rows, first, j)
    {
      first :| first in rows;
      var rest := rows.Keys - {first};
      while rest != {}
        invariant rest <= rows.Keys && first in rows && first !in rest
        invariant forall j :: j in rows.Keys - rest && j != first ==> Sooner(rows, first, j)
        decreases rest
      {
        var id :| id in rest;
        if Sooner(rows, id, first) {
          forall j | j in rows.Keys - rest && j != first ensures Sooner(rows, id, j) {
            assert Sooner(rows, first, j);
          }
          first := id;
        }
        rest := rest - {id};
      }
    }

    method EvictSoonest(count: int) returns (ghost evicted: set<RowId>)
      modifies this`rows
      ensures IsEvicted(old(rows), count, evicted) && rows == old(rows) - evicted
    {
      var left := count;
      evicted := {};
      while left > 0 && rows != map[]
        invariant evicted <= old(rows).Keys && rows == old(rows) - evicted
        invariant |evicted| == (if count <= 0 then 0 else count - left) && (count > 0 ==> left >= 0)
        invariant count <= 0 ==> left == count
        invariant forall i, j :: i in evicted && j in old(rows).Keys - evicted ==> Sooner(old(rows), i, j)
        decreases left
      {
        var first := FirstToExpire();
        assert forall j :: j in rows && j != first ==> Sooner(old(rows), first, j);
        rows := rows - {first};
        evicted := evicted + {first};
        left := left - 1;
      }
      assert rows.Keys == old(rows).Keys - evicted;
      assert |old(rows)| == |evicted| + |rows| by { Counted(old(rows), evicted); }
    }

    /** On an error the whole transaction is rolled back. */
    method CreateAuthSession(tokenHash: Hash, proof: Proof, expires: int, now: int, maxSessions: nat)
      returns (r: Result<RowId, StoreError>, ghost evicted: set<RowId>)
      modifies this
      ensures Evicts(old(rows), now, maxSessions, evicted)
      ensures (Contents(), r) == Created(old(Contents()), Session(tokenHash, proof, expires), now, evicted)
    {
      var before := rows;
      rows := map id | id in rows && !(rows[id].expires <= now) :: rows[id];
      evicted := EvictSoonest(|rows| - maxSessions + 1);
      if HasToken(rows, tokenHash) {
        rows := before;
        return Err(DuplicateToken), evicted;
      }
      r := Ok(nextId);
      rows := rows[nextId := Session(tokenHash, proof, expires)];
      nextId := nextId + 1;
    }

    method DeleteAuthSession(tokenHash: Hash)
      modifies this`rows
      ensures rows == Without(old(rows), tokenHash)
    {
      rows := rows - set id | id in rows && rows[id].tokenHash == tokenHash;
    }

    /** When the stored verifier does not match the password, every session goes. */
    method SynchronizeAuthPassword(passwordMatches: bool)
      modifies this`rows
      ensures rows == if passwordMatches then old(rows) else map[]
    {
      if !passwordMatches { rows := map[]; }
    }

    method AuthSessionIsValid(tokenHash: Hash, proof: Proof, now: int) returns (valid: bool)
      ensures valid == IsValid(rows, tokenHash, proof, now)
    {
      var found := set id | id in rows && rows[id].tokenHash == tokenHash && rows[id].proof == proof && rows[id].expires > now;
      valid := found != {};
      if valid {
        var id :| id in found;
      }
      if id: RowId :| id in rows && rows[id].tokenHash == tokenHash && rows[id].proof == proof && rows[id].expires > now {
        assert id in found;
      }
    }
  }

  lemma KeyCount(rows: Rows)
    ensures |rows.Keys| == |rows|
  {
  }

  lemma Counted(rows: Rows, evicted: set<RowId>)
    requires evicted <= rows.Keys
    ensures |rows| == |evicted| + |rows - evicted|
  {
    var room := rows - evicted;
    assert room.Keys == rows.Keys - evicted;
    KeyCount(rows);
    KeyCount(room);
  }

  // ---------- Runs ----------

  /** `at` is when the expiry is computed, `now` what the transaction is told. */
  datatype Event =
    | Create(tokenHash: Hash, proof: Proof, at: int, now: int, evicted: set<RowId>)
    | LogOut(tokenHash: Hash)
    | ChangePassword

  function NewSession(e: Event): Session
    requires e.Create?
  {
    Session(e.tokenHash, e.proof, e.at + SESSION_SECONDS)
  }

  ghost predicate Allowed(t: Table, e: Event) {
    e.Create? ==> Evicts(t.rows, e.now, MAX_SESSIONS, e.evicted)
  }

  function Apply(t: Table, e: Event): Table {
    match e
    case Create(_, _, _, now, evicted) => Created(t, NewSession(e), now, evicted).0
    case LogOut(tokenHash) => t.(rows := Without(t.rows, tokenHash))
    case ChangePassword => t.(rows := map[])
  }

  ghost predicate Follows(run: seq<Table>, events: seq<Event>, i: int)
    requires |run| == |events| + 1
  {
    0 <= i < |events| && Allowed(run[i], events[i]) && run[i + 1] == Apply(run[i], events[i])
  }

  ghost predicate Execution(run: seq<Table>, events: seq<Event>) {
    && |run| == |events| + 1
    && run[0] == Table(map[], 0)
    && forall i :: 0 <= i < |events| ==> Follows(run, events, i)
  }

  ghost predicate Numbered(t: Table) {
    && |t.rows| <= MAX_SESSIONS
    && forall id :: id in t.rows ==> id < t.nextId
  }

  lemma RoomIsMade(t: Table, now: int, evicted: set<RowId>)
    requires Evicts(t.rows, now, MAX_SESSIONS, evicted)
    ensures |Unexpired(t.rows, now) - evicted| < MAX_SESSIONS
  {
    Counted(Unexpired(t.rows, now), evicted);
  }

  lemma Subtable(small: Rows, big: Rows)
    requires small.Keys <= big.Keys
    ensures |small| <= |big|
  {
    assert big.Keys == small.Keys + (big.Keys - small.Keys);
    assert |small.Keys| == |small| && |big.Keys| == |big|;
  }

  lemma StepIsNumbered(t: Table, e: Event)
    requires Numbered(t) && Allowed(t, e)
    ensures Numbered(Apply(t, e))
  {
    match e
    case Create(_, _, _, now, evicted) =>
      RoomIsMade(t, now, evicted);
      var room := Unexpired(t.rows, now) - evicted;
      assert room[t.nextId := NewSession(e)].Keys == room.Keys + {t.nextId};
      assert |room.Keys| == |room|;
      assert |room[t.nextId := NewSession(e)].Keys| == |room[t.nextId := NewSession(e)]|;
    case LogOut(h) => Subtable(Without(t.rows, h), t.rows);
    case ChangePassword =>
  }

  /** The table never holds more than 256 sessions, whatever the clock does. */
  lemma {:induction false} AtMost256Sessions(run: seq<Table>, events: seq<Event>, n: nat)
    requires Execution(run, events) && n < |run|
    ensures Numbered(run[n])
    ensures |run[n].rows| <= 256
    decreases n
  {
    if n > 0 {
      AtMost256Sessions(run, events, n - 1);
      assert Follows(run, events, n - 1);
      StepIsNumbered(run[n - 1], events[n - 1]);
    }
  }

  // ---------- Survival ----------

  /** The sessions that are evicted only after this one. */
  function Behind(rows: Rows, id: RowId): set<RowId>
    requires id in rows
  {
    set j | j in rows && j != id && Sooner(rows, id, j)
  }

  lemma Fewer(small: set<RowId>, big: set<RowId>)
    requires small <= big
    ensures |small| <= |big|
  {
    assert big == small + (big - small);
  }

  lemma EvictedAreSoonest(live: Rows, count: int, evicted: set<RowId>, id: RowId)
    requires IsEvicted(live, count, evicted) && id in live
    ensures id in evicted ==> live.Keys - evicted <= Behind(live, id)
    ensures id !in evicted ==> Behind(live, id) <= live.Keys - evicted - {id}
  {
    forall j | id !in evicted && j in Behind(live, id) ensures j !in evicted {
      assert j in evicted ==> Sooner(live, j, id);
    }
    forall j | id in evicted && j in live.Keys - evicted ensures j in Behind(live, id) {
      assert Sooner(live, id, j);
    }
  }

  lemma LeftOver(live: Rows, evicted: set<RowId>)
    requires evicted <= live.Keys
    ensures |live.Keys - evicted| == |live| - |evicted|
  {
    KeyCount(live);
    assert live.Keys == evicted + (live.Keys - evicted);
  }

  /** An unexpired session is evicted exactly if 255 unexpired ones come after it in the order
      of expiry and row. */
  lemma EvictedExactly(rows: Rows, now: int, evicted: set<RowId>, id: RowId)
    requires Evicts(rows, now, MAX_SESSIONS, evicted) && id in Unexpired(rows, now)
    ensures id in evicted <==> |Behind(Unexpired(rows, now), id)| >= MAX_SESSIONS - 1
  {
    var live := Unexpired(rows, now);
    EvictedAreSoonest(live, |live| - MAX_SESSIONS + 1, evicted, id);
    LeftOver(live, evicted);
    if id in evicted {
      Fewer(live.Keys - evicted, Behind(live, id));
    } else {
      assert |live.Keys - evicted - {id}| == |live.Keys - evicted| - 1;
      Fewer(Behind(live, id), live.Keys - evicted - {id});
    }
  }

  /** Session `x` is in row `id`, and at most `behind` sessions in the table come after it. */
  ghost predicate Held(t: Table, x: Session, id: RowId, behind: nat) {
    id in t.rows && t.rows[id] == x && |Behind(t.rows, id)| <= behind
  }

  ghost predicate Harmless(e: Event, x: Session) {
    match e
    case Create(_, _, _, now, _) => now < x.expires
    case LogOut(h) => h != x.tokenHash
    case ChangePassword => false
  }

  /** A later creation whose session does not expire before `x`. */
  predicate Outlasts(e: Event, x: Session) {
    e.Create? && NewSession(e).expires >= x.expires
  }

  lemma CreateHolds(t: Table, e: Event, x: Session, id: RowId, behind: nat)
    requires Numbered(t) && e.Create? && Allowed(t, e) && Harmless(e, x)
    requires Held(t, x, id, behind) && behind < MAX_SESSIONS - 1
    ensures Held(Apply(t, e), x, id, if Outlasts(e, x) then behind + 1 else behind)
  {
    var live, t' := Unexpired(t.rows, e.now), Apply(t, e);
    EvictedExactly(t.rows, e.now, e.evicted, id);
    Fewer(Behind(live, id), Behind(t.rows, id));
    Fewer(Behind(t'.rows, id), if Outlasts(e, x) then Behind(t.rows, id) + {t.nextId} else Behind(t.rows, id));
  }

  lemma StepHolds(t: Table, e: Event, x: Session, id: RowId, behind: nat)
    requires Numbered(t) && Allowed(t, e) && Harmless(e, x)
    requires Held(t, x, id, behind) && (e.Create? ==> behind < MAX_SESSIONS - 1)
    ensures Held(Apply(t, e), x, id, if Outlasts(e, x) then behind + 1 else behind)
  {
    if e.Create? {
      CreateHolds(t, e, x, id, behind);
    } else {
      Fewer(Behind(Apply(t, e).rows, id), Behind(t.rows, id));
    }
  }

  /** How many of the sessions created by the events `i`, ..., `n - 1` do not expire before `x`. */
  function LaterSessions(events: seq<Event>, x: Session, i: nat, n: nat): nat
    requires i <= n <= |events|
    decreases n
  {
    if i == n then 0 else LaterSessions(events, x, i, n - 1) + (if Outlasts(events[n - 1], x) then 1 else 0)
  }

  /** Before the creation `j`, fewer than 255 sessions stood behind the one created at `i`. */
  ghost predicate RoomAt(run: seq<Table>, events: seq<Event>, i: nat, j: nat)
    requires i < j < |events| && |run| == |events| + 1 && events[i].Create? && run[i].nextId in run[i + 1].rows
  {
    events[j].Create? ==>
      |Behind(run[i + 1].rows, run[i].nextId)| + LaterSessions(events, NewSession(events[i]), i + 1, j) < MAX_SESSIONS - 1
  }

  /** Whatever the clocks do, a session stays in the table until it is logged out, expires, the
      password changes, or a login finds 255 sessions that expire after it. */
  lemma {:induction false} SessionOutlivesOthers(run: seq<Table>, events: seq<Event>, i: nat, n: nat)
    requires Execution(run, events) && i < n < |run|
    requires events[i].Create? && run[i].nextId in run[i + 1].rows
    requires forall j :: i < j < n ==> Harmless(events[j], NewSession(events[i])) && RoomAt(run, events, i, j)
    ensures Held(run[n], NewSession(events[i]), run[i].nextId,
                 |Behind(run[i + 1].rows, run[i].nextId)| + LaterSessions(events, NewSession(events[i]), i + 1, n))
    decreases n
  {
    var x, id := NewSession(events[i]), run[i].nextId;
    assert Follows(run, events, n - 1);
    AtMost256Sessions(run, events, n - 1);
    if n > i + 1 {
      SessionOutlivesOthers(run, events, i, n - 1);
      assert RoomAt(run, events, i, n - 1);
      StepHolds(run[n - 1], events[n - 1], x, id,
                |Behind(run[i + 1].rows, id)| + LaterSessions(events, x, i + 1, n - 1));
    }
  }

  // ---------- When no logins cross ----------

  ghost predicate Clocked(events: seq<Event>) {
    forall i, j :: 0 <= i < j < |events| && events[i].Create? && events[j].Create? ==> events[i].at <= events[j].at
  }

  ghost predicate ExpireBy(rows: Rows, limit: int) {
    forall id :: id in rows ==> rows[id].expires <= limit
  }

  ghost predicate CreatedBy(events: seq<Event>, n: nat, at: int) {
    forall i :: 0 <= i < n <= |events| && events[i].Create? ==> events[i].at <= at
  }

  lemma {:induction false} TablesExpireBy(run: seq<Table>, events: seq<Event>, n: nat, at: int)
    requires Execution(run, events) && n < |run| && CreatedBy(events, n, at)
    ensures ExpireBy(run[n].rows, at + SESSION_SECONDS)
    decreases n
  {
    if n > 0 {
      TablesExpireBy(run, events, n - 1, at);
      assert Follows(run, events, n - 1);
    }
  }

  function Creations(events: seq<Event>, i: nat, n: nat): nat
    requires i <= n <= |events|
    decreases n
  {
    if i == n then 0 else Creations(events, i, n - 1) + (if events[n - 1].Create? then 1 else 0)
  }

  lemma {:induction false} FewerOutlast(events: seq<Event>, x: Session, i: nat, j: nat, n: nat)
    requires i <= j <= n <= |events|
    ensures LaterSessions(events, x, i, j) <= Creations(events, i, j) <= Creations(events, i, n)
    decreases n
  {
    if j < n {
      FewerOutlast(events, x, i, j, n - 1);
    } else if i < j {
      FewerOutlast(events, x, i, j - 1, n - 1);
    }
  }

  lemma NewestComesLast(run: seq<Table>, events: seq<Event>, i: nat)
    requires Execution(run, events) && Clocked(events) && i < |events|
    requires events[i].Create? && run[i].nextId in run[i + 1].rows
    ensures Behind(run[i + 1].rows, run[i].nextId) == {}
    ensures run[i + 1].rows[run[i].nextId] == NewSession(events[i])
  {
    AtMost256Sessions(run, events, i);
    assert CreatedBy(events, i, events[i].at);
    TablesExpireBy(run, events, i, events[i].at);
    assert Follows(run, events, i);
  }

  /** If creations reach the table in the order of their clock readings, that takes 256 later
      sessions. */
  lemma SessionSurvives(run: seq<Table>, events: seq<Event>, i: nat, n: nat)
    requires Execution(run, events) && Clocked(events) && i < n < |run|
    requires events[i].Create? && run[i].nextId in run[i + 1].rows
    requires forall j :: i < j < n ==> Harmless(events[j], NewSession(events[i]))
    requires Creations(events, i + 1, n) < 256
    ensures Held(run[n], NewSession(events[i]), run[i].nextId, Creations(events, i + 1, n))
  {
    var x := NewSession(events[i]);
    NewestComesLast(run, events, i);
    forall j | i < j < n ensures RoomAt(run, events, i, j) {
      FewerOutlast(events, x, i + 1, j, j);
      FewerOutlast(events, x, i + 1, j + 1, n);
    }
    SessionOutlivesOthers(run, events, i, n);
    FewerOutlast(events, x, i + 1, n, n);
  }

  lemma HeldIsValid(t: Table, x: Session, id: RowId, behind: nat, now: int)
    requires Held(t, x, id, behind) && now < x.expires
    ensures IsValid(t.rows, x.tokenHash, x.proof, now)
  {
  }

  // ---------- One session per token ----------

  ghost predicate OneEach(t: Table) {
    forall i, j :: i in t.rows && j in t.rows && t.rows[i].tokenHash == t.rows[j].tokenHash ==> i == j
  }

  lemma StepKeepsOneEach(t: Table, e: Event)
    requires OneEach(t)
    ensures OneEach(Apply(t, e))
    ensures e.Create? && Created(t, NewSession(e), e.now, e.evicted).1.Err? ==> Apply(t, e) == t
  {
  }

  /** No two sessions share a token: a login whose token is taken changes nothing at all. */
  lemma {:induction false} TokensAreUnique(run: seq<Table>, events: seq<Event>, n: nat)
    requires Execution(run, events) && n < |run|
    ensures OneEach(run[n])
    decreases n
  {
    if n > 0 {
      TokensAreUnique(run, events, n - 1);
      assert Follows(run, events, n - 1);
      StepKeepsOneEach(run[n - 1], events[n - 1]);
    }
  }

  // ---------- Who is logged in ----------

  /** The session of the creation `i` is in row `id`, and its token was not logged out and the
      password not changed since. */
  ghost predicate LoggedInAt(run: seq<Table>, events: seq<Event>, i: nat, n: nat, id: RowId) {
    && i < n < |run| == |events| + 1 && events[i].Create? && run[i].nextId == id
    && id in run[n].rows && run[n].rows[id] == NewSession(events[i])
    && forall j :: i < j < n ==> events[j] != LogOut(events[i].tokenHash) && events[j] != ChangePassword
  }

  lemma RowSteps(t: Table, e: Event, id: RowId)
    requires Numbered(t) && id in Apply(t, e).rows
    ensures id in t.rows ==>
      Apply(t, e).rows[id] == t.rows[id] && e != LogOut(t.rows[id].tokenHash) && e != ChangePassword
    ensures id !in t.rows ==> e.Create? && id == t.nextId && Apply(t, e).rows[id] == NewSession(e)
  {
  }

  /** Every session in the table goes back to one login. */
  lemma {:induction false} RowWasCreated(run: seq<Table>, events: seq<Event>, n: nat, id: RowId) returns (i: nat)
    requires Execution(run, events) && n < |run| && id in run[n].rows
    ensures LoggedInAt(run, events, i, n, id)
    decreases n
  {
    AtMost256Sessions(run, events, n - 1);
    assert Follows(run, events, n - 1);
    RowSteps(run[n - 1], events[n - 1], id);
    if id in run[n - 1].rows {
      i := RowWasCreated(run, events, n - 1, id);
    } else {
      i := n - 1;
    }
  }

  /** A token with its proof is accepted only if a login has created it, less than seven days
      before, and it was not logged out and the password not changed since. */
  lemma AcceptedWasLoggedIn(run: seq<Table>, events: seq<Event>, n: nat, tokenHash: Hash, proof: Proof, now: int)
    returns (i: nat)
    requires Execution(run, events) && n < |run| && IsValid(run[n].rows, tokenHash, proof, now)
    ensures i < n && events[i].Create? && events[i].tokenHash == tokenHash && events[i].proof == proof
    ensures now < events[i].at + SESSION_SECONDS
    ensures forall j :: i < j < n ==> events[j] != LogOut(tokenHash) && events[j] != ChangePassword
  {
    var id :| id in run[n].rows && run[n].rows[id].tokenHash == tokenHash && run[n].rows[id].proof == proof
              && run[n].rows[id].expires > now;
    i := RowWasCreated(run, events, n, id);
  }

  /** A login removes the sessions that have expired, and of the others only those that are evicted. */
  lemma LoginSweeps(t: Table, e: Event, id: RowId)
    requires Numbered(t) && e.Create? && t.nextId in Apply(t, e).rows && id in t.rows
    ensures id in Apply(t, e).rows <==> t.rows[id].expires > e.now && id !in e.evicted
  {
  }

  /** A login is accepted at once and until its seven days are over; a logout ends its own session
      only, and a change of the password ends all. */
  lemma EventsTakeEffect(t: Table, e: Event, tokenHash: Hash, proof: Proof, now: int)
    requires Numbered(t)
    ensures e.Create? && t.nextId in Apply(t, e).rows && now < e.at + SESSION_SECONDS ==>
              IsValid(Apply(t, e).rows, e.tokenHash, e.proof, now)
    ensures e.LogOut? ==>
      (IsValid(Apply(t, e).rows, tokenHash, proof, now) <==> tokenHash != e.tokenHash && IsValid(t.rows, tokenHash, proof, now))
    ensures e.ChangePassword? ==> !IsValid(Apply(t, e).rows, tokenHash, proof, now)
  {
    if e.Create? && t.nextId in Apply(t, e).rows { assert Apply(t, e).rows[t.nextId] == NewSession(e); }
    if e.LogOut? && tokenHash != e.tokenHash && IsValid(t.rows, tokenHash, proof, now) {
      var id :| id in t.rows && t.rows[id].tokenHash == tokenHash && t.rows[id].proof == proof && t.rows[id].expires > now;
      assert Apply(t, e).rows[id] == t.rows[id];
    }
  }
}
