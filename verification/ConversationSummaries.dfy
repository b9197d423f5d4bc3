/** The conversation summaries that triggers maintain beside the messages, against the
    aggregate query that a backfill would compute.

    A stored time is None when `julianday` yields NULL for it. */
module ConversationSummaries {
  import opened Wrappers

  type Id = nat
  type Phone = string

  datatype Status = Received | Sending | Sent | Failed

  /** `unknown` is the outbound phase of that name; `active` says that a delivery of the
      message is pending, in flight or waiting for a retry. */
  datatype Message = Message(
    phone: Phone,
    inbound: bool,
    readAt: Option<int>,
    timestamp: Option<int>,
    created: Option<int>,
    status: Status,
    unknown: bool,
    active: bool)

  datatype Summary = Summary(total: int, unread: int, last: Option<Id>)

  type Messages = map<Id, Message>
  type Summaries = map<Phone, Summary>

  // ---------- The aggregate query ----------

  /** `COALESCE(julianday(timestamp), julianday(created_at))`. */
  function Key(m: Message): Option<int> {
    if m.timestamp.Some? then m.timestamp else m.created
  }

  predicate IsUnread(m: Message) {
    m.inbound && m.readAt.None?
  }

  function Of(messages: Messages, phone: Phone): set<Id> {
    set id | id in messages && messages[id].phone == phone
  }

  function UnreadOf(messages: Messages, phone: Phone): set<Id> {
    set id | id in messages && messages[id].phone == phone && IsUnread(messages[id])
  }

  /** `ORDER BY key DESC, id DESC`, where NULL comes last. */
  predicate Precedes(messages: Messages, i: Id, j: Id)
    requires i in messages && j in messages
  {
    match (Key(messages[i]), Key(messages[j]))
    case (None, None) => i > j
    case (None, Some(_)) => false
    case (Some(_), None) => true
    case (Some(s), Some(t)) => s > t || (s == t && i > j)
  }

  ghost predicate IsLatest(messages: Messages, phone: Phone, id: Id) {
    id in Of(messages, phone) && forall j :: j in Of(messages, phone) && j != id ==> Precedes(messages, id, j)
  }

  /** The summary of one number is the row the aggregate query gives, or there is none. */
  ghost predicate Accurate(messages: Messages, summaries: Summaries, phone: Phone) {
    if Of(messages, phone) == {} then phone !in summaries
    else
      && phone in summaries
      && summaries[phone].total == |Of(messages, phone)|
      && summaries[phone].unread == |UnreadOf(messages, phone)|
      && summaries[phone].last.Some?
      && IsLatest(messages, phone, summaries[phone].last.value)
  }

  ghost predicate ValidDb(messages: Messages, nextId: Id, summaries: Summaries, pins: set<Phone>) {
    && (forall id :: id in messages ==> id < nextId && Key(messages[id]).Some?)
    && (forall phone: Phone :: Accurate(messages, summaries, phone))
    && (forall phone :: phone in pins ==> phone in summaries)
  }

  /** The messages of a number decide its summary. */
  lemma SameConversation(before: Messages, after: Messages, phone: Phone)
    requires forall id :: id in before && before[id].phone == phone ==> id in after && after[id] == before[id]
    requires forall id :: id in after && after[id].phone == phone ==> id in before && after[id] == before[id]
    ensures Of(after, phone) == Of(before, phone) && UnreadOf(after, phone) == UnreadOf(before, phone)
    ensures forall id :: IsLatest(before, phone, id) ==> IsLatest(after, phone, id)
  {
    forall id | IsLatest(before, phone, id) ensures IsLatest(after, phone, id) {
      forall j | j in Of(after, phone) && j != id ensures Precedes(after, id, j) {
        assert Precedes(before, id, j);
      }
    }
  }

  lemma LatestIsUnique(messages: Messages, phone: Phone, i: Id, j: Id)
    requires IsLatest(messages, phone, i) && IsLatest(messages, phone, j)
    ensures i == j
  {
  }

  /** There is only one accurate summary table: what the triggers keep and what a backfill
      would compute from the same messages are equal. */
  lemma SummariesAreDetermined(messages: Messages, kept: Summaries, computed: Summaries)
    requires forall phone: Phone :: Accurate(messages, kept, phone)
    requires forall phone: Phone :: Accurate(messages, computed, phone)
    ensures kept == computed
  {
    forall phone: Phone ensures phone in kept <==> phone in computed
                        ensures phone in kept ==> kept[phone] == computed[phone] {
      assert Accurate(messages, kept, phone) && Accurate(messages, computed, phone);
      if phone in kept {
        LatestIsUnique(messages, phone, kept[phone].last.value, computed[phone].last.value);
      }
    }
  }

  /** What a summary says of its number: how many messages there are, how many inbound ones are
      unread, and which is the newest by its own time, or by its creation if it has none. */
  lemma SummaryMeans(messages: Messages, summaries: Summaries, phone: Phone, id: Id)
    requires Accurate(messages, summaries, phone) && id in messages && messages[id].phone == phone
    ensures phone in summaries && summaries[phone].last.Some?
    ensures summaries[phone].total == |set j | j in messages && messages[j].phone == phone|
    ensures summaries[phone].unread ==
              |set j | j in messages && messages[j].phone == phone && messages[j].inbound && messages[j].readAt.None?|
    ensures var last := summaries[phone].last.value;
      && last in messages && messages[last].phone == phone
      && (last != id ==> NoOlder(messages[last], messages[id], last > id))
  {
    assert id in Of(messages, phone);
    assert UnreadOf(messages, phone)
        == set j | j in messages && messages[j].phone == phone && messages[j].inbound && messages[j].readAt.None?;
    assert Of(messages, phone) == set j | j in messages && messages[j].phone == phone;
  }

  /** One message is newer than another, or of the same time and `later`. */
  predicate NoOlder(m: Message, n: Message, later: bool) {
    match (m.timestamp, m.created, n.timestamp, n.created)
    case (Some(s), _, Some(t), _) => s > t || (s == t && later)
    case (Some(s), _, None, Some(t)) => s > t || (s == t && later)
    case (None, Some(s), Some(t), _) => s > t || (s == t && later)
    case (None, Some(s), None, Some(t)) => s > t || (s == t && later)
    case (None, None, None, None) => later
    case (None, None, _, _) => false
    case (_, _, None, None) => true
  }

  // ---------- The trigger after an insertion ----------

  /** Comparisons with NULL do not hold. */
  predicate Overtakes(messages: Messages, id: Id, last: Option<Id>)
    requires id in messages
  {
    && last.Some? && last.value in messages
    && var (s, t) := (Key(messages[id]), Key(messages[last.value]));
       s.Some? && t.Some? && (s.value > t.value || (s.value == t.value && id > last.value))
  }

  function AfterInsert(messages: Messages, summaries: Summaries, id: Id): Summaries
    requires id in messages
  {
    var m := messages[id];
    var unread := if IsUnread(m) then 1 else 0;
    if m.phone !in summaries then summaries[m.phone := Summary(1, unread, Some(id))]
    else
      var s := summaries[m.phone];
      summaries[m.phone := Summary(s.total + 1, s.unread + unread,
                                   if Overtakes(messages, id, s.last) then Some(id) else s.last)]
  }

  lemma CountsAfterInsert(before: Messages, id: Id, m: Message)
    requires id !in before
    ensures Of(before[id := m], m.phone) == Of(before, m.phone) + {id}
    ensures |Of(before[id := m], m.phone)| == |Of(before, m.phone)| + 1
  {
    assert Of(before[id := m], m.phone) == Of(before, m.phone) + {id};
  }

  lemma UnreadAfterInsert(before: Messages, id: Id, m: Message)
    requires id !in before
    ensures |UnreadOf(before[id := m], m.phone)| == |UnreadOf(before, m.phone)| + (if IsUnread(m) then 1 else 0)
  {
    var after := before[id := m];
    if IsUnread(m) {
      assert UnreadOf(after, m.phone) == UnreadOf(before, m.phone) + {id};
    } else {
      assert UnreadOf(after, m.phone) == UnreadOf(before, m.phone);
    }
  }

  lemma LatestAfterInsert(before: Messages, id: Id, m: Message, last: Id)
    requires IsLatest(before, m.phone, last) && forall j :: j in before ==> j < id
    ensures var after := before[id := m];
      var latest := if Overtakes(after, id, Some(last)) then id else last;
      IsLatest(after, m.phone, latest) == Key(before[last]).Some?
  {
    var after := before[id := m];
    forall j | j in Of(before, m.phone) && j != last ensures Precedes(after, last, j) {
      assert Precedes(before, last, j);
    }
    assert id in Of(after, m.phone) && Of(after, m.phone) == Of(before, m.phone) + {id};
  }

  /** The trigger gives the aggregate's row, except if the latest message of the number so
      far has no readable time at all. */
  lemma InsertTriggerExactly(before: Messages, summaries: Summaries, id: Id, m: Message)
    requires Accurate(before, summaries, m.phone) && forall j :: j in before ==> j < id
    ensures Accurate(before[id := m], AfterInsert(before[id := m], summaries, id), m.phone)
              == (Of(before, m.phone) == {} || Key(before[summaries[m.phone].last.value]).Some?)
  {
    CountsAfterInsert(before, id, m);
    UnreadAfterInsert(before, id, m);
    if Of(before, m.phone) != {} {
      LatestAfterInsert(before, id, m, summaries[m.phone].last.value);
    } else {
      assert UnreadOf(before, m.phone) <= Of(before, m.phone);
    }
  }

  // ---------- The table and its operations ----------

  function ReadSoFar(messages: Messages, ids: set<Id>, now: int): Messages {
    map id | id in messages :: if id in ids then messages[id].(readAt := Some(now)) else messages[id]
  }

  /** An unread inbound message of the number is read now, any other one stays as it is. */
  function ReadNow(m: Message, phone: Phone, now: int): Message {
    if m.phone == phone && m.inbound && m.readAt.None? then m.(readAt := Some(now)) else m
  }

  lemma ReadExactly(messages: Messages, phone: Phone, now: int, id: Id)
    requires id in messages
    ensures var after := ReadSoFar(messages, UnreadOf(messages, phone), now);
      after.Keys == messages.Keys && after[id] == ReadNow(messages[id], phone, now)
  {
  }

  predicate DeleteBlocked(m: Message) {
    m.status == Sending && !m.unknown
  }

  /** Old enough, finished, and without a delivery that still has work to do. */
  predicate Expendable(m: Message, cutoff: int) {
    && Key(m).Some? && Key(m).value < cutoff
    && m.status != Sending
    && !m.active
  }

  function Conversations(messages: Messages): set<Phone> {
    set id | id in messages :: messages[id].phone
  }

  /** A summary that counts no message any more goes. */
  function AfterDelete(summaries: Summaries, m: Message, last: Option<Id>): Summaries
    requires m.phone in summaries
  {
    var s := summaries[m.phone];
    if s.total == 1 then summaries - {m.phone}
    else summaries[m.phone := Summary(s.total - 1, s.unread - (if IsUnread(m) then 1 else 0), last)]
  }

  datatype StoreError = MessageNotFound | MessageDeleteBlocked | ConversationNotFound | ConversationDeleteBlocked

  class MessageTable {
    var messages: Messages
    var nextId: Id
    var summaries: Summaries
    var pins: set<Phone>

    ghost predicate Valid()
      reads this
    {
      ValidDb(messages, nextId, summaries, pins)
    }

    constructor ()
      ensures Valid() && messages == map[] && pins == {}
    {
      messages, nextId, summaries, pins := map[], 0, map[], {};
    }

    /** The time of creation is the program's own and can be read. */
    method InsertMessage(m: Message) returns (id: Id)
      requires Valid() && m.created.Some?
      modifies this
      ensures Valid() && id == old(nextId) && messages == old(messages)[id := m] && pins == old(pins)
    {
      id := nextId;
      messages := messages[id := m];
      nextId := nextId + 1;
      summaries := AfterInsert(messages, summaries, id);
      InsertIsAccurate(old(messages), old(summaries), messages, summaries, id, m);
    }

    /** The latest message of a number, by the query inside the triggers. */
    method LatestOf(phone: Phone) returns (latest: Option<Id>)
      ensures latest.None? <==> Of(messages, phone) == {}
      ensures latest.Some? ==> IsLatest(messages, phone, latest.value)
    {
      var rest := Of(messages, phone);
      latest := None;
      while rest != {}
        invariant rest <= Of(messages, phone)
        invariant latest.None? ==> rest == Of(messages, phone)
        invariant latest.Some? ==> latest.value in Of(messages, phone) - rest
        invariant forall j :: latest.Some? && j in Of(messages, phone) - rest && j != latest.value ==>
                    Precedes(messages, latest.value, j)
        decreases rest
      {
        var id :| id in rest;
        if latest.None? || Precedes(messages, id, latest.value) {
          forall j | j in Of(messages, phone) - rest && j != id ensures Precedes(messages, id, j) {
            assert j != latest.value ==> Precedes(messages, latest.value, j);
          }
          latest := Some(id);
        }
        rest := rest - {id};
      }
    }

    /** `UPDATE messages SET read_at = ?`, with its trigger. */
    method SetReadAt(id: Id, readAt: Option<int>)
      requires Valid() && id in messages
      modifies this`messages, this`summaries
      ensures Valid() && messages == old(messages)[id := old(messages)[id].(readAt := readAt)]
    {
      var was := messages[id];
      var now := was.(readAt := readAt);
      assert Accurate(messages, summaries, was.phone) && id in Of(messages, was.phone);
      messages := messages[id := now];
      if was.readAt != now.readAt && was.phone in summaries {
        var s := summaries[was.phone];
        var unread := s.unread - (if IsUnread(was) then 1 else 0) + (if IsUnread(now) then 1 else 0);
        summaries := summaries[was.phone := s.(unread := unread)];
      }
      ReadIsAccurate(old(messages), old(summaries), messages, summaries, id, readAt);
    }

    /** How many messages were changed is what the summary had counted as unread. */
    method MarkConversationRead(phone: Phone, now: int) returns (count: nat)
      requires Valid()
      modifies this`messages, this`summaries
      ensures Valid()
      ensures messages == ReadSoFar(old(messages), UnreadOf(old(messages), phone), now)
      ensures count == (if phone in old(summaries) then old(summaries)[phone].unread else 0)
    {
      assert Accurate(messages, summaries, phone);
      var todo := UnreadOf(messages, phone);
      count := |todo|;
      ghost var unread := todo;
      while todo != {}
        invariant Valid() && todo <= unread <= old(messages).Keys == messages.Keys
        invariant messages == ReadSoFar(old(messages), unread - todo, now)
        decreases todo
      {
        var id :| id in todo;
        SetReadAt(id, Some(now));
        todo := todo - {id};
      }
      assert Of(old(messages), phone) == {} ==> unread == {};
    }

    /** `DELETE FROM messages WHERE id = ?`, with its trigger. */
    method DeleteRow(id: Id)
      requires Valid() && id in messages
      modifies this`messages, this`summaries, this`pins
      ensures Valid() && messages == old(messages) - {id}
      ensures pins == (if Of(messages, old(messages)[id].phone) == {}
                       then old(pins) - {old(messages)[id].phone} else old(pins))
    {
      var was := messages[id];
      assert Accurate(messages, summaries, was.phone) && id in Of(messages, was.phone);
      messages := messages - {id};
      var last := summaries[was.phone].last;
      if last == Some(id) { last := LatestOf(was.phone); }
      summaries := AfterDelete(summaries, was, last);
      if Of(messages, was.phone) == {} { pins := pins - {was.phone}; }
      DeleteIsAccurate(old(messages), old(summaries), messages, summaries, id, last);
      assert Accurate(messages, summaries, was.phone);
    }

    method DeleteRows(ids: set<Id>)
      requires Valid() && ids <= messages.Keys
      modifies this`messages, this`summaries, this`pins
      ensures Valid() && messages == old(messages) - ids
      ensures pins == set phone | phone in old(pins) && Of(messages, phone) != {}
    {
      var todo := ids;
      PinnedHaveMessages(messages, nextId, summaries, pins);
      while todo != {}
        invariant Valid() && todo <= ids && messages == old(messages) - (ids - todo)
        invariant pins == set phone | phone in old(pins) && Of(messages, phone) != {}
        decreases todo
      {
        var id :| id in todo;
        ghost var before := messages;
        ghost var pinned := pins;
        DeleteRow(id);
        forall phone | phone in pinned && phone != before[id].phone ensures Of(messages, phone) == Of(before, phone) {
        }
        forall phone: Phone ensures Of(messages, phone) <= Of(before, phone) {
        }
        todo := todo - {id};
      }
      assert ids - todo == ids;
    }

    /** Nothing is deleted unless every message is there and may be deleted. */
    method DeleteMessages(ids: seq<Id>) returns (r: Result<(), StoreError>)
      requires Valid()
      modifies this`messages, this`summaries, this`pins
      ensures Valid()
      ensures r.Ok? <==> forall i :: 0 <= i < |ids| ==>
        ids[i] in old(messages) && (old(messages)[ids[i]].status != Sending || old(messages)[ids[i]].unknown)
      ensures r.Ok? ==> messages == old(messages) - (set id | id in ids)
      ensures r.Err? ==> messages == old(messages) && pins == old(pins)
    {
      for i := 0 to |ids|
        invariant messages == old(messages) && Valid() && pins == old(pins)
        invariant forall j :: 0 <= j < i ==> ids[j] in messages && !DeleteBlocked(messages[ids[j]])
      {
        if ids[i] !in messages { return Err(MessageNotFound); }
        if DeleteBlocked(messages[ids[i]]) { return Err(MessageDeleteBlocked); }
      }
      DeleteRows(set id | id in ids);
      r := Ok(());
    }

    method DeleteConversation(phone: Phone) returns (r: Result<set<Id>, StoreError>)
      requires Valid()
      modifies this`messages, this`summaries, this`pins
      ensures Valid()
      ensures r.Ok? <==> Of(old(messages), phone) != {}
                          && forall id :: id in Of(old(messages), phone) ==>
                               old(messages)[id].status != Sending || old(messages)[id].unknown
      ensures r.Ok? ==> r.value == Of(old(messages), phone) && messages == old(messages) - r.value
      ensures r.Ok? ==> phone !in summaries && phone !in pins
      ensures r.Err? ==> messages == old(messages) && pins == old(pins)
    {
      var ids := Of(messages, phone);
      if ids == {} { return Err(ConversationNotFound); }
      var blocked := set id | id in ids && DeleteBlocked(messages[id]);
      if blocked != {} {
        ghost var id :| id in blocked;
        return Err(ConversationDeleteBlocked);
      }
      assert forall id :: id in ids && DeleteBlocked(messages[id]) ==> id in blocked;
      pins := pins - {phone};
      DeleteRows(ids);
      assert Of(messages, phone) == {} && Accurate(messages, summaries, phone);
      r := Ok(ids);
    }

    method SetConversationPinned(phone: Phone, pinned: bool) returns (r: Result<(), StoreError>)
      requires Valid()
      modifies this`pins
      ensures Valid()
      ensures r.Ok? <==> Of(messages, phone) != {}
      ensures pins == (if r.Err? then old(pins) else if pinned then old(pins) + {phone} else old(pins) - {phone})
    {
      assert Accurate(messages, summaries, phone);
      if phone !in summaries { return Err(ConversationNotFound); }
      pins := if pinned then pins + {phone} else pins - {phone};
      r := Ok(());
    }

    /** `SELECT ... LIMIT ?` without an order: any expendable messages, as many as allowed. */
    method PickExpendable(cutoff: int, batchSize: nat) returns (picked: set<Id>)
      ensures picked <= Expendables(messages, cutoff) && |picked| <= batchSize
      ensures |picked| < batchSize ==> picked == Expendables(messages, cutoff)
    {
      var rest := Expendables(messages, cutoff);
      picked := {};
      while |picked| < batchSize && rest != {}
        invariant picked + rest == Expendables(messages, cutoff) && picked !! rest && |picked| <= batchSize
        decreases rest
      {
        var id :| id in rest;
        picked, rest := picked + {id}, rest - {id};
      }
    }

    /** Only expendable messages go, at most one batch of them. */
    method RunRetention(cutoff: int, batchSize: nat) returns (count: nat, ghost gone: set<Id>)
      requires Valid()
      modifies this`messages, this`summaries, this`pins
      ensures Valid() && messages == old(messages) - gone
      ensures gone <= Expendables(old(messages), cutoff) && |gone| == count <= batchSize
      ensures count < batchSize ==> gone == Expendables(old(messages), cutoff)
      ensures forall id :: id in gone ==>
        var m := old(messages)[id]; Key(m).Some? && Key(m).value < cutoff && m.status != Sending && !m.active
      ensures forall id :: id in messages && count < batchSize ==>
        var m := messages[id]; Key(m).Some? && Key(m).value < cutoff ==> m.status == Sending || m.active
      ensures pins == set phone | phone in old(pins) && Of(messages, phone) != {}
    {
      var picked := PickExpendable(cutoff, batchSize);
      DeleteRows(picked);
      count, gone := |picked|, picked;
    }

    /** The aggregate query, for databases written before there were summaries. A row that
        is already there stays, so the table is right afterwards if those rows were. */
    method BackfillSummaries()
      requires forall id :: id in messages ==> id < nextId && Key(messages[id]).Some?
      requires forall phone :: phone in pins ==> Of(messages, phone) != {}
      modifies this`summaries
      ensures forall phone :: phone in old(summaries) ==> phone in summaries && summaries[phone] == old(summaries)[phone]
      ensures forall phone: Phone :: phone !in old(summaries) ==> Accurate(messages, summaries, phone)
      ensures (forall phone :: phone in old(summaries) ==> Accurate(messages, old(summaries), phone)) ==> Valid()
    {
      var rest := Conversations(messages);
      while rest != {}
        invariant rest <= Conversations(messages)
        invariant forall phone: Phone :: phone !in rest && phone !in old(summaries) ==> Accurate(messages, summaries, phone)
        invariant forall phone: Phone :: phone in old(summaries) ==> SameRow(summaries, old(summaries), phone)
        invariant forall phone :: phone in rest && phone !in old(summaries) ==> phone !in summaries
        decreases rest
      {
        var phone :| phone in rest;
        ghost var id :| id in messages && messages[id].phone == phone;
        assert id in Of(messages, phone);
        if phone !in summaries {
          var latest := LatestOf(phone);
          summaries := summaries[phone := Summary(|Of(messages, phone)|, |UnreadOf(messages, phone)|, latest)];
          assert Accurate(messages, summaries, phone);
        }
        rest := rest - {phone};
      }
      if forall phone :: phone in old(summaries) ==> Accurate(messages, old(summaries), phone) {
        forall phone: Phone ensures Accurate(messages, summaries, phone) {
          if phone in old(summaries) { assert SameRow(summaries, old(summaries), phone); }
        }
        forall p | p in pins ensures p in summaries {
          assert Accurate(messages, summaries, p);
        }
      }
    }
  }

  ghost predicate SameRow(now: Summaries, before: Summaries, phone: Phone) {
    phone in now && phone in before && now[phone] == before[phone]
  }

  function Expendables(messages: Messages, cutoff: int): set<Id> {
    set id | id in messages && Expendable(messages[id], cutoff)
  }

  lemma PinnedHaveMessages(messages: Messages, nextId: Id, summaries: Summaries, pins: set<Phone>)
    requires ValidDb(messages, nextId, summaries, pins)
    ensures forall phone :: phone in pins ==> Of(messages, phone) != {}
  {
    forall phone | phone in pins ensures Of(messages, phone) != {} {
      assert Accurate(messages, summaries, phone);
    }
  }

  lemma InsertIsAccurate(before: Messages, was: Summaries, after: Messages, now: Summaries, id: Id, m: Message)
    requires after == before[id := m] && now == AfterInsert(after, was, id)
    requires forall j :: j in before ==> j < id && Key(before[j]).Some?
    requires forall phone: Phone :: Accurate(before, was, phone)
    ensures forall phone: Phone :: Accurate(after, now, phone)
  {
    forall phone: Phone ensures Accurate(after, now, phone) {
      assert Accurate(before, was, phone);
      if phone == m.phone {
        InsertTriggerExactly(before, was, id, m);
      } else {
        SameConversation(before, after, phone);
      }
    }
  }

  lemma CountsAfterRead(before: Messages, id: Id, readAt: Option<int>)
    requires id in before
    ensures var (m, p) := (before[id].(readAt := readAt), before[id].phone);
      && Of(before[id := m], p) == Of(before, p)
      && |UnreadOf(before[id := m], p)|
           == |UnreadOf(before, p)| - (if IsUnread(before[id]) then 1 else 0) + (if IsUnread(m) then 1 else 0)
  {
    var (m, p) := (before[id].(readAt := readAt), before[id].phone);
    var (u, v) := (UnreadOf(before, p), UnreadOf(before[id := m], p));
    assert Of(before[id := m], p) == Of(before, p);
    assert id in u <==> IsUnread(before[id]);
    assert id in v <==> IsUnread(m);
    if IsUnread(m) { assert v == u + {id}; } else { assert v == u - {id}; }
  }

  lemma ReadIsAccurate(before: Messages, was: Summaries, after: Messages, now: Summaries, id: Id, readAt: Option<int>)
    requires id in before && after == before[id := before[id].(readAt := readAt)]
    requires forall phone: Phone :: Accurate(before, was, phone)
    requires before[id].phone in was
    requires var (m, n, s) := (before[id], after[id], was[before[id].phone]);
      now == was[m.phone := s.(unread := s.unread - (if IsUnread(m) then 1 else 0) + (if IsUnread(n) then 1 else 0))]
    ensures forall phone: Phone :: Accurate(after, now, phone)
  {
    var p := before[id].phone;
    forall phone: Phone ensures Accurate(after, now, phone) {
      assert Accurate(before, was, phone);
      if phone == p {
        CountsAfterRead(before, id, readAt);
        var last := was[p].last.value;
        forall j | j in Of(after, p) && j != last ensures Precedes(after, last, j) {
          assert Precedes(before, last, j);
        }
      } else {
        SameConversation(before, after, phone);
      }
    }
  }

  lemma CountsAfterDelete(before: Messages, id: Id)
    requires id in before
    ensures var (after, p) := (before - {id}, before[id].phone);
      && Of(after, p) == Of(before, p) - {id}
      && |Of(after, p)| == |Of(before, p)| - 1
      && |UnreadOf(after, p)| == |UnreadOf(before, p)| - (if IsUnread(before[id]) then 1 else 0)
  {
    var (after, p) := (before - {id}, before[id].phone);
    assert id in Of(before, p) && Of(after, p) == Of(before, p) - {id};
    assert UnreadOf(after, p) == UnreadOf(before, p) - {id};
    assert id in UnreadOf(before, p) <==> IsUnread(before[id]);
  }

  lemma DeleteIsAccurate(before: Messages, was: Summaries, after: Messages, now: Summaries, id: Id, last: Option<Id>)
    requires id in before && after == before - {id}
    requires forall phone: Phone :: Accurate(before, was, phone)
    requires before[id].phone in was
    requires var (p, s) := (before[id].phone, was[before[id].phone]);
      && (if s.last == Some(id) then
            && (last.None? <==> Of(after, p) == {})
            && (last.Some? ==> IsLatest(after, p, last.value))
          else last == s.last)
      && now == AfterDelete(was, before[id], last)
    ensures forall phone: Phone :: Accurate(after, now, phone)
  {
    var p := before[id].phone;
    forall phone: Phone ensures Accurate(after, now, phone) {
      assert Accurate(before, was, phone);
      if phone == p {
        CountsAfterDelete(before, id);
        assert |Of(before, p)| == 1 ==> Of(after, p) == {};
        if last.Some? && was[p].last != Some(id) {
          forall j | j in Of(after, p) && j != last.value ensures Precedes(after, last.value, j) {
            assert Precedes(before, last.value, j);
          }
        }
      } else {
        SameConversation(before, after, phone);
      }
    }
  }
}
