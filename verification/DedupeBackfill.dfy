/** The dedupe keys of inbound messages: the backfill loop and the insertion that refuses a
    key that is already held.

    A key stands for a hash of the namespace, the time, the number and the body; keys of
    different contents are taken to be different. */
module DedupeBackfill {
  import opened Wrappers

  type Id = nat

  datatype Content = Content(timestamp: string, phone: string, body: string)

  datatype DedupeKey = DedupeKey(namespace: string, content: Content)

  /** `modemInbound` says that the direction is inbound and the source is the modem. */
  datatype Message = Message(content: Content, modemInbound: bool, key: Option<DedupeKey>)

  type Messages = map<Id, Message>

  predicate HeldKey(messages: Messages, key: DedupeKey) {
    exists id :: id in messages && messages[id].key == Some(key)
  }

  /** The unique index over keys that are not NULL. */
  ghost predicate UniqueKeys(messages: Messages) {
    forall i, j :: i in messages && j in messages && messages[i].key.Some? && messages[i].key == messages[j].key ==> i == j
  }

  function KeyOf(namespace: string, m: Message): DedupeKey {
    DedupeKey(namespace, m.content)
  }

  predicate Unkeyed(m: Message) {
    m.modemInbound && m.key.None?
  }

  /** No message holds the key of row `id`, and no lower row could take it. */
  ghost predicate TakesKey(messages: Messages, namespace: string, id: Id)
    requires id in messages
  {
    && Unkeyed(messages[id])
    && !HeldKey(messages, KeyOf(namespace, messages[id]))
    && forall j :: j in messages && j < id && Unkeyed(messages[j]) ==> messages[j].content != messages[id].content
  }

  ghost predicate RowAfter(before: Messages, after: Messages, namespace: string, id: Id)
    requires id in before
  {
    && id in after
    && after[id] == (if TakesKey(before, namespace, id)
                     then before[id].(key := Some(KeyOf(namespace, before[id]))) else before[id])
  }

  /** Every absent key goes to the lowest row it belongs to, and nothing else changes. */
  ghost predicate IsBackfilled(before: Messages, after: Messages, namespace: string) {
    after.Keys == before.Keys && forall id :: id in before ==> RowAfter(before, after, namespace, id)
  }

  /** The rows below `id` are done, the others are as they were. */
  ghost predicate HalfDone(before: Messages, now: Messages, namespace: string, id: Id) {
    && now.Keys == before.Keys
    && (forall j :: j in before && j < id ==> RowAfter(before, now, namespace, j))
    && (forall j :: j in before && j >= id ==> now[j] == before[j])
  }

  ghost function Taking(messages: Messages, namespace: string): set<Id> {
    set id | id in messages && TakesKey(messages, namespace, id)
  }

  ghost function TakingBelow(messages: Messages, namespace: string, id: Id): set<Id> {
    set j | j in Taking(messages, namespace) && j < id
  }

  lemma OneMore(messages: Messages, namespace: string, id: Id)
    ensures |TakingBelow(messages, namespace, id + 1)|
              == |TakingBelow(messages, namespace, id)| + (if id in Taking(messages, namespace) then 1 else 0)
  {
    var below := TakingBelow(messages, namespace, id);
    if id in Taking(messages, namespace) {
      assert TakingBelow(messages, namespace, id + 1) == below + {id};
    } else {
      assert TakingBelow(messages, namespace, id + 1) == below;
    }
  }

  lemma AllDone(before: Messages, now: Messages, namespace: string, id: Id)
    requires HalfDone(before, now, namespace, id) && forall j :: j in before ==> j < id
    ensures IsBackfilled(before, now, namespace) && TakingBelow(before, namespace, id) == Taking(before, namespace)
  {
  }

  datatype InsertResult = Duplicate(id: Id) | Inserted(id: Id)

  class MessageTable {
    var messages: Messages
    var nextId: Id
    var deliveries: set<(Id, string)>

    ghost predicate Valid()
      reads this
    {
      UniqueKeys(messages) && forall id :: id in messages ==> id < nextId
    }

    constructor ()
      ensures Valid() && messages == map[] && deliveries == {}
    {
      messages, nextId, deliveries := map[], 0, {};
    }

    method Exists(key: DedupeKey) returns (r: bool)
      ensures r == HeldKey(messages, key)
    {
      var holders := set id | id in messages && messages[id].key == Some(key);
      r := holders != {};
      if r { ghost var id :| id in holders; }
      if id: Id :| id in messages && messages[id].key == Some(key) { assert id in holders; }
    }

    method BackfillDedupeKeys(namespace: Option<string>) returns (count: nat)
      requires Valid()
      modifies this`messages
      ensures Valid()
      ensures namespace.None? ==> messages == old(messages) && count == 0
      ensures namespace.Some? ==> IsBackfilled(old(messages), messages, namespace.value)
      ensures namespace.Some? ==> count == |Taking(old(messages), namespace.value)|
    {
      if namespace.None? { return 0; }
      var ns := namespace.value;
      ghost var before := messages;
      var unkeyed := set id | id in messages && Unkeyed(messages[id]);
      count := 0;
      for id := 0 to nextId
        invariant HalfDone(before, messages, ns, id) && nextId == old(nextId)
        invariant unkeyed == set j | j in before && Unkeyed(before[j])
        invariant count == |TakingBelow(before, ns, id)|
      {
        if id in unkeyed {
          var keyed := KeyRow(before, ns, id);
          if keyed { count := count + 1; }
        }
        OneMore(before, ns, id);
      }
      AllDone(before, messages, ns, nextId);
      KeysStayUnique(before, messages, ns);
    }

    /** One turn of the loop. */
    method KeyRow(ghost before: Messages, namespace: string, id: Id) returns (keyed: bool)
      requires id in before && Unkeyed(before[id]) && HalfDone(before, messages, namespace, id)
      modifies this`messages
      ensures keyed == TakesKey(before, namespace, id)
      ensures HalfDone(before, messages, namespace, id + 1)
    {
      var key := KeyOf(namespace, messages[id]);
      var held := Exists(key);
      HeldSoFar(before, messages, namespace, id);
      if !held { messages := messages[id := messages[id].(key := Some(key))]; }
      keyed := !held;
    }

    method InsertInboundMessageWithDeliveries(m: Message, profiles: seq<string>) returns (r: InsertResult)
      requires Valid()
      modifies this
      ensures Valid()
      ensures r.Duplicate? <==> m.key.Some? && HeldKey(old(messages), m.key.value)
      ensures r.Duplicate? ==>
        && r.id in old(messages) && old(messages)[r.id].key == m.key
        && messages == old(messages) && deliveries == old(deliveries)
      ensures r.Inserted? ==>
        && r.id !in old(messages) && messages == old(messages)[r.id := m]
        && deliveries == old(deliveries) + set p | p in profiles :: (r.id, p)
    {
      if m.key.Some? {
        var holders := set id | id in messages && messages[id].key == m.key;
        if id: Id :| id in messages && messages[id].key == m.key { assert id in holders; }
        if holders != {} {
          var id :| id in holders;
          return Duplicate(id);
        }
      }
      r := Inserted(nextId);
      messages := messages[nextId := m];
      for i := 0 to |profiles|
        invariant messages == old(messages)[r.id := m] && nextId == old(nextId)
        invariant deliveries == old(deliveries) + set p | p in profiles[..i] :: (r.id, p)
      {
        assert profiles[..i + 1] == profiles[..i] + [profiles[i]];
        deliveries := deliveries + {(r.id, profiles[i])};
      }
      assert profiles[..|profiles|] == profiles;
      nextId := nextId + 1;
    }
  }

  /** In the middle of the loop, a key is held exactly if this row may not take it. */
  lemma HeldSoFar(before: Messages, now: Messages, namespace: string, id: Id)
    requires id in before && Unkeyed(before[id]) && HalfDone(before, now, namespace, id)
    ensures HeldKey(now, KeyOf(namespace, before[id])) <==> !TakesKey(before, namespace, id)
  {
    var key := KeyOf(namespace, before[id]);
    if HeldKey(now, key) {
      var j :| j in now && now[j].key == Some(key);
      assert j < id ==> RowAfter(before, now, namespace, j);
    }
    if !TakesKey(before, namespace, id) {
      if HeldKey(before, key) {
        var j :| j in before && before[j].key == Some(key);
        assert now[j].key == Some(key);
      } else {
        var j := LowestUnkeyed(before, namespace, id);
        assert TakesKey(before, namespace, j);
        assert now[j].key == Some(key);
      }
    }
  }

  /** The lowest row below `id` that has the same content and no key. */
  lemma {:induction false} LowestUnkeyed(messages: Messages, namespace: string, id: Id) returns (low: Id)
    requires id in messages && Unkeyed(messages[id])
    ensures low in messages && low <= id && Unkeyed(messages[low]) && messages[low].content == messages[id].content
    ensures forall j :: j in messages && j < low && Unkeyed(messages[j]) ==> messages[j].content != messages[low].content
    decreases id
  {
    if j :| j in messages && j < id && Unkeyed(messages[j]) && messages[j].content == messages[id].content {
      low := LowestUnkeyed(messages, namespace, j);
    } else {
      low := id;
    }
  }

  /** A message is left without a key only if another one holds it. */
  lemma UnkeyedAreDuplicates(before: Messages, after: Messages, namespace: string, id: Id)
    requires IsBackfilled(before, after, namespace) && id in after && after[id].modemInbound && after[id].key.None?
    ensures exists j :: j in after && j != id && after[j].key == Some(DedupeKey(namespace, after[id].content))
  {
    assert RowAfter(before, after, namespace, id);
    var key := KeyOf(namespace, before[id]);
    if j :| j in before && before[j].key == Some(key) {
      assert RowAfter(before, after, namespace, j);
    } else {
      var low := LowestUnkeyed(before, namespace, id);
      assert RowAfter(before, after, namespace, low) && TakesKey(before, namespace, low);
    }
  }

  /** What is given is the key of the namespace and the content, and only to a modem message
      without one. */
  lemma GivenKeysAreRight(before: Messages, after: Messages, namespace: string, id: Id)
    requires IsBackfilled(before, after, namespace) && id in before
    ensures id in after
    ensures after[id] != before[id] ==>
      && before[id].modemInbound && before[id].key.None?
      && after[id] == before[id].(key := Some(DedupeKey(namespace, before[id].content)))
  {
    assert RowAfter(before, after, namespace, id);
  }

  lemma KeysStayUnique(before: Messages, after: Messages, namespace: string)
    requires UniqueKeys(before) && IsBackfilled(before, after, namespace)
    ensures UniqueKeys(after)
  {
    forall i, j | i in after && j in after && after[i].key.Some? && after[i].key == after[j].key ensures i == j {
      assert RowAfter(before, after, namespace, i) && RowAfter(before, after, namespace, j);
    }
  }

  /** Under the same namespace a second backfill finds nothing to do. */
  lemma BackfillIsIdempotent(before: Messages, after: Messages, again: Messages, namespace: string)
    requires IsBackfilled(before, after, namespace) && IsBackfilled(after, again, namespace)
    ensures again == after && Taking(after, namespace) == {}
  {
    forall id | id in after ensures !TakesKey(after, namespace, id) {
      if Unkeyed(after[id]) { UnkeyedAreDuplicates(before, after, namespace, id); }
    }
    forall id | id in after ensures again[id] == after[id] {
      assert RowAfter(after, again, namespace, id);
    }
  }
}
