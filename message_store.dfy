/**
 * The message store: the only reader and writer of message records. Records are kept by
 * id; the ids are handed out in creation order, so the store's contents in creation order
 * are the records with ids 0, 1, 2, ...
 */
module MessageStore {
  import opened Wrappers
  import opened Tags
  import opened Messages

  /** The records with ids 0 to n - 1, in that order. */
  function Ordered(ms: map<MessageId, Message>, n: nat): (r: seq<Message>)
    requires forall id :: 0 <= id < n ==> id in ms
    ensures |r| == n
    ensures forall id :: 0 <= id < n ==> r[id] == ms[id]
  {
    if n == 0 then [] else Ordered(ms, n - 1) + [ms[n - 1]]
  }

  /** Storing a record under the next id appends it to the listing. */
  lemma OrderedExtend(ms: map<MessageId, Message>, n: nat, m: Message)
    requires forall id :: 0 <= id < n ==> id in ms
    ensures Ordered(ms[n := m], n + 1) == Ordered(ms, n) + [m]
  {
    var before, after := Ordered(ms, n), Ordered(ms[n := m], n + 1);
    assert forall id :: 0 <= id < n ==> after[id] == before[id];
  }

  /** Replacing the record under an id in use changes the listing at that position only. */
  lemma OrderedReplace(ms: map<MessageId, Message>, n: nat, id: MessageId, m: Message)
    requires forall i :: 0 <= i < n ==> i in ms
    requires id < n
    ensures Ordered(ms[id := m], n) == Ordered(ms, n)[id := m]
  {
    var before, after := Ordered(ms, n), Ordered(ms[id := m], n);
    assert forall i :: 0 <= i < n ==> after[i] == before[id := m][i];
  }

  /** The ids in use are exactly 0 to n - 1, each record knows its id and is well formed. */
  ghost predicate Indexed(ms: map<MessageId, Message>, n: nat)
  {
    && (forall id: MessageId :: id in ms <==> id < n)
    && (forall id :: id in ms ==> ms[id].id == id && WellFormed(ms[id]))
  }

  /** Storing a well-formed record under the next id keeps the store indexed. */
  lemma IndexedExtend(ms: map<MessageId, Message>, n: nat, m: Message)
    requires Indexed(ms, n) && m.id == n && WellFormed(m)
    ensures Indexed(ms[n := m], n + 1)
  {
  }

  class MessageData {
    var messages: map<MessageId, Message>
    var nextId: MessageId

    /** The ids in use are exactly 0 to nextId - 1, each record knows its id and is well formed. */
    ghost predicate Valid()
      reads this
    {
      Indexed(messages, nextId)
    }

    constructor ()
      ensures Valid()
      ensures messages == map[] && nextId == 0
    {
      messages := map[];
      nextId := 0;
    }

    /** The stored messages in creation order. */
    function Listing(): (r: seq<Message>)
      reads this
      requires Valid()
      ensures |r| == nextId
      ensures forall id :: id in messages ==> r[id] == messages[id]
    {
      Ordered(messages, nextId)
    }

    function GetMessage(id: MessageId): (r: Result<Message, StoreError>)
      reads this
      ensures r.Ok? <==> id in messages
      ensures r.Ok? ==> r.value == messages[id]
      ensures r.Err? ==> r.error == MessageNotFound
    {
      if id in messages then Ok(messages[id]) else Err(MessageNotFound)
    }

    /** Stores a new message under a fresh id; the tags default to none. */
    method Create(payload: CreatePayload, senderId: UserId, now: Timestamp) returns (m: Message)
      requires Valid()
      modifies this
      ensures Valid()
      ensures m.id == old(nextId) && m.id !in old(messages)
      ensures m.conversationId == payload.conversationId && m.senderId == senderId && m.text == payload.text
      ensures m.tags == (if payload.tags.Some? then payload.tags.value else [])
      ensures m.likes == [] && m.likesCount == 0 && !m.resolved && !m.deleted && m.reactions == []
      ensures m.created == now
      ensures messages == old(messages)[m.id := m]
      ensures GetMessage(m.id) == Ok(m)
      ensures Listing() == old(Listing()) + [m]
    {
      var tags := if payload.tags.Some? then payload.tags.value else [];
      m := Message(nextId, payload.conversationId, senderId, payload.text, tags, [], 0, false, false, [], now);
      OrderedExtend(messages, nextId, m);
      IndexedExtend(messages, nextId, m);
      messages := messages[nextId := m];
      nextId := nextId + 1;
    }

    /** Writes back a changed record; only a record that may follow the stored one is accepted. */
    method Put(m: Message)
      requires Valid() && m.id in messages && WellFormed(m) && Follows(messages[m.id], m)
      modifies this
      ensures Valid()
      ensures messages == old(messages)[m.id := m] && nextId == old(nextId)
      ensures Listing() == old(Listing())[m.id := m]
    {
      OrderedReplace(messages, nextId, m.id, m);
      messages := messages[m.id := m];
    }

    /** Replaces the message's tags wholesale; fails when the message is not stored. */
    method UpdateTags(id: MessageId, tags: seq<Tag>) returns (r: Result<Message, StoreError>)
      requires Valid()
      modifies this
      ensures Valid() && nextId == old(nextId)
      ensures r.Ok? <==> id in old(messages)
      ensures r.Err? ==> r.error == UpdateTagsFailed(UpdateTagsErrorText) && messages == old(messages)
      ensures r.Ok? ==> r.value == WithTags(old(messages)[id], tags) && messages == old(messages)[id := r.value]
      ensures r.Ok? ==> Listing() == old(Listing())[id := r.value]
    {
      if id !in messages {
        return Err(UpdateTagsFailed(UpdateTagsErrorText));
      }
      var m := WithTags(messages[id], tags);
      Put(m);
      r := Ok(m);
    }

    /** Adds `userId` to the likers unless already there. */
    method Like(id: MessageId, userId: UserId) returns (r: Result<Message, StoreError>)
      requires Valid()
      modifies this
      ensures Valid() && nextId == old(nextId)
      ensures r.Ok? <==> id in old(messages)
      ensures r.Err? ==> r.error == MessageNotFound && messages == old(messages)
      ensures r.Ok? ==> r.value == Liked(old(messages)[id], userId) && messages == old(messages)[id := r.value]
      ensures r.Ok? ==> Listing() == old(Listing())[id := r.value]
    {
      if id !in messages {
        return Err(MessageNotFound);
      }
      var m := Liked(messages[id], userId);
      Put(m);
      r := Ok(m);
    }

    /** Removes `userId` from the likers if there. */
    method Unlike(id: MessageId, userId: UserId) returns (r: Result<Message, StoreError>)
      requires Valid()
      modifies this
      ensures Valid() && nextId == old(nextId)
      ensures r.Ok? <==> id in old(messages)
      ensures r.Err? ==> r.error == MessageNotFound && messages == old(messages)
      ensures r.Ok? ==> r.value == Unliked(old(messages)[id], userId) && messages == old(messages)[id := r.value]
      ensures r.Ok? ==> Listing() == old(Listing())[id := r.value]
    {
      if id !in messages {
        return Err(MessageNotFound);
      }
      var m := Unliked(messages[id], userId);
      Put(m);
      r := Ok(m);
    }

    method Resolve(id: MessageId) returns (r: Result<Message, StoreError>)
      requires Valid()
      modifies this
      ensures Valid() && nextId == old(nextId)
      ensures r.Ok? <==> id in old(messages)
      ensures r.Err? ==> r.error == MessageNotFound && messages == old(messages)
      ensures r.Ok? ==> r.value == WithResolved(old(messages)[id], true) && messages == old(messages)[id := r.value]
      ensures r.Ok? ==> Listing() == old(Listing())[id := r.value]
    {
      r := SetResolved(id, true);
    }

    method Unresolve(id: MessageId) returns (r: Result<Message, StoreError>)
      requires Valid()
      modifies this
      ensures Valid() && nextId == old(nextId)
      ensures r.Ok? <==> id in old(messages)
      ensures r.Err? ==> r.error == MessageNotFound && messages == old(messages)
      ensures r.Ok? ==> r.value == WithResolved(old(messages)[id], false) && messages == old(messages)[id := r.value]
      ensures r.Ok? ==> Listing() == old(Listing())[id := r.value]
    {
      r := SetResolved(id, false);
    }

    method SetResolved(id: MessageId, resolved: bool) returns (r: Result<Message, StoreError>)
      requires Valid()
      modifies this
      ensures Valid() && nextId == old(nextId)
      ensures r.Ok? <==> id in old(messages)
      ensures r.Err? ==> r.error == MessageNotFound && messages == old(messages)
      ensures r.Ok? ==> r.value == WithResolved(old(messages)[id], resolved) && messages == old(messages)[id := r.value]
      ensures r.Ok? ==> Listing() == old(Listing())[id := r.value]
    {
      if id !in messages {
        return Err(MessageNotFound);
      }
      var m := WithResolved(messages[id], resolved);
      Put(m);
      r := Ok(m);
    }

    /** Soft delete: the record stays, flagged deleted, with its text replaced by the placeholder. */
    method Delete(id: MessageId) returns (r: Result<Message, StoreError>)
      requires Valid()
      modifies this
      ensures Valid() && nextId == old(nextId)
      ensures r.Ok? <==> id in old(messages)
      ensures r.Err? ==> r.error == MessageNotFound && messages == old(messages)
      ensures r.Ok? ==> r.value == SoftDeleted(old(messages)[id]) && messages == old(messages)[id := r.value]
      ensures r.Ok? ==> Listing() == old(Listing())[id := r.value]
    {
      if id !in messages {
        return Err(MessageNotFound);
      }
      var m := SoftDeleted(messages[id]);
      Put(m);
      r := Ok(m);
    }
  }
}
