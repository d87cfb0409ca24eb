/**
 * The chat message record and the state transitions the message store applies to one
 * record: tag replacement, like, unlike, resolve, unresolve and soft delete.
 */
module Messages {
  import opened Wrappers
  import opened Tags

  /** Identifiers are opaque; message ids are handed out by the store. */
  type MessageId = nat
  type ConversationId = nat
  type UserId = string
  /** The creation time, supplied by the caller's clock. */
  type Timestamp = nat
  /** Element type of the reserved `reactions` list; no operation here adds one. */
  type Reaction = string

  /** The text a soft-deleted message carries instead of its content. */
  const DeletedText: string := "This message has been deleted"

  /** The text of the failure of a tag update on a message that is not stored. */
  const UpdateTagsErrorText: string := "Could not update tags on message"

  datatype Message = Message(
    id: MessageId,
    conversationId: ConversationId,
    senderId: UserId,
    text: string,
    tags: seq<Tag>,
    likes: seq<UserId>,
    likesCount: nat,
    resolved: bool,
    deleted: bool,
    reactions: seq<Reaction>,
    created: Timestamp)

  /** What a caller sends to create a message; `tags` may be left out. */
  datatype CreatePayload = CreatePayload(conversationId: ConversationId, text: string, tags: Option<seq<Tag>>)

  datatype StoreError =
    | MessageNotFound
    | UpdateTagsFailed(reason: string)
    | InvalidLimit

  predicate NoDuplicates<T(==)>(s: seq<T>)
  {
    forall i, j :: 0 <= i < j < |s| ==> s[i] != s[j]
  }

  /**
   * The record invariant: the like count is the number of likers, nobody likes twice,
   * and a deleted message carries the placeholder text.
   */
  predicate WellFormed(m: Message)
  {
    && m.likesCount == |m.likes|
    && NoDuplicates(m.likes)
    && (m.deleted ==> m.text == DeletedText)
  }

  /** The likers other than `u`, in their original order. */
  function Without(s: seq<UserId>, u: UserId): (r: seq<UserId>)
    ensures u !in s ==> r == s
  {
    if s == [] then []
    else
      var rest := Without(s[1..], u);
      if s[0] == u then rest
      else
        assert u !in s ==> u !in s[1..];
        [s[0]] + rest
  }

  /**
   * Without keeps exactly the likers other than `u`, introduces no duplicates, and is one
   * shorter when `u` was there once.
   */
  lemma {:induction false} WithoutSpec(s: seq<UserId>, u: UserId)
    ensures forall v :: v in Without(s, u) <==> v in s && v != u
    ensures NoDuplicates(s) ==> NoDuplicates(Without(s, u))
    ensures NoDuplicates(s) && u in s ==> |Without(s, u)| == |s| - 1
  {
    if s != [] {
      var tail := s[1..];
      WithoutSpec(tail, u);
      assert s == [s[0]] + tail;
      if NoDuplicates(s) {
        NoDuplicatesTail(s);
        if s[0] != u {
          var r := Without(s, u);
          assert r == [s[0]] + Without(tail, u);
          forall i, j | 0 <= i < j < |r| ensures r[i] != r[j] {
            if i == 0 {
              assert r[j] in Without(tail, u);
            } else {
              assert r[i] == Without(tail, u)[i - 1] && r[j] == Without(tail, u)[j - 1];
            }
          }
        }
      }
    }
  }

  /** The tail of a duplicate-free list is duplicate-free and does not hold the head. */
  lemma NoDuplicatesTail(s: seq<UserId>)
    requires NoDuplicates(s) && s != []
    ensures NoDuplicates(s[1..]) && s[0] !in s[1..]
  {
    var tail := s[1..];
    forall i, j | 0 <= i < j < |tail| ensures tail[i] != tail[j] {
      assert tail[i] == s[i + 1] && tail[j] == s[j + 1];
    }
    forall i | 0 <= i < |tail| ensures tail[i] != s[0] {
      assert tail[i] == s[i + 1];
    }
  }

  /** Without drops a head that is `u` and keeps any other head. */
  lemma WithoutHead(s: seq<UserId>, u: UserId)
    requires s != []
    ensures Without(s, u) == (if s[0] == u then [] else [s[0]]) + Without(s[1..], u)
  {
  }

  /** Removing a liker who occurs once keeps everybody else, in the same order. */
  lemma {:induction false} WithoutAt(s: seq<UserId>, u: UserId, k: nat)
    requires NoDuplicates(s) && k < |s| && s[k] == u
    ensures Without(s, u) == s[..k] + s[k + 1..]
  {
    var tail := s[1..];
    NoDuplicatesTail(s);
    WithoutHead(s, u);
    if k == 0 {
      assert s[..0] + s[1..] == tail;
    } else {
      WithoutAt(tail, u, k - 1);
      var front, back := tail[..k - 1], tail[k..];
      assert Without(s, u) == [s[0]] + (front + back);
      assert s[..k] + s[k + 1..] == [s[0]] + (front + back);
    }
  }

  /** The message with its tag list replaced wholesale. */
  function WithTags(m: Message, tags: seq<Tag>): (r: Message)
    ensures r.tags == tags
    ensures r.(tags := m.tags) == m
    ensures WellFormed(m) ==> WellFormed(r)
  {
    m.(tags := tags)
  }

  /** The message after `u` likes it: a new liker goes after the earlier ones. */
  function Liked(m: Message, u: UserId): (r: Message)
    ensures u in r.likes
    ensures forall v :: v in r.likes <==> v in m.likes || v == u
    ensures u !in m.likes ==> r.likes == m.likes + [u]
    ensures u in m.likes ==> r == m
    ensures r.(likes := m.likes, likesCount := m.likesCount) == m
    ensures WellFormed(m) ==> WellFormed(r)
  {
    if u in m.likes then m
    else m.(likes := m.likes + [u], likesCount := m.likesCount + 1)
  }

  /** The message after `u` withdraws a like; nothing happens if `u` never liked it. */
  function Unliked(m: Message, u: UserId): (r: Message)
    requires WellFormed(m)
    ensures WellFormed(r)
    ensures u !in r.likes
    ensures forall v :: v in r.likes <==> v in m.likes && v != u
    ensures u !in m.likes ==> r == m
    ensures r.(likes := m.likes, likesCount := m.likesCount) == m
  {
    WithoutSpec(m.likes, u);
    if u in m.likes then m.(likes := Without(m.likes, u), likesCount := m.likesCount - 1)
    else m
  }

  /** Unliking removes that one user and keeps the order of the others. */
  lemma UnlikeKeepsOrder(m: Message, u: UserId, k: nat)
    requires WellFormed(m) && k < |m.likes| && m.likes[k] == u
    ensures Unliked(m, u).likes == m.likes[..k] + m.likes[k + 1..]
    ensures Unliked(m, u).likesCount == |m.likes| - 1
  {
    WithoutAt(m.likes, u, k);
  }

  /** The message with its resolved flag set to `resolved`. */
  function WithResolved(m: Message, resolved: bool): (r: Message)
    ensures r.resolved == resolved
    ensures r.(resolved := m.resolved) == m
    ensures WellFormed(m) ==> WellFormed(r)
  {
    m.(resolved := resolved)
  }

  /** The soft-deleted message: flagged deleted, content replaced by the placeholder. */
  function SoftDeleted(m: Message): (r: Message)
    ensures r.deleted && r.text == DeletedText
    ensures r.(deleted := m.deleted, text := m.text) == m
    ensures WellFormed(m) ==> WellFormed(r)
  {
    m.(deleted := true, text := DeletedText)
  }

  lemma LikeIdempotent(m: Message, u: UserId)
    ensures Liked(Liked(m, u), u) == Liked(m, u)
  {
  }

  lemma SoftDeleteIdempotent(m: Message)
    ensures SoftDeleted(SoftDeleted(m)) == SoftDeleted(m)
  {
  }

  /** Liking and then unliking by a user who had not liked the message changes nothing. */
  lemma UnlikeUndoesLike(m: Message, u: UserId)
    requires WellFormed(m) && u !in m.likes
    ensures Unliked(Liked(m, u), u) == m
  {
    var l := Liked(m, u);
    WithoutAt(l.likes, u, |m.likes|);
    assert l.likes[..|m.likes|] == m.likes;
  }

  /** The transitions a stored message can go through after its creation. */
  datatype Action =
    | SetTags(tags: seq<Tag>)
    | AddLike(user: UserId)
    | RemoveLike(user: UserId)
    | MarkResolved
    | MarkUnresolved
    | SoftDelete

  function Step(m: Message, a: Action): (r: Message)
    requires WellFormed(m)
    ensures WellFormed(r)
  {
    match a
    case SetTags(tags) => WithTags(m, tags)
    case AddLike(u) => Liked(m, u)
    case RemoveLike(u) => Unliked(m, u)
    case MarkResolved => WithResolved(m, true)
    case MarkUnresolved => WithResolved(m, false)
    case SoftDelete => SoftDeleted(m)
  }

  /**
   * `m` may replace the stored record `o`: id, conversation, sender, creation time and
   * reactions are kept, and a deleted record stays deleted with its placeholder text.
   */
  predicate Follows(o: Message, m: Message)
  {
    && m.id == o.id && m.conversationId == o.conversationId && m.senderId == o.senderId
    && m.created == o.created && m.reactions == o.reactions
    && (o.deleted ==> m.deleted && m.text == o.text)
  }

  /** Every transition produces a record that may replace the one it started from. */
  lemma StepFollows(m: Message, a: Action)
    requires WellFormed(m)
    ensures Follows(m, Step(m, a))
  {
  }

  /** The message after a sequence of transitions, first to last. */
  function Run(m: Message, actions: seq<Action>): (r: Message)
    requires WellFormed(m)
    ensures WellFormed(r)
    decreases |actions|
  {
    if actions == [] then m else Run(Step(m, actions[0]), actions[1..])
  }

  /** Running two sequences one after the other is running their concatenation. */
  lemma {:induction false} RunAppend(m: Message, first: seq<Action>, second: seq<Action>)
    requires WellFormed(m)
    ensures Run(m, first + second) == Run(Run(m, first), second)
    decreases |first|
  {
    if first == [] {
      assert first + second == second;
    } else {
      assert (first + second)[0] == first[0] && (first + second)[1..] == first[1..] + second;
      RunAppend(Step(m, first[0]), first[1..], second);
    }
  }

  /**
   * Whatever transitions a message goes through: the record invariant holds, the id,
   * conversation, sender, creation time and reactions never change, the text changes only
   * to the placeholder, and deletion is never undone.
   */
  lemma {:induction false} RunPreservesInvariants(m: Message, actions: seq<Action>)
    requires WellFormed(m)
    ensures var r := Run(m, actions);
      && WellFormed(r)
      && r.id == m.id && r.conversationId == m.conversationId && r.senderId == m.senderId
      && r.created == m.created && r.reactions == m.reactions
      && (r.text == m.text || r.text == DeletedText)
      && (m.deleted ==> r.deleted && r.text == DeletedText)
      && (SoftDelete in actions ==> r.deleted)
    decreases |actions|
  {
    if actions != [] {
      var s := Step(m, actions[0]);
      RunPreservesInvariants(s, actions[1..]);
      if SoftDelete in actions && actions[0] != SoftDelete {
        assert SoftDelete in actions[1..];
      }
    }
  }

  /** The messages of one conversation in store order; deleted ones are kept. */
  function InConversation(msgs: seq<Message>, c: ConversationId): (r: seq<Message>)
    ensures forall m :: m in r <==> m in msgs && m.conversationId == c
  {
    if msgs == [] then []
    else (if msgs[0].conversationId == c then [msgs[0]] else []) + InConversation(msgs[1..], c)
  }

  /** A message stored after the others comes last in its conversation's listing. */
  lemma {:induction false} InConversationAppend(msgs: seq<Message>, m: Message, c: ConversationId)
    ensures InConversation(msgs + [m], c) == InConversation(msgs, c) + (if m.conversationId == c then [m] else [])
  {
    if msgs == [] {
      assert msgs + [m] == [m];
      assert [m][1..] == [];
    } else {
      assert (msgs + [m])[0] == msgs[0] && (msgs + [m])[1..] == msgs[1..] + [m];
      InConversationAppend(msgs[1..], m, c);
    }
  }
}
