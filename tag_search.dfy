/**
 * The tag search: the messages of some conversations that carry at least one of the
 * query's tag ids, grouped by the combination of query ids each of them carries.
 */
module TagSearch {
  import opened Wrappers
  import opened Tags
  import opened Lexicographic
  import opened Messages

  /** What a group reports about each of its messages. */
  datatype MessageSummary = MessageSummary(message: string, senderId: UserId, tags: seq<Tag>)

  /**
   * One result group. `key` is the group identifier (the `_id` of the result) and
   * `tagId` repeats the same combination of tag ids.
   */
  datatype TagGroup = TagGroup(key: seq<string>, messages: seq<MessageSummary>, tagId: seq<string>)

  function Summarize(m: Message): MessageSummary
  {
    MessageSummary(m.text, m.senderId, m.tags)
  }

  /** The elements of `s` that occur in `keep`, in order. */
  function KeepIn(s: seq<string>, keep: seq<string>): (r: seq<string>)
    ensures forall x :: x in r <==> x in s && x in keep
  {
    if s == [] then []
    else (if s[0] in keep then [s[0]] else []) + KeepIn(s[1..], keep)
  }

  /** The group key of a tag list: the distinct query ids it carries, sorted. */
  function GroupKey(tags: seq<Tag>, queryIds: seq<string>): (k: seq<string>)
    ensures StrictlySorted(k)
    ensures forall x :: x in k <==> x in queryIds && x in TagIds(tags)
  {
    SortDistinct(KeepIn(TagIds(tags), queryIds))
  }

  /** Two tag lists get the same key exactly when they carry the same query ids. */
  lemma SameKeyIffSameMatches(t1: seq<Tag>, t2: seq<Tag>, queryIds: seq<string>)
    ensures GroupKey(t1, queryIds) == GroupKey(t2, queryIds)
        <==> forall x :: (x in queryIds && x in TagIds(t1)) <==> (x in queryIds && x in TagIds(t2))
  {
    if forall x :: (x in queryIds && x in TagIds(t1)) <==> (x in queryIds && x in TagIds(t2)) {
      SortedUnique(GroupKey(t1, queryIds), GroupKey(t2, queryIds));
    }
  }

  /**
   * A message takes part in the search when it belongs to one of the conversations,
   * is not deleted, and carries at least one of the query ids.
   */
  predicate Selected(m: Message, conversationIds: seq<ConversationId>, queryIds: seq<string>): (r: bool)
    ensures r <==> m.conversationId in conversationIds && !m.deleted
                   && exists x :: x in queryIds && x in TagIds(m.tags)
  {
    FirstIsElement(GroupKey(m.tags, queryIds));
    m.conversationId in conversationIds && !m.deleted && GroupKey(m.tags, queryIds) != []
  }

  /** Reference definition of a group: the summaries of the selected messages with key `k`, in store order. */
  function MembersWithKey(msgs: seq<Message>, conversationIds: seq<ConversationId>, queryIds: seq<string>,
                          k: seq<string>): seq<MessageSummary>
  {
    if msgs == [] then []
    else
      var m := msgs[|msgs| - 1];
      MembersWithKey(msgs[..|msgs| - 1], conversationIds, queryIds, k)
        + (if Selected(m, conversationIds, queryIds) && GroupKey(m.tags, queryIds) == k then [Summarize(m)] else [])
  }

  /** Every member of a group stands for a selected message with that key. */
  lemma {:induction false} MemberHasKey(msgs: seq<Message>, conversationIds: seq<ConversationId>,
                                        queryIds: seq<string>, k: seq<string>, s: MessageSummary)
    requires s in MembersWithKey(msgs, conversationIds, queryIds, k)
    ensures exists i :: 0 <= i < |msgs| && Selected(msgs[i], conversationIds, queryIds)
                        && GroupKey(msgs[i].tags, queryIds) == k && Summarize(msgs[i]) == s
  {
    var n := |msgs| - 1;
    var m := msgs[n];
    if !(Selected(m, conversationIds, queryIds) && GroupKey(m.tags, queryIds) == k && Summarize(m) == s) {
      MemberHasKey(msgs[..n], conversationIds, queryIds, k, s);
      var i :| 0 <= i < n && Selected(msgs[..n][i], conversationIds, queryIds)
               && GroupKey(msgs[..n][i].tags, queryIds) == k && Summarize(msgs[..n][i]) == s;
      assert msgs[..n][i] == msgs[i];
    }
  }

  /** Every selected message is a member of the group of its key. */
  lemma {:induction false} MemberOfOwnKey(msgs: seq<Message>, conversationIds: seq<ConversationId>,
                                          queryIds: seq<string>, i: nat)
    requires i < |msgs| && Selected(msgs[i], conversationIds, queryIds)
    ensures Summarize(msgs[i]) in MembersWithKey(msgs, conversationIds, queryIds, GroupKey(msgs[i].tags, queryIds))
  {
    var n := |msgs| - 1;
    if i < n {
      MemberOfOwnKey(msgs[..n], conversationIds, queryIds, i);
      assert msgs[..n][i] == msgs[i];
    }
  }

  /** The messages of the group with key `k`, or none when there is no such group. */
  function Lookup(gs: seq<TagGroup>, k: seq<string>): seq<MessageSummary>
  {
    if gs == [] then []
    else if gs[0].key == k then gs[0].messages
    else Lookup(gs[1..], k)
  }

  /** Group keys are distinct, no group is empty, and `tagId` repeats the key. */
  predicate GroupsWellFormed(gs: seq<TagGroup>)
  {
    && (forall i, j :: 0 <= i < j < |gs| ==> gs[i].key != gs[j].key)
    && (forall i :: 0 <= i < |gs| ==> gs[i].messages != [] && gs[i].tagId == gs[i].key)
  }

  lemma {:induction false} LookupAt(gs: seq<TagGroup>, i: nat)
    requires GroupsWellFormed(gs) && i < |gs|
    ensures Lookup(gs, gs[i].key) == gs[i].messages
  {
    if i > 0 {
      assert GroupsWellFormed(gs[1..]);
      LookupAt(gs[1..], i - 1);
    }
  }

  lemma {:induction false} LookupFound(gs: seq<TagGroup>, k: seq<string>)
    requires GroupsWellFormed(gs) && Lookup(gs, k) != []
    ensures exists i :: 0 <= i < |gs| && gs[i].key == k
  {
    if gs[0].key != k {
      assert GroupsWellFormed(gs[1..]);
      LookupFound(gs[1..], k);
      var i :| 0 <= i < |gs[1..]| && gs[1..][i].key == k;
      assert gs[i + 1].key == k;
    }
  }

  lemma {:induction false} LookupMissing(gs: seq<TagGroup>, k: seq<string>)
    requires forall i :: 0 <= i < |gs| ==> gs[i].key != k
    ensures Lookup(gs, k) == []
  {
    if gs != [] {
      LookupMissing(gs[1..], k);
    }
  }

  /** Files summary `s` under key `k`: after the earlier members of that group, or in a new last group. */
  function AddToGroups(gs: seq<TagGroup>, k: seq<string>, s: MessageSummary): (r: seq<TagGroup>)
    ensures |gs| <= |r| && forall i :: 0 <= i < |gs| ==> r[i].key == gs[i].key
    ensures |r| <= |gs| + 1
    ensures forall i :: 0 <= i < |r| ==> r[i].key == k || (i < |gs| && r[i] == gs[i])
  {
    if gs == [] then [TagGroup(k, [s], k)]
    else if gs[0].key == k then [gs[0].(messages := gs[0].messages + [s])] + gs[1..]
    else [gs[0]] + AddToGroups(gs[1..], k, s)
  }

  /** Filing keeps the groups well formed and adds `s` to the group of `k` and to no other. */
  lemma {:induction false} AddToGroupsSpec(gs: seq<TagGroup>, k: seq<string>, s: MessageSummary)
    requires GroupsWellFormed(gs)
    ensures GroupsWellFormed(AddToGroups(gs, k, s))
    ensures forall k' :: Lookup(AddToGroups(gs, k, s), k') == if k' == k then Lookup(gs, k) + [s] else Lookup(gs, k')
  {
    if gs != [] && gs[0].key != k {
      assert GroupsWellFormed(gs[1..]);
      AddToGroupsSpec(gs[1..], k, s);
      AddToGroupsPastHead(gs, k, s);
    } else if gs != [] {
      AddToGroupsAtHead(gs, k, s);
    }
  }

  lemma AddToGroupsAtHead(gs: seq<TagGroup>, k: seq<string>, s: MessageSummary)
    requires GroupsWellFormed(gs) && gs != [] && gs[0].key == k
    ensures GroupsWellFormed(AddToGroups(gs, k, s))
    ensures forall k' :: Lookup(AddToGroups(gs, k, s), k') == if k' == k then Lookup(gs, k) + [s] else Lookup(gs, k')
  {
    var r := AddToGroups(gs, k, s);
    assert r[1..] == gs[1..];
  }

  lemma AddToGroupsPastHead(gs: seq<TagGroup>, k: seq<string>, s: MessageSummary)
    requires GroupsWellFormed(gs) && gs != [] && gs[0].key != k
    requires GroupsWellFormed(AddToGroups(gs[1..], k, s))
    requires forall k' :: Lookup(AddToGroups(gs[1..], k, s), k') == if k' == k then Lookup(gs[1..], k) + [s] else Lookup(gs[1..], k')
    ensures GroupsWellFormed(AddToGroups(gs, k, s))
    ensures forall k' :: Lookup(AddToGroups(gs, k, s), k') == if k' == k then Lookup(gs, k) + [s] else Lookup(gs, k')
  {
    var rest := AddToGroups(gs[1..], k, s);
    var r := AddToGroups(gs, k, s);
    assert r == [gs[0]] + rest;
    assert r[1..] == rest;
    forall i | 0 <= i < |rest| ensures rest[i].key != gs[0].key {
      if rest[i].key != k {
        assert rest[i] == gs[1..][i] == gs[i + 1];
      }
    }
    forall i, j | 0 <= i < j < |r| ensures r[i].key != r[j].key {
      if i > 0 {
        assert r[i] == rest[i - 1] && r[j] == rest[j - 1];
      } else {
        assert r[j] == rest[j - 1];
      }
    }
  }

  /** Filing under a key already present adds no group; filing under a new key adds it last. */
  lemma {:induction false} AddToGroupsKeys(gs: seq<TagGroup>, k: seq<string>, s: MessageSummary)
    ensures (exists i :: 0 <= i < |gs| && gs[i].key == k) ==> |AddToGroups(gs, k, s)| == |gs|
    ensures (forall i :: 0 <= i < |gs| ==> gs[i].key != k) ==>
      |AddToGroups(gs, k, s)| == |gs| + 1 && AddToGroups(gs, k, s)[|gs|].key == k
  {
    if gs != [] && gs[0].key != k {
      AddToGroupsKeys(gs[1..], k, s);
      if exists i :: 0 <= i < |gs| && gs[i].key == k {
        var i :| 0 <= i < |gs| && gs[i].key == k;
        assert gs[1..][i - 1].key == k;
      }
      if forall i :: 0 <= i < |gs| ==> gs[i].key != k {
        assert forall i :: 0 <= i < |gs[1..]| ==> gs[1..][i].key != k by {
          forall i | 0 <= i < |gs[1..]| ensures gs[1..][i].key != k {
            assert gs[1..][i] == gs[i + 1];
          }
        }
      }
    }
  }

  /** All selected messages, grouped by key; groups in the order their first message was stored. */
  function Grouped(msgs: seq<Message>, conversationIds: seq<ConversationId>, queryIds: seq<string>): (r: seq<TagGroup>)
    ensures |r| <= |msgs|
  {
    if msgs == [] then []
    else
      var m := msgs[|msgs| - 1];
      var gs := Grouped(msgs[..|msgs| - 1], conversationIds, queryIds);
      if Selected(m, conversationIds, queryIds) then AddToGroups(gs, GroupKey(m.tags, queryIds), Summarize(m))
      else gs
  }

  /** The grouping is well formed and its group of key `k` is the reference definition's. */
  lemma {:induction false} GroupedSpec(msgs: seq<Message>, conversationIds: seq<ConversationId>, queryIds: seq<string>)
    ensures GroupsWellFormed(Grouped(msgs, conversationIds, queryIds))
    ensures forall k :: Lookup(Grouped(msgs, conversationIds, queryIds), k) == MembersWithKey(msgs, conversationIds, queryIds, k)
  {
    if msgs != [] {
      var m := msgs[|msgs| - 1];
      var init := msgs[..|msgs| - 1];
      GroupedSpec(init, conversationIds, queryIds);
      if Selected(m, conversationIds, queryIds) {
        AddToGroupsSpec(Grouped(init, conversationIds, queryIds), GroupKey(m.tags, queryIds), Summarize(m));
      }
    }
  }

  /**
   * The groups are exactly the keys some selected message has, each holding the
   * summaries of exactly the selected messages with that key, in store order.
   */
  lemma GroupedCharacterized(msgs: seq<Message>, conversationIds: seq<ConversationId>, queryIds: seq<string>)
    ensures forall i, j :: 0 <= i < j < |Grouped(msgs, conversationIds, queryIds)| ==>
      Grouped(msgs, conversationIds, queryIds)[i].key != Grouped(msgs, conversationIds, queryIds)[j].key
    ensures forall i :: 0 <= i < |Grouped(msgs, conversationIds, queryIds)| ==>
      var g := Grouped(msgs, conversationIds, queryIds)[i];
      g.tagId == g.key && g.messages == MembersWithKey(msgs, conversationIds, queryIds, g.key)
    ensures forall k :: MembersWithKey(msgs, conversationIds, queryIds, k) != [] ==>
      exists i :: 0 <= i < |Grouped(msgs, conversationIds, queryIds)| && Grouped(msgs, conversationIds, queryIds)[i].key == k
  {
    var gs := Grouped(msgs, conversationIds, queryIds);
    GroupedSpec(msgs, conversationIds, queryIds);
    forall i | 0 <= i < |gs|
      ensures gs[i].messages == MembersWithKey(msgs, conversationIds, queryIds, gs[i].key)
    {
      LookupAt(gs, i);
    }
    forall k | MembersWithKey(msgs, conversationIds, queryIds, k) != []
      ensures exists i :: 0 <= i < |gs| && gs[i].key == k
    {
      LookupFound(gs, k);
    }
  }

  /**
   * The position of the first selected message with key `k`, or `|msgs|` when there is none
   * (reference definition for the order of the groups).
   */
  function FirstWithKey(msgs: seq<Message>, conversationIds: seq<ConversationId>, queryIds: seq<string>,
                        k: seq<string>): (n: nat)
    ensures n <= |msgs|
  {
    if msgs == [] then 0
    else
      var init := msgs[..|msgs| - 1];
      var m := msgs[|msgs| - 1];
      var n := FirstWithKey(init, conversationIds, queryIds, k);
      if n < |init| then n
      else if Selected(m, conversationIds, queryIds) && GroupKey(m.tags, queryIds) == k then |init|
      else |msgs|
  }

  /** The message at that position is selected and has key `k`, and none before it is both. */
  lemma {:induction false} FirstWithKeySpec(msgs: seq<Message>, conversationIds: seq<ConversationId>,
                                            queryIds: seq<string>, k: seq<string>)
    ensures var n := FirstWithKey(msgs, conversationIds, queryIds, k);
      && (n < |msgs| ==> Selected(msgs[n], conversationIds, queryIds) && GroupKey(msgs[n].tags, queryIds) == k)
      && (forall i :: 0 <= i < n ==> !(Selected(msgs[i], conversationIds, queryIds) && GroupKey(msgs[i].tags, queryIds) == k))
  {
    if msgs != [] {
      var init := msgs[..|msgs| - 1];
      FirstWithKeySpec(init, conversationIds, queryIds, k);
      assert forall i :: 0 <= i < |init| ==> init[i] == msgs[i];
    }
  }

  /** Every group of `gs` has a first message in `msgs`, and earlier groups have earlier first messages. */
  ghost predicate OrderedByFirst(msgs: seq<Message>, conversationIds: seq<ConversationId>, queryIds: seq<string>,
                                 gs: seq<TagGroup>)
  {
    && (forall i :: 0 <= i < |gs| ==> FirstWithKey(msgs, conversationIds, queryIds, gs[i].key) < |msgs|)
    && (forall i, j :: 0 <= i < j < |gs| ==>
          FirstWithKey(msgs, conversationIds, queryIds, gs[i].key) < FirstWithKey(msgs, conversationIds, queryIds, gs[j].key))
  }

  /** Appending a message does not move the first message of a key that already had one. */
  lemma FirstWithKeyKept(msgs: seq<Message>, conversationIds: seq<ConversationId>, queryIds: seq<string>,
                         k: seq<string>)
    requires msgs != [] && FirstWithKey(msgs[..|msgs| - 1], conversationIds, queryIds, k) < |msgs| - 1
    ensures FirstWithKey(msgs, conversationIds, queryIds, k) == FirstWithKey(msgs[..|msgs| - 1], conversationIds, queryIds, k)
  {
  }

  /**
   * Appending a message keeps the order of the existing groups; a group added after them
   * whose first message is the appended one keeps the order too.
   */
  lemma OrderedByFirstExtend(msgs: seq<Message>, conversationIds: seq<ConversationId>, queryIds: seq<string>,
                             before: seq<TagGroup>, after: seq<TagGroup>)
    requires msgs != [] && OrderedByFirst(msgs[..|msgs| - 1], conversationIds, queryIds, before)
    requires |before| <= |after| <= |before| + 1
    requires forall i :: 0 <= i < |before| ==> after[i].key == before[i].key
    requires |after| == |before| + 1 ==>
      FirstWithKey(msgs, conversationIds, queryIds, after[|before|].key) == |msgs| - 1
    ensures OrderedByFirst(msgs, conversationIds, queryIds, after)
  {
    var init := msgs[..|msgs| - 1];
    forall i | 0 <= i < |before|
      ensures FirstWithKey(msgs, conversationIds, queryIds, after[i].key) == FirstWithKey(init, conversationIds, queryIds, before[i].key)
      ensures FirstWithKey(msgs, conversationIds, queryIds, after[i].key) < |init|
    {
      FirstWithKeyKept(msgs, conversationIds, queryIds, before[i].key);
    }
  }

  /** The first message with a key no earlier group has is the appended message. */
  lemma NewKeyFirst(msgs: seq<Message>, conversationIds: seq<ConversationId>, queryIds: seq<string>, k: seq<string>)
    requires msgs != [] && Selected(msgs[|msgs| - 1], conversationIds, queryIds)
    requires k == GroupKey(msgs[|msgs| - 1].tags, queryIds)
    requires forall g :: g in Grouped(msgs[..|msgs| - 1], conversationIds, queryIds) ==> g.key != k
    ensures FirstWithKey(msgs, conversationIds, queryIds, k) == |msgs| - 1
  {
    var init := msgs[..|msgs| - 1];
    var p := FirstWithKey(init, conversationIds, queryIds, k);
    // a selected message with key `k` before the last one would have given `k` a group already
    if p < |init| {
      FirstWithKeySpec(init, conversationIds, queryIds, k);
      MemberOfOwnKey(init, conversationIds, queryIds, p);
      GroupedCharacterized(init, conversationIds, queryIds);
      assert false;
    }
  }

  /** Groups come in the order of their first messages. */
  lemma {:induction false} GroupsInFirstAppearanceOrder(msgs: seq<Message>, conversationIds: seq<ConversationId>,
                                                        queryIds: seq<string>)
    ensures forall i :: 0 <= i < |Grouped(msgs, conversationIds, queryIds)| ==>
      FirstWithKey(msgs, conversationIds, queryIds, Grouped(msgs, conversationIds, queryIds)[i].key) < |msgs|
    ensures forall i, j :: 0 <= i < j < |Grouped(msgs, conversationIds, queryIds)| ==>
      FirstWithKey(msgs, conversationIds, queryIds, Grouped(msgs, conversationIds, queryIds)[i].key)
        < FirstWithKey(msgs, conversationIds, queryIds, Grouped(msgs, conversationIds, queryIds)[j].key)
  {
    if msgs != [] {
      var init := msgs[..|msgs| - 1];
      var m := msgs[|msgs| - 1];
      var before := Grouped(init, conversationIds, queryIds);
      GroupsInFirstAppearanceOrder(init, conversationIds, queryIds);
      assert OrderedByFirst(init, conversationIds, queryIds, before);
      if Selected(m, conversationIds, queryIds) {
        var k := GroupKey(m.tags, queryIds);
        AddToGroupsKeys(before, k, Summarize(m));
        if forall i :: 0 <= i < |before| ==> before[i].key != k {
          NewKeyFirst(msgs, conversationIds, queryIds, k);
        }
        OrderedByFirstExtend(msgs, conversationIds, queryIds, before, AddToGroups(before, k, Summarize(m)));
      } else {
        OrderedByFirstExtend(msgs, conversationIds, queryIds, before, before);
      }
      assert OrderedByFirst(msgs, conversationIds, queryIds, Grouped(msgs, conversationIds, queryIds));
    }
  }

  /** Every group key is a non-empty, sorted, duplicate-free combination of query ids. */
  lemma GroupKeysAreCombinations(msgs: seq<Message>, conversationIds: seq<ConversationId>, queryIds: seq<string>, i: nat)
    requires i < |Grouped(msgs, conversationIds, queryIds)|
    ensures var k := Grouped(msgs, conversationIds, queryIds)[i].key;
      k != [] && StrictlySorted(k) && forall x :: x in k ==> x in queryIds
  {
    var gs := Grouped(msgs, conversationIds, queryIds);
    GroupedSpec(msgs, conversationIds, queryIds);
    GroupedCharacterized(msgs, conversationIds, queryIds);
    MemberHasKey(msgs, conversationIds, queryIds, gs[i].key, gs[i].messages[0]);
  }

  /** Two selected messages carrying the same query ids land in one group. */
  lemma SameMatchesSameGroup(msgs: seq<Message>, conversationIds: seq<ConversationId>, queryIds: seq<string>,
                             i: nat, j: nat)
    requires i < |msgs| && j < |msgs|
    requires Selected(msgs[i], conversationIds, queryIds) && Selected(msgs[j], conversationIds, queryIds)
    requires forall x :: (x in queryIds && x in TagIds(msgs[i].tags)) <==> (x in queryIds && x in TagIds(msgs[j].tags))
    ensures exists g :: g in Grouped(msgs, conversationIds, queryIds)
                        && Summarize(msgs[i]) in g.messages && Summarize(msgs[j]) in g.messages
  {
    var gs := Grouped(msgs, conversationIds, queryIds);
    var k := GroupKey(msgs[i].tags, queryIds);
    SameKeyIffSameMatches(msgs[i].tags, msgs[j].tags, queryIds);
    MemberOfOwnKey(msgs, conversationIds, queryIds, i);
    MemberOfOwnKey(msgs, conversationIds, queryIds, j);
    GroupedCharacterized(msgs, conversationIds, queryIds);
    var g :| 0 <= g < |gs| && gs[g].key == k;
    assert gs[g] in gs;
  }

  /** Selected messages carrying different query ids never share a group. */
  lemma DifferentMatchesDifferentGroups(msgs: seq<Message>, conversationIds: seq<ConversationId>,
                                        queryIds: seq<string>, i: nat, j: nat, g: TagGroup)
    requires i < |msgs| && j < |msgs|
    requires !forall x :: (x in queryIds && x in TagIds(msgs[i].tags)) <==> (x in queryIds && x in TagIds(msgs[j].tags))
    requires g in Grouped(msgs, conversationIds, queryIds)
    ensures !(Summarize(msgs[i]) in g.messages && Summarize(msgs[j]) in g.messages)
  {
    if Summarize(msgs[i]) in g.messages && Summarize(msgs[j]) in g.messages {
      GroupedCharacterized(msgs, conversationIds, queryIds);
      MemberHasKey(msgs, conversationIds, queryIds, g.key, Summarize(msgs[i]));
      MemberHasKey(msgs, conversationIds, queryIds, g.key, Summarize(msgs[j]));
      SameKeyIffSameMatches(msgs[i].tags, msgs[j].tags, queryIds);
    }
  }

  /** A message none of whose tags is in the query appears in no group. */
  lemma UnmatchedExcluded(msgs: seq<Message>, conversationIds: seq<ConversationId>, queryIds: seq<string>,
                          i: nat, g: TagGroup)
    requires i < |msgs| && forall x :: x in TagIds(msgs[i].tags) ==> x !in queryIds
    requires g in Grouped(msgs, conversationIds, queryIds)
    ensures Summarize(msgs[i]) !in g.messages
  {
    if Summarize(msgs[i]) in g.messages {
      GroupedCharacterized(msgs, conversationIds, queryIds);
      MemberHasKey(msgs, conversationIds, queryIds, g.key, Summarize(msgs[i]));
    }
  }

  /**
   * The search over the stored messages, in store order. Query tags match by `id`;
   * `limit` caps the number of groups and must be positive.
   */
  function GetMessagesByTags(msgs: seq<Message>, conversationIds: seq<ConversationId>, query: seq<Tag>,
                             limit: int): (r: Result<seq<TagGroup>, StoreError>)
    ensures r.Err? <==> limit <= 0
    ensures r.Err? ==> r.error == InvalidLimit
    ensures r.Ok? ==> |r.value| <= limit
    ensures r.Ok? ==> var gs := Grouped(msgs, conversationIds, TagIds(query));
      r.value <= gs && (|r.value| < limit ==> r.value == gs)
  {
    if limit <= 0 then Err(InvalidLimit)
    else
      var gs := Grouped(msgs, conversationIds, TagIds(query));
      Ok(if |gs| <= limit then gs else gs[..limit])
  }

  /**
   * What a successful search returns: at most `limit` groups with distinct keys, each
   * holding exactly the selected messages of its key; and when fewer than `limit` groups
   * come back, every selected message is in the group of its key.
   */
  lemma SearchResult(msgs: seq<Message>, conversationIds: seq<ConversationId>, query: seq<Tag>, limit: int)
    requires limit > 0
    ensures var qs := TagIds(query);
      var gs := GetMessagesByTags(msgs, conversationIds, query, limit).value;
      && |gs| <= limit
      && (forall i, j :: 0 <= i < j < |gs| ==> gs[i].key != gs[j].key)
      && (forall i :: 0 <= i < |gs| ==>
            gs[i].tagId == gs[i].key && gs[i].messages == MembersWithKey(msgs, conversationIds, qs, gs[i].key))
      && (|gs| < limit ==> forall i :: 0 <= i < |msgs| && Selected(msgs[i], conversationIds, qs) ==>
            exists g :: g in gs && g.key == GroupKey(msgs[i].tags, qs) && Summarize(msgs[i]) in g.messages)
  {
    var qs := TagIds(query);
    var all := Grouped(msgs, conversationIds, qs);
    var gs := GetMessagesByTags(msgs, conversationIds, query, limit).value;
    GroupedCharacterized(msgs, conversationIds, qs);
    forall i | 0 <= i < |gs|
      ensures gs[i].tagId == gs[i].key && gs[i].messages == MembersWithKey(msgs, conversationIds, qs, gs[i].key)
    {
      assert gs[i] == all[i];
    }
    if |gs| < limit {
      forall i | 0 <= i < |msgs| && Selected(msgs[i], conversationIds, qs)
        ensures exists g :: g in gs && g.key == GroupKey(msgs[i].tags, qs) && Summarize(msgs[i]) in g.messages
      {
        MemberOfOwnKey(msgs, conversationIds, qs, i);
        var n :| 0 <= n < |all| && all[n].key == GroupKey(msgs[i].tags, qs);
        assert all[n] in gs;
      }
    }
  }

  /**
   * The groups a search returns are in the order of their first messages, and every group
   * that `limit` cuts off has its first message after those of all returned groups.
   */
  lemma SearchKeepsEarliestGroups(msgs: seq<Message>, conversationIds: seq<ConversationId>, query: seq<Tag>, limit: int)
    requires limit > 0
    ensures var qs := TagIds(query);
      var all := Grouped(msgs, conversationIds, qs);
      var gs := GetMessagesByTags(msgs, conversationIds, query, limit).value;
      && (forall i, j :: 0 <= i < j < |gs| ==>
            FirstWithKey(msgs, conversationIds, qs, gs[i].key) < FirstWithKey(msgs, conversationIds, qs, gs[j].key))
      && (forall i, j :: 0 <= i < |gs| <= j < |all| ==>
            FirstWithKey(msgs, conversationIds, qs, gs[i].key) < FirstWithKey(msgs, conversationIds, qs, all[j].key))
  {
    var qs := TagIds(query);
    var all := Grouped(msgs, conversationIds, qs);
    var gs := GetMessagesByTags(msgs, conversationIds, query, limit).value;
    GroupsInFirstAppearanceOrder(msgs, conversationIds, qs);
    assert forall i :: 0 <= i < |gs| ==> gs[i] == all[i];
  }
}
