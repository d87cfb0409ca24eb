/**
 * The cases of the message store's unit test (src/message/message.data.spec.ts),
 * replayed on a fresh store for every conversation id and creation time.
 */
module MessageDataScenarios {
  import opened Wrappers
  import opened Tags
  import opened Messages
  import opened TagSearch
  import opened MessageStore

  const Sender: UserId := "5fe0cce861c8ea54018385af"
  const Tag1: Tag := Tag(None, "tag1", SubTopic)
  const Tag2: Tag := Tag(None, "tag2", SubTopic)
  const Tag3: Tag := Tag(None, "tag3", SubTopic)

  method CreatesMessage(c: ConversationId, now: Timestamp) returns (m: Message)
    ensures m.likes == [] && m.likesCount == 0 && !m.resolved && !m.deleted && m.reactions == []
    ensures m.text == "Hello world" && m.senderId == Sender && m.conversationId == c && m.tags == []
  {
    var store := new MessageData();
    m := store.Create(CreatePayload(c, "Hello world", None), Sender, now);
  }

  method UpdatesTags(c: ConversationId, now: Timestamp) returns (created: Message, updated: Result<Message, StoreError>,
                                                                 retrieved: Result<Message, StoreError>)
    ensures created.tags == [Tag1, Tag2] && created.text == "Message to update" && created.likes == []
    ensures created.likesCount == 0 && !created.resolved && !created.deleted && created.reactions == []
    ensures created.senderId == Sender && created.conversationId == c
    ensures updated == Ok(created.(tags := [Tag1, Tag2, Tag3]))
    ensures retrieved == updated
  {
    var store := new MessageData();
    created := store.Create(CreatePayload(c, "Message to update", Some([Tag1, Tag2])), Sender, now);
    updated := store.UpdateTags(created.id, [Tag1, Tag2, Tag3]);
    retrieved := store.GetMessage(created.id);
  }

  method UpdateTagsOnMissingMessageFails() returns (r: Result<Message, StoreError>)
    ensures r == Err(UpdateTagsFailed("Could not update tags on message"))
  {
    var store := new MessageData();
    r := store.UpdateTags(0, [Tag1, Tag2]);
  }

  method GetsMessage(c: ConversationId, now: Timestamp) returns (sent: Message, got: Result<Message, StoreError>)
    ensures sent.text == "Hello world" && got == Ok(sent)
  {
    var store := new MessageData();
    sent := store.Create(CreatePayload(c, "Hello world", None), Sender, now);
    got := store.GetMessage(sent.id);
  }

  method FiltersByTags(c: ConversationId, now: Timestamp) returns (result: Result<seq<TagGroup>, StoreError>)
    ensures result == Ok([TagGroup(["tag1", "tag2"], [MessageSummary("Hello world", Sender, [Tag1, Tag2])], ["tag1", "tag2"])])
  {
    var store := new MessageData();
    var first := store.Create(CreatePayload(c, "Hello world", Some([Tag1, Tag2])), Sender, now);
    var second := store.Create(CreatePayload(c, "Second Message", Some([Tag3])), Sender, now);
    var listing := store.Listing();
    assert listing == [first, second];
    FilterExample(first, second, c);
    result := GetMessagesByTags(listing, [c], first.tags, 5);
  }

  lemma QueryIds()
    ensures TagIds([Tag1, Tag2]) == ["tag1", "tag2"]
  {
  }

  /** The first message carries both query ids. */
  lemma KeyOfFirst()
    ensures GroupKey([Tag1, Tag2], ["tag1", "tag2"]) == ["tag1", "tag2"]
  {
    QueryIds();
    assert Lexicographic.Below("tag1", "tag2");
    Lexicographic.SortedUnique(GroupKey([Tag1, Tag2], ["tag1", "tag2"]), ["tag1", "tag2"]);
  }

  /** The second message carries none of them. */
  lemma KeyOfSecond()
    ensures GroupKey([Tag3], ["tag1", "tag2"]) == []
  {
    assert TagIds([Tag3]) == ["tag3"];
    Lexicographic.FirstIsElement(GroupKey([Tag3], ["tag1", "tag2"]));
  }

  /** A search over two messages of which only the first is selected. */
  lemma OneSelectedOfTwo(first: Message, second: Message, conversationIds: seq<ConversationId>, queryIds: seq<string>)
    requires Selected(first, conversationIds, queryIds) && !Selected(second, conversationIds, queryIds)
    ensures var k := GroupKey(first.tags, queryIds);
      Grouped([first, second], conversationIds, queryIds) == [TagGroup(k, [Summarize(first)], k)]
  {
    var k := GroupKey(first.tags, queryIds);
    assert [first][..0] == [];
    assert Grouped([first], conversationIds, queryIds) == AddToGroups([], k, Summarize(first));
    assert [first, second][..1] == [first];
    assert Grouped([first, second], conversationIds, queryIds) == Grouped([first], conversationIds, queryIds);
  }

  /** The search of the unit test, computed on the two stored messages. */
  lemma FilterExample(first: Message, second: Message, c: ConversationId)
    requires first.conversationId == c && !first.deleted && first.tags == [Tag1, Tag2]
    requires first.text == "Hello world" && first.senderId == Sender
    requires second.tags == [Tag3]
    ensures GetMessagesByTags([first, second], [c], [Tag1, Tag2], 5)
         == Ok([TagGroup(["tag1", "tag2"], [MessageSummary("Hello world", Sender, [Tag1, Tag2])], ["tag1", "tag2"])])
  {
    QueryIds();
    KeyOfFirst();
    KeyOfSecond();
    var qs := ["tag1", "tag2"];
    assert GroupKey(first.tags, qs) == qs;
    assert GroupKey(second.tags, qs) == [];
    OneSelectedOfTwo(first, second, [c], qs);
    assert Summarize(first) == MessageSummary("Hello world", Sender, [Tag1, Tag2]);
    var gs := Grouped([first, second], [c], qs);
    assert gs == [TagGroup(qs, [Summarize(first)], qs)];
    assert GetMessagesByTags([first, second], [c], [Tag1, Tag2], 5) == Ok(gs);
  }

  method MarksDeleted(c: ConversationId, now: Timestamp) returns (created: Message, deleted: Result<Message, StoreError>,
                                                                  retrieved: Result<Message, StoreError>)
    ensures !created.deleted
    ensures deleted.Ok? && deleted.value.deleted
    ensures retrieved.Ok? && retrieved.value.deleted
  {
    var store := new MessageData();
    created := store.Create(CreatePayload(c, "Message to delete", None), Sender, now);
    deleted := store.Delete(created.id);
    retrieved := store.GetMessage(created.id);
  }
}
