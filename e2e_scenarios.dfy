/**
 * The end-to-end message cases (test/messages.e2e-spec.ts), replayed on a fresh store for
 * every conversation id and creation time. Only the fields each case inspects are stated.
 */
module MessageEndToEndScenarios {
  import opened Wrappers
  import opened Tags
  import opened Messages
  import opened TagSearch
  import opened MessageStore

  const User1: UserId := "597cfa3ac88c22000a74d167"
  const User2: UserId := "597cfa3ac88c22000a74d166"
  const Course: Tag := Tag(Some("66954d19a21e1ea4481d9c8b"), "course", SubTopic)

  method SendsMessage(c: ConversationId, now: Timestamp) returns (sent: Message)
    ensures sent.text == "End too end message" && sent.senderId == User1
    ensures !sent.resolved && !sent.deleted && sent.tags == [] && sent.created == now
  {
    var store := new MessageData();
    sent := store.Create(CreatePayload(c, "End too end message", None), User1, now);
  }

  method DeletesMessage(c: ConversationId, now: Timestamp) returns (sent: Message, deleted: Result<Message, StoreError>,
                                                                    listed: seq<Message>)
    ensures !sent.deleted
    ensures deleted.Ok? && deleted.value.id == sent.id && deleted.value.senderId == User1
    ensures deleted.value.text == "This message has been deleted" && deleted.value.deleted
    ensures listed == [deleted.value]
  {
    var store := new MessageData();
    sent := store.Create(CreatePayload(c, "Message to delete", None), User1, now);
    deleted := store.Delete(sent.id);
    assert store.Listing() == [deleted.value];
    assert deleted.value.conversationId == c;
    assert [deleted.value][1..] == [];
    assert InConversation([deleted.value], c) == [deleted.value];
    listed := InConversation(store.Listing(), c);
  }

  method LikesMessage(c: ConversationId, now: Timestamp) returns (sent: Message, liked: Result<Message, StoreError>)
    ensures sent.likes == []
    ensures liked.Ok? && liked.value.id == sent.id && liked.value.text == "Message to like"
    ensures liked.value.likes == [User1] && liked.value.likesCount == 1 && liked.value.senderId == User1
  {
    var store := new MessageData();
    sent := store.Create(CreatePayload(c, "Message to like", None), User1, now);
    liked := store.Like(sent.id, User1);
  }

  method UnlikesMessage(c: ConversationId, now: Timestamp) returns (sent: Message, unliked: Result<Message, StoreError>)
    ensures unliked.Ok? && unliked.value.id == sent.id
    ensures unliked.value.likes == [] && unliked.value.likesCount == 0 && unliked.value.senderId == User1
  {
    var store := new MessageData();
    sent := store.Create(CreatePayload(c, "Message to like", None), User1, now);
    var _ := store.Like(sent.id, User1);
    unliked := store.Unlike(sent.id, User1);
  }

  method LikeUnlikeUseCase(c: ConversationId, now: Timestamp)
    returns (sent: Message, first: Result<Message, StoreError>, second: Result<Message, StoreError>,
             third: Result<Message, StoreError>)
    ensures first.Ok? && first.value.likes == [User1] && first.value.likesCount == 1
    ensures second.Ok? && second.value.likes == [User1, User2] && second.value.likesCount == 2
    ensures third.Ok? && third.value.likes == [User2] && third.value.likesCount == 1
    ensures first.value.id == sent.id && second.value.id == sent.id && third.value.id == sent.id
    ensures first.value.senderId == User1 && second.value.senderId == User1 && third.value.senderId == User1
  {
    var store := new MessageData();
    sent := store.Create(CreatePayload(c, "Message to like", None), User1, now);
    first := store.Like(sent.id, User1);
    assert first.value.likes == [User1];
    assert User1 != User2;
    second := store.Like(sent.id, User2);
    assert second.value.likes == [User1, User2];
    third := store.Unlike(sent.id, User1);
    UnlikeKeepsOrder(second.value, User1, 0);
    assert [User1, User2][1..] == [User2];
  }

  method UpdatesMessageTags(c: ConversationId, now: Timestamp) returns (sent: Message, updated: Result<Message, StoreError>)
    ensures sent.tags == []
    ensures updated.Ok? && updated.value.tags == [Tag(None, "course", SubTopic)]
  {
    var store := new MessageData();
    sent := store.Create(CreatePayload(c, "Message to resolve", None), User1, now);
    updated := store.UpdateTags(sent.id, [Tag(None, "course", SubTopic)]);
  }

  /** A search for the course tag over a single message carrying it yields one group. */
  lemma CourseSearch(sent: Message, c: ConversationId)
    requires sent.conversationId == c && !sent.deleted && sent.tags == [Course]
    ensures GetMessagesByTags([sent], [c], [Course], 2) == Ok([TagGroup(["course"], [Summarize(sent)], ["course"])])
  {
    var qs := TagIds([Course]);
    assert qs == ["course"];
    Lexicographic.SortedUnique(GroupKey(sent.tags, qs), ["course"]);
    assert Selected(sent, [c], qs);
    assert [sent][..0] == [];
    assert Grouped([sent], [c], qs) == AddToGroups([], ["course"], Summarize(sent));
  }

  method GetsMessagesByTags(c: ConversationId, now: Timestamp) returns (sent: Message, result: Result<seq<TagGroup>, StoreError>)
    ensures sent.tags == [Course]
    ensures result == Ok([TagGroup(["course"], [MessageSummary("Message to resolve", User1, [Course])], ["course"])])
  {
    var store := new MessageData();
    sent := store.Create(CreatePayload(c, "Message to resolve", Some([Course])), User1, now);
    var listing := store.Listing();
    assert listing == [sent];
    CourseSearch(sent, c);
    result := GetMessagesByTags(listing, [c], [Course], 2);
  }

  method ResolvesMessage(c: ConversationId, now: Timestamp) returns (sent: Message, resolved: Result<Message, StoreError>)
    ensures !sent.resolved
    ensures resolved.Ok? && resolved.value.id == sent.id && resolved.value.text == "Message to resolve"
    ensures resolved.value.resolved && resolved.value.senderId == User1
  {
    var store := new MessageData();
    sent := store.Create(CreatePayload(c, "Message to resolve", None), User1, now);
    resolved := store.Resolve(sent.id);
  }

  method UnresolvesMessage(c: ConversationId, now: Timestamp) returns (sent: Message, unresolved: Result<Message, StoreError>)
    ensures unresolved.Ok? && unresolved.value.id == sent.id && unresolved.value.text == "Message to unresolve"
    ensures !unresolved.value.resolved && unresolved.value.senderId == User1
  {
    var store := new MessageData();
    sent := store.Create(CreatePayload(c, "Message to unresolve", None), User1, now);
    var _ := store.Resolve(sent.id);
    unresolved := store.Unresolve(sent.id);
  }
}
