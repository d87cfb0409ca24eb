# Chat message store — a Dafny model

The core is the message store of a chat service. The store keeps message records by
id and has these operations:

- create a message;
- read one back (`getMessage`);
- replace its tags wholesale (`updateTags`);
- like and unlike it;
- resolve and unresolve it;
- soft-delete it: the record stays, is flagged `deleted`, and its text becomes
  "This message has been deleted".

A read-only tag search (`getMessagesByTags`) groups the messages of some conversations
by the combination of query tag ids each message carries.

The store's implementation (src/message/message.data.ts) is not modelled from its code.
Every contract is taken from what its unit test (`src/message/message.data.spec.ts`) and the service's
end-to-end test (`test/messages.e2e-spec.ts`) assert. The tag value types come from
`src/utils/dto.utils.ts`.

Modules, leaves first:

- `Wrappers` (`wrappers.dfy`): `Option` and `Result`.
- `Tags` (`tags.dfy`): `TagType` and `Tag`:
  - `TagType` is a closed enumeration with the single member `SubTopic`, whose string value is `"subTopic"`.
  - A `Tag` always has a string `id` and a `tagType` drawn from the enumeration.
  - Its persistence id `persistedId` (the source's `_id?`, src/utils/dto.utils.ts:16) is optional: callers may leave it out or supply one.
  - The source's field names `_id` and `type` cannot be used in Dafny, hence the renaming.
- `Lexicographic` (`lexicographic.dfy`): the strict order on strings, by character code, and sorted duplicate-free sequences. The group key is built with it.
- `Messages` (`messages.dfy`): the `Message` record and its invariant `WellFormed`:
  - `likesCount == |likes|`;
  - nobody likes twice;
  - a deleted message carries the placeholder text.

  It also holds the transitions as pure functions (`WithTags`, `Liked`, `Unliked`,
  `WithResolved`, `SoftDeleted`) and `Run`, which applies any sequence of them.
- `TagSearch` (`tag_search.dfy`): the tag search as a pure function over the store's contents in creation order.
  - `MembersWithKey` is a reference definition of one group.
  - `Grouped` builds all groups incrementally, and lemmas tie the two together.
- `MessageStore` (`message_store.dfy`): the class `MessageData`.
  - It holds a map `messages` from id to record and the counter `nextId` that hands out fresh ids.
  - Each operation is a method with `modifies this`. Its `ensures` give the new map in terms of the old one and of the transition functions.
  - `Valid()` is kept by every method: ids are exactly `0 .. nextId-1`, each record knows its id, and every record is `WellFormed`.
- `MessageDataScenarios` (`data_scenarios.dfy`) and `MessageEndToEndScenarios`
  (`e2e_scenarios.dfy`): the test cases replayed on a fresh store, for every
  conversation id and creation time.

Ids are opaque:

- a message id is a `nat` handed out by the store;
- a conversation id is a `nat`;
- a user id is a `string`.

The creation time is a parameter of `Create`. No clock is read.

## Modelling choices

The tests leave these open. Each one is a choice of this model, not a documented behaviour of the source:

- Group key: the distinct ids of the message's tags that also occur among the query tags' ids, sorted by character code. The tests only show messages all of whose tags match the query.
- `limit`: it caps the number of groups returned, and a `limit <= 0` is rejected with `InvalidLimit`. The tests pass 5 and 2 and get one group.
- Deleted messages are left out of the tag search.
- Repeated likes: liking twice is idempotent, and nobody is listed twice. Unliking by a user who has not liked the message changes nothing.
- Order: groups come in the order their first message was created, and messages within a group in creation order. The limit therefore keeps the groups whose first messages are earliest.
- Errors:
  - a tag update on a missing id fails with `UpdateTagsFailed("Could not update tags on message")`, the text the unit test expects;
  - the other operations on a missing id fail with `MessageNotFound`, whose text the tests do not show.

## Model

| member | source | states |
|---|---|---|
| `Tags.TagTypeValue` | src/utils/dto.utils.ts:5-7 | the string value the single enumeration member carries, `"subTopic"` |
| `Tags.ParseTagType` | src/utils/dto.utils.ts:5-7 | a string is read as a tag type only if it is the value that member carries; every other string reads as no tag type, since no member has it |
| `Tags.TagTypeRoundTrip` | src/utils/dto.utils.ts:5-7 | reading back the value of a tag type gives that tag type |
| `Tags.TagIds` | src/utils/dto.utils.ts:18-20 | the labels of a tag list, position by position, same length |
| `Messages.WithTags` | src/message/message.data.spec.ts:132-139 | the tag list becomes exactly the given list (replaced, not merged); every other field is unchanged; the record invariant is kept |
| `Messages.Without` | test/messages.e2e-spec.ts:188-204 | the likers other than the given user; unchanged if the user is absent |
| `Messages.WithoutSpec` | test/messages.e2e-spec.ts:255-270 | the likers other than the given user, and only them; no duplicates are introduced; exactly one shorter when the user was there once |
| `Messages.WithoutAt` | test/messages.e2e-spec.ts:255-270 | removing a liker who occurs once at position k keeps all others in their order |
| `Messages.Liked` | test/messages.e2e-spec.ts:147-164 | the user is among the likers afterwards and nobody else is added; a new liker is appended after the earlier ones; a repeated like changes nothing; only `likes` and `likesCount` change; the invariant (count equals number of likers, no duplicates) is kept |
| `Messages.Unliked` | test/messages.e2e-spec.ts:188-204 | the user is no longer a liker and everybody else still is; unliking by a non-liker changes nothing; only `likes` and `likesCount` change; the invariant is kept |
| `Messages.UnlikeKeepsOrder` | test/messages.e2e-spec.ts:255-270 | unlike removes just that user, keeps the other likers' order, and the count drops by one |
| `Messages.UnlikeUndoesLike` | test/messages.e2e-spec.ts:167-204 | a like followed by an unlike by a user who had not liked the message gives back the original message |
| `Messages.LikeIdempotent` | test/messages.e2e-spec.ts:219-252 | liking twice by the same user is the same as liking once (modelling choice) |
| `Messages.WithResolved` | test/messages.e2e-spec.ts:352-365 | the resolved flag takes the given value and every other field, the text included, is unchanged |
| `Messages.SoftDeleted` | test/messages.e2e-spec.ts:96-110 | the message is flagged deleted and its text is the placeholder; id, sender and every other field are unchanged; the invariant is kept |
| `Messages.SoftDeleteIdempotent` | test/messages.e2e-spec.ts:96-110 | deleting a deleted message changes nothing |
| `Messages.WellFormed` | test/messages.e2e-spec.ts:207-271 | the record invariant: the like count is the number of likers, nobody likes twice, a deleted message carries the placeholder text |
| `Messages.Step` | test/messages.e2e-spec.ts:207-271 | every transition keeps the record invariant |
| `Messages.Run` | test/messages.e2e-spec.ts:207-271 | a sequence of transitions applied first to last; the result keeps the record invariant |
| `Messages.RunAppend` | test/messages.e2e-spec.ts:207-271 | running two sequences one after the other is running their concatenation |
| `Messages.StepFollows` | test/messages.e2e-spec.ts:85-132 | every transition keeps id, conversation, sender, creation time and reactions, and a deleted message stays deleted with the placeholder text |
| `Messages.RunPreservesInvariants` | test/messages.e2e-spec.ts:207-271 | after any sequence of transitions: the invariant holds; id, conversation, sender, creation time and reactions are unchanged; the text is the original or the placeholder; deletion is never undone; a sequence containing a delete ends deleted |
| `Messages.InConversation` | test/messages.e2e-spec.ts:112-132 | the conversation's listing holds exactly its stored messages, deleted ones included |
| `Messages.InConversationAppend` | test/messages.e2e-spec.ts:112-132 | a message stored after the others comes last in its conversation's listing, so the listing is in creation order |
| `TagSearch.Summarize` | src/message/message.data.spec.ts:194-198 | what a group reports about a message: its text as `message`, its sender and its tags |
| `TagSearch.GroupKey` | src/message/message.data.spec.ts:190-200 | the key is sorted and duplicate-free and holds exactly the query ids that the message's tags carry |
| `TagSearch.SameKeyIffSameMatches` | src/message/message.data.spec.ts:190-200 | two tag lists get the same key if and only if they carry the same query ids |
| `TagSearch.Selected` | src/message/message.data.spec.ts:185-206 | a message takes part in the search exactly when it is in one of the conversations, is not deleted, and carries at least one query id |
| `TagSearch.MembersWithKey` | src/message/message.data.spec.ts:190-202 | reference definition of a group: the summaries of the selected messages whose key is `k`, in creation order |
| `TagSearch.MemberHasKey` | src/message/message.data.spec.ts:190-202 | each member of a group is the summary of a stored, selected message with that key |
| `TagSearch.MemberOfOwnKey` | src/message/message.data.spec.ts:190-202 | each selected message is a member of the group of its key |
| `TagSearch.AddToGroups` | src/message/message.data.spec.ts:190-202 | filing a summary keeps the existing groups' keys in place and adds at most one group, with that key |
| `TagSearch.AddToGroupsSpec` | src/message/message.data.spec.ts:190-202 | filing keeps keys distinct, groups non-empty and `tagId` equal to the key; it appends the summary to the group of its key and changes no other group |
| `TagSearch.AddToGroupsAtHead` | src/message/message.data.spec.ts:190-202 | the same, when the key's group is the first group |
| `TagSearch.AddToGroupsPastHead` | src/message/message.data.spec.ts:190-202 | the same, when the key's group is not the first group |
| `TagSearch.LookupAt` | src/message/message.data.spec.ts:190-202 | in well-formed groups, looking a group's key up finds that group's messages |
| `TagSearch.LookupFound` | src/message/message.data.spec.ts:190-202 | a key with messages has a group |
| `TagSearch.LookupMissing` | src/message/message.data.spec.ts:190-202 | a key without a group has no messages |
| `TagSearch.AddToGroupsKeys` | src/message/message.data.spec.ts:190-202 | filing under a key already present adds no group; filing under a new key adds it as the last group |
| `TagSearch.Grouped` | src/message/message.data.spec.ts:190-202 | the grouping of the selected messages, built message by message; at most one group per message |
| `TagSearch.GroupedSpec` | src/message/message.data.spec.ts:190-202 | the grouping is well formed and the group of each key holds exactly the reference definition's members |
| `TagSearch.GroupedCharacterized` | src/message/message.data.spec.ts:190-202 | distinct keys; `tagId` repeats `_id`; a group's messages are exactly the selected messages with its key, in creation order; a group exists for every key some selected message has |
| `TagSearch.FirstWithKey` | src/message/message.data.spec.ts:190-202 | the position of the first selected message with a key, at most the number of messages |
| `TagSearch.FirstWithKeySpec` | src/message/message.data.spec.ts:190-202 | the message at that position is selected and has the key, and no earlier message is both |
| `TagSearch.OrderedByFirstExtend` | src/message/message.data.spec.ts:190-202 | appending a message keeps existing groups in first-message order; a new last group whose first message is the appended one keeps it too |
| `TagSearch.NewKeyFirst` | src/message/message.data.spec.ts:190-202 | a key that no earlier group has first occurs at the appended message |
| `TagSearch.GroupsInFirstAppearanceOrder` | src/message/message.data.spec.ts:190-202 | every group has a first message, and earlier groups have strictly earlier first messages |
| `TagSearch.GroupKeysAreCombinations` | src/message/message.data.spec.ts:190-200 | every group key is a non-empty, sorted, duplicate-free combination of query ids |
| `TagSearch.SameMatchesSameGroup` | src/message/message.data.spec.ts:190-202 | two selected messages carrying the same query ids share a group |
| `TagSearch.DifferentMatchesDifferentGroups` | src/message/message.data.spec.ts:190-202 | selected messages carrying different query ids never share a group |
| `TagSearch.UnmatchedExcluded` | src/message/message.data.spec.ts:185-206 | a message none of whose tags is in the query (the one tagged only `tag3`) is in no group |
| `TagSearch.GetMessagesByTags` | src/message/message.data.spec.ts:204-206 | rejected exactly when `limit <= 0`; otherwise at most `limit` groups, a prefix of the full grouping, and all of it when fewer than `limit` groups come back |
| `TagSearch.SearchResult` | src/message/message.data.spec.ts:179-207 | a successful search returns at most `limit` groups with distinct keys; `tagId` equals the key; each group holds exactly the selected messages with its key; when fewer than `limit` groups come back, every selected message is in the group of its key |
| `TagSearch.SearchKeepsEarliestGroups` | src/message/message.data.spec.ts:204-206 | the returned groups are in first-message order, and every group the limit cuts off has its first message after those of all returned groups |
| `MessageStore.IndexedExtend` | src/message/message.data.spec.ts:78-98 | storing a well-formed record under the next id keeps ids contiguous, each record under its own id, all well formed |
| `MessageStore.OrderedExtend` | test/messages.e2e-spec.ts:112-123 | storing a record under the next id appends it to the creation-order listing |
| `MessageStore.OrderedReplace` | src/message/message.data.spec.ts:141-145 | replacing the record under an id in use changes the listing at that position only |
| `MessageStore.MessageData.constructor` | src/message/message.data.spec.ts:59-63 | a store starts empty |
| `MessageStore.MessageData.Listing` | test/messages.e2e-spec.ts:112-123 | the stored messages in creation order: one per id, each the record stored under it |
| `MessageStore.MessageData.GetMessage` | src/message/message.data.spec.ts:161-171 | succeeds exactly when the id is stored, with the stored record; otherwise fails with `MessageNotFound` |
| `MessageStore.MessageData.Create` | src/message/message.data.spec.ts:78-98 | the new message has a fresh id, no likes, count 0, is neither resolved nor deleted, has no reactions; text, sender and conversation are as given; tags are the given list or none; `getMessage` returns it; it is appended to the listing and nothing else changes |
| `MessageStore.MessageData.Put` | src/message/message.data.spec.ts:141-145 | a changed record is written back under its id, and only one that keeps id, conversation, sender, creation time and reactions and never clears `deleted`; the listing changes at that position only |
| `MessageStore.MessageData.UpdateTags` | src/message/message.data.spec.ts:132-152 | on a stored id the tags are replaced wholesale and the change persists; on a missing id it fails with "Could not update tags on message" and changes nothing |
| `MessageStore.MessageData.Like` | test/messages.e2e-spec.ts:147-164 | on a stored id the record becomes `Liked` of the old one and persists; on a missing id it fails and changes nothing |
| `MessageStore.MessageData.Unlike` | test/messages.e2e-spec.ts:188-204 | on a stored id the record becomes `Unliked` of the old one and persists; on a missing id it fails and changes nothing |
| `MessageStore.MessageData.SetResolved` | test/messages.e2e-spec.ts:352-400 | on a stored id the resolved flag takes the given value; on a missing id it fails and changes nothing |
| `MessageStore.MessageData.Resolve` | test/messages.e2e-spec.ts:352-365 | on a stored id the message becomes resolved with everything else kept; on a missing id it fails |
| `MessageStore.MessageData.Unresolve` | test/messages.e2e-spec.ts:386-400 | on a stored id the message becomes unresolved with everything else kept; on a missing id it fails |
| `MessageStore.MessageData.Delete` | src/message/message.data.spec.ts:210-227 | on a stored id the record is soft-deleted in place and stays retrievable; on a missing id it fails and changes nothing |
| `MessageDataScenarios.CreatesMessage` | src/message/message.data.spec.ts:78-98 | the created message has no likes, count 0, is not resolved or deleted, has no reactions or tags, and carries the given text, sender and conversation |
| `MessageDataScenarios.UpdatesTags` | src/message/message.data.spec.ts:107-146 | created with `[tag1, tag2]`, no likes, count 0, not resolved or deleted, no reactions, the given text, sender and conversation; after the update the message is the same with tags exactly `[tag1, tag2, tag3]`; reading it back gives the updated message |
| `MessageDataScenarios.UpdateTagsOnMissingMessageFails` | src/message/message.data.spec.ts:148-152 | a tag update on an empty store fails with "Could not update tags on message" |
| `MessageDataScenarios.GetsMessage` | src/message/message.data.spec.ts:161-171 | reading a message right after creating it gives the created message |
| `MessageDataScenarios.FiltersByTags` | src/message/message.data.spec.ts:179-207 | querying with the first message's tags `[tag1, tag2]` gives exactly one group with `_id` and `tagId` `["tag1","tag2"]`, holding `{message: "Hello world", senderId, tags}` only; the message tagged `tag3` is excluded |
| `MessageDataScenarios.KeyOfFirst` | src/message/message.data.spec.ts:185-200 | the first message's tags `[tag1, tag2]`, queried with themselves, have the key `["tag1","tag2"]` |
| `MessageDataScenarios.KeyOfSecond` | src/message/message.data.spec.ts:185-200 | the second message's tags `[tag3]` match none of the query ids |
| `MessageDataScenarios.OneSelectedOfTwo` | src/message/message.data.spec.ts:185-206 | when only the first of two messages is selected, the grouping is a single group of that message under its key |
| `MessageDataScenarios.FilterExample` | src/message/message.data.spec.ts:185-206 | the search with limit 5 over the two created messages gives the single group `["tag1","tag2"]` holding the first message's summary |
| `MessageDataScenarios.MarksDeleted` | src/message/message.data.spec.ts:210-227 | a new message is not deleted; deleting it returns it flagged deleted; reading it back still succeeds and shows it deleted |
| `MessageEndToEndScenarios.SendsMessage` | test/messages.e2e-spec.ts:56-77 | a sent message has the given text and sender, is not resolved or deleted, has no tags, and carries the creation time it was given |
| `MessageEndToEndScenarios.DeletesMessage` | test/messages.e2e-spec.ts:85-132 | deleting keeps the id and sender, sets `deleted` and replaces the text with "This message has been deleted"; the conversation's listing still holds it, scrubbed |
| `MessageEndToEndScenarios.LikesMessage` | test/messages.e2e-spec.ts:136-165 | after user 1 likes: likes `[u1]`, count 1, same id, text and sender |
| `MessageEndToEndScenarios.UnlikesMessage` | test/messages.e2e-spec.ts:167-205 | like then unlike by the same user: the same message id, likes `[]`, count 0, sender kept |
| `MessageEndToEndScenarios.LikeUnlikeUseCase` | test/messages.e2e-spec.ts:207-271 | user 1 likes, user 2 likes, user 1 unlikes: `[u1]`/1, then `[u1,u2]`/2, then `[u2]`/1; every result has the sent message's id and sender |
| `MessageEndToEndScenarios.UpdatesMessageTags` | test/messages.e2e-spec.ts:275-300 | a message sent without tags, after the update, has exactly `[{id: "course", type: subTopic}]` |
| `MessageEndToEndScenarios.CourseSearch` | test/messages.e2e-spec.ts:302-338 | a search for `course` with limit 2 over one live message tagged `course` gives one group `["course"]` holding its summary |
| `MessageEndToEndScenarios.GetsMessagesByTags` | test/messages.e2e-spec.ts:302-338 | searching with the one tag `course` (limit 2) gives a single group with `_id` and `tagId` `["course"]` holding that message's `{message, senderId, tags}` |
| `MessageEndToEndScenarios.ResolvesMessage` | test/messages.e2e-spec.ts:342-366 | resolving sets `resolved` and keeps id, text and sender |
| `MessageEndToEndScenarios.UnresolvesMessage` | test/messages.e2e-spec.ts:368-401 | resolve then unresolve leaves `resolved` false and keeps id, text and sender |

## Left out

- GraphQL transport, the request snippets, the authenticated clients and the mock user service (test/messages.e2e-spec.ts:1-54): these are transport and an external HTTP mock.
- The Mongoose/Nest testing module and the `deleteMany` cleanup between tests (src/message/message.data.spec.ts:27-67): database plumbing. Each scenario starts from a fresh store instead.
- `ObjectID` generation and hex conversion: ids are opaque naturals handed out by a counter, and user ids are strings.
- The check that `created` is later than ten seconds before `Date.now()` (test/messages.e2e-spec.ts:65-82): this is wall-clock time. `created` is whatever timestamp the caller passes.
- Sender and conversation enrichment (`sender: {id}`, `conversation: {id: hex}` at src/message/message.data.spec.ts:94-96): a join done by the persistence layer. Records carry the raw ids.
- `isSenderBlocked` (test/messages.e2e-spec.ts:130): it belongs to the conversation permission layer.
- Field projection of the GraphQL responses, such as `likes` being undefined at test/messages.e2e-spec.ts:145: which fields appear depends on the query, not on the store.
- MessageEndToEndScenarios.GetsMessagesByTags: the tags in its result keep the caller's `_id` (`persistedId`). The end-to-end test compares them with that field projected away (test/messages.e2e-spec.ts:312, 332).
- Assigning a persistence `_id` to stored tag subdocuments: the database does this and the tests do not observe it. Stored tags are exactly the tags given.
- The limit and the ordering of the conversation message listing (test/messages.e2e-spec.ts:112-121): `Messages.InConversation` returns every message of the conversation, in creation order (`Messages.InConversationAppend`).
- Rejecting a create with an empty text or conversation id: no test exercises it, so `Create` accepts any text.
- Concurrency and the atomicity of concurrent updates: operations are sequential, so there are no conflict retries.
- src/conversation/models/CreateChatConversation.dto.ts: a decorator-only DTO with no behaviour.
- The Swagger and GraphQL decorators and `registerEnumType` (src/utils/dto.utils.ts:9-11): schema metadata only.
