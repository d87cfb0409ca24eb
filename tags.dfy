/** The tag value types attached to chat messages (src/utils/dto.utils.ts). */
module Tags {
  import opened Wrappers

  /** The kind of a tag. The enumeration is closed and has a single member. */
  datatype TagType = SubTopic

  /** The string value that the enumeration member carries. */
  function TagTypeValue(t: TagType): string
  {
    match t
    case SubTopic => "subTopic"
  }

  /** Reads an enumeration value back; any other string is not a tag type. */
  function ParseTagType(s: string): (r: Option<TagType>)
    ensures r.Some? ==> TagTypeValue(r.value) == s
    ensures r.None? ==> forall t: TagType :: TagTypeValue(t) != s
  {
    if s == "subTopic" then Some(SubTopic) else None
  }

  lemma TagTypeRoundTrip(t: TagType)
    ensures ParseTagType(TagTypeValue(t)) == Some(t)
  {
  }

  /**
   * A topical label. `persistedId` is the optional persistence identifier (callers may
   * leave it out), `id` the caller-supplied label, `tagType` its kind.
   */
  datatype Tag = Tag(persistedId: Option<string>, id: string, tagType: TagType)

  /** The labels of a tag list, position by position. */
  function TagIds(tags: seq<Tag>): (ids: seq<string>)
    ensures |ids| == |tags|
    ensures forall i :: 0 <= i < |tags| ==> ids[i] == tags[i].id
  {
    if tags == [] then [] else [tags[0].id] + TagIds(tags[1..])
  }
}
