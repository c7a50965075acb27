/**
 * The value types shared by every part of the tagger: tags, tag diffs and
 * tagging results. All of them compare structurally, as their Python
 * counterparts do through `__eq__`.
 */
module Model {
  import opened Results

  /** A key/value tag. */
  datatype Tag = Tag(key: string, value: string)

  /** How a tag of the resource relates to the desired tag schema. */
  datatype TagDiffType = Existing | NewValue | New | ExistingNotInSchema

  /**
   * One line of a tag comparison. The Python sentinel `Tag(None, None)`
   * ("no corresponding tag") is `None` here.
   */
  datatype TagDiff = TagDiff(oldTag: Option<Tag>, newTag: Option<Tag>, diffType: TagDiffType)

  /** Outcome of a tagging call: ARNs tagged, and ARNs that failed with their error message. */
  datatype TaggingResult = TaggingResult(successfulArns: seq<string>, failedArns: map<string, string>)

  const EmptyResult := TaggingResult([], map[])

  /** The keys of a list of tags, in order: `[tag.key for tag in tags]`. */
  function Keys(tags: seq<Tag>): (ks: seq<string>)
    ensures |ks| == |tags|
    ensures forall i :: 0 <= i < |tags| ==> ks[i] == tags[i].key
  {
    seq(|tags|, i requires 0 <= i < |tags| => tags[i].key)
  }
}
