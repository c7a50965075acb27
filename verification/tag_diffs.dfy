/**
 * A resource paired with its tag diffs (taggercore/model/resource_with_tag_diffs.py)
 * and the verdict whether it is properly tagged.
 */
module TagDiffs {
  import opened Results
  import opened Seqs
  import opened Model
  import opened Resources

  /** `diff_type_is_proper`: the tag is already as the schema wants, or outside the schema. */
  predicate IsProper(diffType: TagDiffType) {
    diffType == Existing || diffType == ExistingNotInSchema
  }

  /** `properly_tagged` as the source computes it: the proper diffs are all the diffs. */
  predicate ProperlyTagged(diffs: seq<TagDiff>) {
    |Filter(diffs, (d: TagDiff) => IsProper(d.diffType))| == |diffs|
  }

  datatype ResourceWithTagDiffs = ResourceWithTagDiffs(resource: Resource, tagDiffs: seq<TagDiff>)
  {
    function Service(): string { resource.service }
    function Region(): string { resource.region }
    function Arn(): string { resource.arn }
    function Type(): string { resource.resourceType }

    predicate IsProperlyTagged() {
      ProperlyTagged(tagDiffs)
    }
  }

  /** Properly tagged exactly when no diff is NEW or NEW_VALUE. */
  lemma ProperlyTaggedIffAllProper(diffs: seq<TagDiff>)
    ensures ProperlyTagged(diffs) <==> forall i :: 0 <= i < |diffs| ==> IsProper(diffs[i].diffType)
    ensures ProperlyTagged(diffs) <==> forall i :: 0 <= i < |diffs| ==> diffs[i].diffType != New && diffs[i].diffType != NewValue
  {
    FilterKeepsAll(diffs, (d: TagDiff) => IsProper(d.diffType));
  }

  /** An empty diff list is properly tagged. */
  lemma NoDiffsIsProper()
    ensures ProperlyTagged([])
  {
  }

  /** One NEW or NEW_VALUE diff anywhere makes a resource improperly tagged. */
  lemma OneImproperDiffSpoils(diffs: seq<TagDiff>, i: nat)
    requires i < |diffs|
    requires diffs[i].diffType == New || diffs[i].diffType == NewValue
    ensures !ProperlyTagged(diffs)
  {
    ProperlyTaggedIffAllProper(diffs);
  }

  /** The verdict does not depend on the order of the diffs. */
  lemma ProperlyTaggedIgnoresOrder(d1: seq<TagDiff>, d2: seq<TagDiff>)
    requires multiset(d1) == multiset(d2)
    ensures ProperlyTagged(d1) <==> ProperlyTagged(d2)
  {
    ProperlyTaggedIffAllProper(d1);
    ProperlyTaggedIffAllProper(d2);
    forall i | 0 <= i < |d1| ensures d1[i] in multiset(d2) {
      assert d1[i] in multiset(d1);
    }
    forall i | 0 <= i < |d2| ensures d2[i] in multiset(d1) {
      assert d2[i] in multiset(d2);
    }
  }

  /** The wrapper reports the service, region, ARN and type of the wrapped resource. */
  lemma AccessorsDelegate(r: Resource, diffs: seq<TagDiff>)
    ensures var w := ResourceWithTagDiffs(r, diffs);
            w.Service() == r.service && w.Region() == r.region && w.Arn() == r.arn && w.Type() == r.resourceType
  {
  }

  /**
   * The reconciliation verdict: comparing current tags with a desired
   * schema yields a properly tagged resource exactly when every desired
   * tag, key and value, is already among the current tags.
   */
  lemma {:induction false} ProperlyTaggedIffDesiredPresent(current: seq<Tag>, desired: seq<Tag>)
    ensures ProperlyTagged(CompareTags(current, desired)) <==> forall d :: d in desired ==> d in current
  {
    var diffs := CompareTags(current, desired);
    CompareTagsSpec(current, desired);
    ProperlyTaggedIffAllProper(diffs);
    if forall d :: d in desired ==> d in current {
      forall i | 0 <= i < |diffs| ensures IsProper(diffs[i].diffType) {
        if i < |desired| {
          assert desired[i] in current;
        }
      }
    }
    if ProperlyTagged(diffs) {
      forall d | d in desired ensures d in current {
        var i :| 0 <= i < |desired| && desired[i] == d;
        assert IsProper(diffs[i].diffType);
      }
    }
  }
}
