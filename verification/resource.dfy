/**
 * A scanned cloud resource (taggercore/model/resource.py): its ARN and the
 * fields parsed from it, plus the tag comparison against a desired schema.
 */
module Resources {
  import opened Results
  import opened Text
  import opened Seqs
  import opened Model

  /**
   * `service` and `region` are the third and fourth `:`-separated fields of
   * the ARN the resource was built from; `name` is the `name` keyword
   * argument, the only one the tagger reads.
   */
  datatype Resource = Resource(
    arn: string,
    id: string,
    service: string,
    region: string,
    resourceType: string,
    currentTags: seq<Tag>,
    name: Option<string>)
  {
    /** `__eq__`: two resources are equal exactly when their ARNs are. */
    predicate Equals(other: Resource) {
      arn == other.arn
    }

    /** `__hash__` hashes the key `arn`. */
    function HashKey(): string {
      arn
    }

    /** The `arn` setter: only the ARN changes. */
    function WithArn(newArn: string): Resource {
      this.(arn := newArn)
    }
  }

  /** The ARN had fewer than four `:`-separated fields (Python raises IndexError). */
  datatype ResourceError = MalformedArn(arn: string)

  /** `Resource.__init__`. */
  function NewResource(arn: string, id: string, resourceType: string, currentTags: seq<Tag>, name: Option<string>)
    : (r: Result<Resource, ResourceError>)
    ensures r.Success? <==> |Split(arn, ":")| >= 4
    ensures r.Failure? ==> r.error == MalformedArn(arn)
    ensures r.Success? ==> r.value.arn == arn && r.value.id == id && r.value.resourceType == resourceType
                           && r.value.currentTags == currentTags && r.value.name == name
  {
    var fields := Split(arn, ":");
    if |fields| < 4 then Failure(MalformedArn(arn))
    else Success(Resource(arn, id, fields[2], fields[3], resourceType, currentTags, name))
  }

  /** The resource fields come from the `:`-separated fields of the ARN. */
  lemma FieldsOfArn(fields: seq<string>, id: string, resourceType: string, currentTags: seq<Tag>, name: Option<string>)
    requires |fields| >= 4
    requires forall k :: 0 <= k < |fields| ==> ':' !in fields[k]
    ensures var r := NewResource(Join(fields, ":"), id, resourceType, currentTags, name);
            r.Success? && r.value.service == fields[2] && r.value.region == fields[3]
  {
    SplitJoinChar(fields, ':');
  }

  /**
   * For an ARN `arn:partition:service:region:account...` whose fields hold
   * no `:`, the service and region are the third and fourth fields.
   */
  lemma ServiceAndRegionFromArn(partition: string, service: string, region: string, rest: seq<string>,
                                id: string, resourceType: string, currentTags: seq<Tag>, name: Option<string>)
    requires ':' !in partition && ':' !in service && ':' !in region
    requires forall k :: 0 <= k < |rest| ==> ':' !in rest[k]
    ensures var r := NewResource(Join(["arn", partition, service, region] + rest, ":"), id, resourceType, currentTags, name);
            r.Success? && r.value.service == service && r.value.region == region
  {
    var fields := ["arn", partition, service, region] + rest;
    ColonFreeFields(partition, service, region, rest);
    FieldsOfArn(fields, id, resourceType, currentTags, name);
  }

  lemma ColonFreeFields(partition: string, service: string, region: string, rest: seq<string>)
    requires ':' !in partition && ':' !in service && ':' !in region
    requires forall k :: 0 <= k < |rest| ==> ':' !in rest[k]
    ensures var fields := ["arn", partition, service, region] + rest;
            forall k :: 0 <= k < |fields| ==> ':' !in fields[k]
  {
    var fields := ["arn", partition, service, region] + rest;
    assert ':' !in "arn";
    forall k | 0 <= k < |fields|
      ensures ':' !in fields[k]
    {
      if k >= 4 {
        assert fields[k] == rest[k - 4];
      }
    }
  }

  /** A global ARN such as `arn:aws:iam::111111111111:role/some-role` has an empty region. */
  lemma GlobalArnHasEmptyRegion(account: string, path: string)
    requires ':' !in account && ':' !in path
    ensures var r := NewResource(Join(["arn", "aws", "iam", "", account, path], ":"), "some-role", "role", [], None);
            r.Success? && r.value.service == "iam" && r.value.region == ""
  {
    assert ':' !in "aws" && ':' !in "iam";
    assert ["arn", "aws", "iam", "", account, path] == ["arn", "aws", "iam", ""] + [account, path];
    ServiceAndRegionFromArn("aws", "iam", "", [account, path], "some-role", "role", [], None);
  }

  /** An ARN with fewer than four fields cannot be turned into a resource. */
  lemma ShortArnIsRejected(a: string, b: string, c: string)
    requires ':' !in a && ':' !in b && ':' !in c
    ensures NewResource(Join([a, b, c], ":"), "", "", [], None).Failure?
  {
    SplitJoinChar([a, b, c], ':');
  }

  /** Resources built from the same ARN are equal, whatever their id, type or tags. */
  lemma EqualityIsByArn(arn: string, id1: string, type1: string, tags1: seq<Tag>, name1: Option<string>,
                        id2: string, type2: string, tags2: seq<Tag>, name2: Option<string>)
    requires NewResource(arn, id1, type1, tags1, name1).Success?
    ensures var r1 := NewResource(arn, id1, type1, tags1, name1);
            var r2 := NewResource(arn, id2, type2, tags2, name2);
            r2.Success? && r1.value.Equals(r2.value) && r1.value.HashKey() == r2.value.HashKey()
            && r1.value.service == r2.value.service && r1.value.region == r2.value.region
  {
  }

  /** Setting the ARN keeps the service and region parsed from the original ARN. */
  lemma WithArnKeepsParsedFields(r: Resource, newArn: string)
    ensures r.WithArn(newArn).arn == newArn
    ensures r.WithArn(newArn).service == r.service && r.WithArn(newArn).region == r.region
    ensures r.WithArn(newArn).id == r.id && r.WithArn(newArn).resourceType == r.resourceType
    ensures r.WithArn(newArn).currentTags == r.currentTags && r.WithArn(newArn).name == r.name
  {
  }

  // ---------------------------------------------------------------------
  // compare_tags

  /** Index of the first tag with key `key`: the `next(...)` in compare_tags. */
  function FirstIndexWithKey(tags: seq<Tag>, key: string): (i: nat)
    requires key in Keys(tags)
    ensures i < |tags| && tags[i].key == key
    ensures forall j :: 0 <= j < i ==> tags[j].key != key
  {
    if tags[0].key == key then 0
    else
      assert key in Keys(tags[1..]) by {
        var k :| 0 <= k < |tags| && Keys(tags)[k] == key;
        assert Keys(tags[1..])[k - 1] == key;
      }
      FirstIndexWithKey(tags[1..], key) + 1
  }

  /** The diff for one desired tag (the body of the first loop of compare_tags). */
  function DesiredDiff(current: seq<Tag>, desired: Tag): TagDiff {
    if desired in current then TagDiff(Some(desired), Some(desired), Existing)
    else if desired.key in Keys(current) then
      TagDiff(Some(current[FirstIndexWithKey(current, desired.key)]), Some(desired), NewValue)
    else TagDiff(None, Some(desired), New)
  }

  /** The current tags whose key is not a desired key, in order and with duplicates. */
  function NotInSchema(current: seq<Tag>, desired: seq<Tag>): seq<Tag> {
    Filter(current, (t: Tag) => t.key !in Keys(desired))
  }

  /** `Resource.compare_tags(new_tags)` applied to the resource's `current_tags`. */
  function CompareTags(current: seq<Tag>, desired: seq<Tag>): seq<TagDiff> {
    Map(desired, (d: Tag) => DesiredDiff(current, d))
      + Map(NotInSchema(current, desired), (t: Tag) => TagDiff(Some(t), None, ExistingNotInSchema))
  }

  /**
   * What compare_tags promises: one diff per desired tag, in order, whose
   * type is decided by what the current tags hold, followed by one
   * EXISTING_NOT_IN_SCHEMA diff per current tag outside the schema.
   */
  lemma CompareTagsSpec(current: seq<Tag>, desired: seq<Tag>)
    ensures var diffs := CompareTags(current, desired);
      && |diffs| == |desired| + |NotInSchema(current, desired)|
      && (forall i :: 0 <= i < |desired| ==> diffs[i].newTag == Some(desired[i]))
      && (forall i :: 0 <= i < |desired| ==>
            (diffs[i].diffType == Existing <==> desired[i] in current))
      && (forall i :: 0 <= i < |desired| && diffs[i].diffType == Existing ==>
            diffs[i].oldTag == Some(desired[i]))
      && (forall i :: 0 <= i < |desired| ==>
            (diffs[i].diffType == NewValue <==> desired[i] !in current && desired[i].key in Keys(current)))
      && (forall i :: 0 <= i < |desired| && diffs[i].diffType == NewValue ==>
            exists j :: 0 <= j < |current| && diffs[i].oldTag == Some(current[j]) && current[j].key == desired[i].key
                        && forall m :: 0 <= m < j ==> current[m].key != desired[i].key)
      && (forall i :: 0 <= i < |desired| ==>
            (diffs[i].diffType == New <==> desired[i].key !in Keys(current)))
      && (forall i :: 0 <= i < |desired| && diffs[i].diffType == New ==> diffs[i].oldTag == None)
      && (forall k :: |desired| <= k < |diffs| ==>
            diffs[k] == TagDiff(Some(NotInSchema(current, desired)[k - |desired|]), None, ExistingNotInSchema))
  {
    var diffs := CompareTags(current, desired);
    forall i | 0 <= i < |desired| && desired[i] in current
      ensures desired[i].key in Keys(current)
    {
      var j :| 0 <= j < |current| && current[j] == desired[i];
      assert Keys(current)[j] == desired[i].key;
    }
    forall i | 0 <= i < |desired| && diffs[i].diffType == NewValue
      ensures exists j :: 0 <= j < |current| && diffs[i].oldTag == Some(current[j]) && current[j].key == desired[i].key
                          && forall m :: 0 <= m < j ==> current[m].key != desired[i].key
    {
      var j := FirstIndexWithKey(current, desired[i].key);
      assert diffs[i].oldTag == Some(current[j]);
    }
  }

  /**
   * The EXISTING_NOT_IN_SCHEMA entries are exactly the current tags whose
   * key no desired tag has, in order.
   */
  lemma NotInSchemaSpec(current: seq<Tag>, desired: seq<Tag>)
    ensures var extra := NotInSchema(current, desired);
      && (forall k :: 0 <= k < |extra| ==> extra[k] in current && extra[k].key !in Keys(desired))
      && (forall t :: t in current && t.key !in Keys(desired) ==> t in extra)
  {
  }
}
