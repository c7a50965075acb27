/**
 * Turning scanned cloud items into resources (taggercore/scanner): mapping
 * an item to a `Resource`, the stable sort by (service, resource type), the
 * region and global scans over the items a scan produced, and pairing the
 * scanned resources with their tag diffs (usecase/scan_and_compare.py).
 */
module Scanner {
  import opened Results
  import opened Seqs
  import opened Text
  import opened Model
  import opened Resources
  import opened TagDiffs
  import opened Ordering
  import opened ArnManipulation
  import SuperTagger

  /** An item as the scanning library yields it; `tags` is its tag dict in iteration order. */
  datatype ScannedItem = ScannedItem(arn: string, id: string, resourceType: string,
                                     tags: seq<(string, string)>, name: Option<string>)

  /** `create_resource`: the ARN, id, type and name are copied; each tag dict entry becomes a `Tag`, in order. */
  function CreateResource(item: ScannedItem): (r: Result<Resource, ResourceError>)
    ensures r.Success? <==> |Split(item.arn, ":")| >= 4
    ensures r.Success? ==> r.value.arn == item.arn && r.value.id == item.id &&
                           r.value.resourceType == item.resourceType && r.value.name == item.name
    ensures r.Success? ==> |r.value.currentTags| == |item.tags|
    ensures r.Success? ==> forall i :: 0 <= i < |item.tags| ==> r.value.currentTags[i] == Tag(item.tags[i].0, item.tags[i].1)
  {
    NewResource(item.arn, item.id, item.resourceType, Map(item.tags, (p: (string, string)) => Tag(p.0, p.1)), item.name)
  }

  /** The sort key `(x.service, x.resource_type)`, compared as a Python tuple. */
  predicate SortKeyLe(x: Resource, y: Resource) {
    StrLe(x.service, y.service) && (x.service == y.service ==> StrLe(x.resourceType, y.resourceType))
  }

  predicate SameSortKey(x: Resource, y: Resource) {
    x.service == y.service && x.resourceType == y.resourceType
  }

  lemma SortKeyTotal(x: Resource, y: Resource)
    ensures SortKeyLe(x, y) || SortKeyLe(y, x)
    ensures SortKeyLe(x, y) && SortKeyLe(y, x) ==> SameSortKey(x, y)
    ensures SameSortKey(x, y) ==> SortKeyLe(x, y)
  {
    StrLeTotal(x.service, y.service);
    StrLeTotal(x.resourceType, y.resourceType);
    if StrLe(x.service, y.service) && StrLe(y.service, x.service) {
      StrLeAntisymmetric(x.service, y.service);
    }
    if x.service == y.service && StrLe(x.resourceType, y.resourceType) && StrLe(y.resourceType, x.resourceType) {
      StrLeAntisymmetric(x.resourceType, y.resourceType);
    }
    StrLeReflexive(x.service);
    StrLeReflexive(x.resourceType);
  }

  lemma SortKeyTransitive(x: Resource, y: Resource, z: Resource)
    requires SortKeyLe(x, y) && SortKeyLe(y, z)
    ensures SortKeyLe(x, z)
  {
    StrLeTransitive(x.service, y.service, z.service);
    if x.service == z.service {
      StrLeAntisymmetric(x.service, y.service);
      StrLeTransitive(x.resourceType, y.resourceType, z.resourceType);
    }
  }

  predicate SortedByKey(s: seq<Resource>) {
    forall i, j :: 0 <= i < j < |s| ==> SortKeyLe(s[i], s[j])
  }

  /** `[x]` when `x` has sort key `(service, resourceType)`, else `[]`. */
  function KeyClass(x: Resource, service: string, resourceType: string): seq<Resource> {
    if x.service == service && x.resourceType == resourceType then [x] else []
  }

  /** The elements of `s` with sort key `(service, resourceType)`, in order. */
  function WithSortKey(s: seq<Resource>, service: string, resourceType: string): seq<Resource> {
    if |s| == 0 then []
    else WithSortKey(s[..|s| - 1], service, resourceType) + KeyClass(s[|s| - 1], service, resourceType)
  }

  /** Inserts `x` after every element whose key is at most its key. */
  function Insert(s: seq<Resource>, x: Resource): (r: seq<Resource>)
    ensures multiset(r) == multiset(s) + multiset{x}
  {
    if |s| == 0 then [x]
    else if SortKeyLe(s[|s| - 1], x) then s + [x]
    else
      assert s == s[..|s| - 1] + [s[|s| - 1]];
      Insert(s[..|s| - 1], x) + [s[|s| - 1]]
  }

  /** `sort_resources`: Python's stable `sorted` by `(service, resource_type)`. */
  function SortResources(s: seq<Resource>): (r: seq<Resource>)
    ensures multiset(r) == multiset(s)
  {
    if |s| == 0 then []
    else
      assert s == s[..|s| - 1] + [s[|s| - 1]];
      Insert(SortResources(s[..|s| - 1]), s[|s| - 1])
  }

  lemma WithSortKeyAppend(s: seq<Resource>, x: Resource, service: string, resourceType: string)
    ensures WithSortKey(s + [x], service, resourceType) == WithSortKey(s, service, resourceType) + KeyClass(x, service, resourceType)
  {
    assert (s + [x])[..|s|] == s;
  }

  /** Inserting into a sorted list keeps it sorted. */
  lemma {:induction false} InsertSorted(s: seq<Resource>, x: Resource)
    requires SortedByKey(s)
    ensures SortedByKey(Insert(s, x))
  {
    if |s| == 0 {
    } else if SortKeyLe(s[|s| - 1], x) {
      forall i, j | 0 <= i < j < |s| + 1 ensures SortKeyLe((s + [x])[i], (s + [x])[j]) {
        if j == |s| && i < |s| - 1 {
          SortKeyTransitive(s[i], s[|s| - 1], x);
        }
      }
    } else {
      var init := s[..|s| - 1];
      var last := s[|s| - 1];
      InsertSorted(init, x);
      var mid := Insert(init, x);
      SortKeyTotal(last, x);
      forall i, j | 0 <= i < j < |mid| + 1 ensures SortKeyLe((mid + [last])[i], (mid + [last])[j]) {
        if j == |mid| {
          var e := mid[i];
          assert e in multiset(mid);
          if e != x {
            assert e in init;
            var k :| 0 <= k < |init| && init[k] == e;
            assert SortKeyLe(s[k], s[|s| - 1]);
          }
        }
      }
    }
  }

  /** Inserting appends `x` to its key class and leaves every other class alone. */
  lemma {:induction false} InsertStable(s: seq<Resource>, x: Resource, service: string, resourceType: string)
    ensures WithSortKey(Insert(s, x), service, resourceType) ==
      WithSortKey(s, service, resourceType) + KeyClass(x, service, resourceType)
  {
    if |s| == 0 {
      assert [x] == [] + [x];
      WithSortKeyAppend([], x, service, resourceType);
    } else if SortKeyLe(s[|s| - 1], x) {
      WithSortKeyAppend(s, x, service, resourceType);
    } else {
      var init := s[..|s| - 1];
      var last := s[|s| - 1];
      assert s == init + [last];
      InsertStable(init, x, service, resourceType);
      InsertStableStep(init, last, x, service, resourceType);
      assert Insert(s, x) == Insert(init, x) + [last];
    }
  }

  /** The step of `InsertStable` where `x` goes before the last element, whose key is greater. */
  lemma InsertStableStep(init: seq<Resource>, last: Resource, x: Resource, service: string, resourceType: string)
    requires !SortKeyLe(last, x)
    requires WithSortKey(Insert(init, x), service, resourceType) ==
      WithSortKey(init, service, resourceType) + KeyClass(x, service, resourceType)
    ensures WithSortKey(Insert(init, x) + [last], service, resourceType) ==
      WithSortKey(init + [last], service, resourceType) + KeyClass(x, service, resourceType)
  {
    WithSortKeyAppend(Insert(init, x), last, service, resourceType);
    WithSortKeyAppend(init, last, service, resourceType);
    SortKeyTotal(last, x);
    SwapEmpty(WithSortKey(init, service, resourceType), KeyClass(x, service, resourceType),
              KeyClass(last, service, resourceType));
  }

  /** Two pieces, one of them empty, can be appended in either order. */
  lemma SwapEmpty(a: seq<Resource>, b: seq<Resource>, c: seq<Resource>)
    requires b == [] || c == []
    ensures a + b + c == a + c + b
  {
    if b == [] {
      assert a + b == a;
      assert a + c + b == a + c;
    } else {
      assert a + c == a;
      assert a + b + c == a + b;
    }
  }

  /**
   * `sort_resources` is the stable sort: its output is ordered by key, and
   * each key class keeps its elements in input order. With the permutation
   * in its contract, this determines the output completely.
   */
  lemma {:induction false} SortResourcesSpec(s: seq<Resource>)
    ensures SortedByKey(SortResources(s))
    ensures forall service, resourceType ::
      WithSortKey(SortResources(s), service, resourceType) == WithSortKey(s, service, resourceType)
  {
    if |s| > 0 {
      var init := s[..|s| - 1];
      SortResourcesSpec(init);
      InsertSorted(SortResources(init), s[|s| - 1]);
      forall service, resourceType ensures
        WithSortKey(SortResources(s), service, resourceType) == WithSortKey(s, service, resourceType)
      {
        InsertStable(SortResources(init), s[|s| - 1], service, resourceType);
      }
    }
  }

  /** `create_resource` on each item, in order; the first malformed ARN aborts the scan. */
  function CreateAll(items: seq<ScannedItem>): (r: Result<seq<Resource>, ResourceError>)
    ensures r.Success? <==> forall i :: 0 <= i < |items| ==> CreateResource(items[i]).Success?
    ensures r.Success? ==> |r.value| == |items|
    ensures r.Success? ==> forall i :: 0 <= i < |items| ==> CreateResource(items[i]) == Success(r.value[i])
  {
    if |items| == 0 then Success([])
    else
      var first :- CreateResource(items[0]);
      var rest :- CreateAll(items[1..]);
      assert forall i :: 1 <= i < |items| ==> items[i] == items[1..][i - 1];
      Success([first] + rest)
  }

  /** The items whose type is not excluded, in order (the `continue` in both scanners). */
  function Included(items: seq<ScannedItem>, exclude: seq<string>): (r: seq<ScannedItem>)
    ensures forall i :: 0 <= i < |r| ==> r[i] in items && r[i].resourceType !in exclude
    ensures forall i :: 0 <= i < |items| && items[i].resourceType !in exclude ==> items[i] in r
  {
    Filter(items, (it: ScannedItem) => it.resourceType !in exclude)
  }

  /**
   * The common core of both scanners: drop excluded types, create the
   * resources and sort them. The result is sorted, holds exactly the
   * resources created from the included items (as a multiset), keeps the
   * scan order among resources of one sort key, and has none of an excluded
   * type.
   */
  function ScanItems(items: seq<ScannedItem>, exclude: seq<string>): (r: Result<seq<Resource>, ResourceError>)
    ensures r.Success? <==> forall it :: it in Included(items, exclude) ==> CreateResource(it).Success?
    ensures r.Success? ==> CreateAll(Included(items, exclude)).Success?
    ensures r.Success? ==> |r.value| == |Included(items, exclude)|
    ensures r.Success? ==> multiset(r.value) == multiset(CreateAll(Included(items, exclude)).value)
    ensures r.Success? ==> forall service, resourceType ::
      WithSortKey(r.value, service, resourceType) == WithSortKey(CreateAll(Included(items, exclude)).value, service, resourceType)
    ensures r.Success? ==> SortedByKey(r.value)
    ensures r.Success? ==> forall i :: 0 <= i < |r.value| ==> r.value[i].resourceType !in exclude
  {
    var included := Included(items, exclude);
    var created :- CreateAll(included);
    SortResourcesSpec(created);
    var sorted := SortResources(created);
    assert forall i :: 0 <= i < |sorted| ==> sorted[i].resourceType !in exclude by {
      forall i | 0 <= i < |sorted| ensures sorted[i].resourceType !in exclude {
        assert sorted[i] in multiset(created);
        var k :| 0 <= k < |created| && created[k] == sorted[i];
        assert CreateResource(included[k]) == Success(created[k]);
      }
    }
    Success(sorted)
  }

  /** The services the global scanner covers and the region scanner skips. */
  const GlobalServices: seq<string> := ["route53", "cloudfront", "iam"]

  /** The scanning library: the items it yields for a service URI. */
  type Skew = string -> seq<ScannedItem>

  function RegionServiceUri(service: string, region: string): string {
    "arn:aws:" + service + ":" + region + ":*:*/*"
  }

  function GlobalServiceUri(service: string): string {
    "arn:aws:" + service + ":*:*:*/*"
  }

  /** The items the library yields for the non-global services of `services` in `region`, service by service. */
  function RegionItems(skew: Skew, services: seq<string>, region: string): (items: seq<ScannedItem>)
    ensures forall it :: it in items <==>
      exists i :: 0 <= i < |services| && services[i] !in GlobalServices && it in skew(RegionServiceUri(services[i], region))
  {
    if |services| == 0 then []
    else
      var rest := RegionItems(skew, services[1..], region);
      assert forall i :: 1 <= i < |services| ==> services[i] == services[1..][i - 1];
      (if services[0] in GlobalServices then [] else skew(RegionServiceUri(services[0], region))) + rest
  }

  /** The items the library yields for the global services, service by service. */
  function GlobalItems(skew: Skew): seq<ScannedItem> {
    skew(GlobalServiceUri("route53")) + skew(GlobalServiceUri("cloudfront")) + skew(GlobalServiceUri("iam"))
  }

  /**
   * `RegionScanner.scan`: the sorted scan of the region's non-global
   * services, then `manipulate_arn` on each resource, which keeps the order
   * since it touches only the ARN.
   */
  function RegionScan(skew: Skew, services: seq<string>, region: string, exclude: seq<string>)
    : (r: Result<seq<Resource>, ResourceError>)
    ensures r.Success? <==> ScanItems(RegionItems(skew, services, region), exclude).Success?
    ensures r.Success? ==> |r.value| == |Included(RegionItems(skew, services, region), exclude)|
    ensures r.Success? ==> SortedByKey(r.value)
    ensures r.Success? ==> forall i :: 0 <= i < |r.value| ==> r.value[i].resourceType !in exclude
    ensures r.Success? ==> forall i :: 0 <= i < |r.value| ==>
      r.value[i] == ManipulateArn(ScanItems(RegionItems(skew, services, region), exclude).value[i])
  {
    var scanned :- ScanItems(RegionItems(skew, services, region), exclude);
    Success(Map(scanned, ManipulateArn))
  }

  /**
   * `GlobalScanner.scan`: the sorted scan of the global services; ARNs are
   * left as scanned. It fails exactly when an included item has a malformed
   * ARN, and otherwise holds the resources created from the included items.
   */
  function GlobalScan(skew: Skew, exclude: seq<string>): (r: Result<seq<Resource>, ResourceError>)
    ensures r.Success? <==> forall it :: it in Included(GlobalItems(skew), exclude) ==> CreateResource(it).Success?
    ensures r.Success? ==> CreateAll(Included(GlobalItems(skew), exclude)).Success?
    ensures r.Success? ==> |r.value| == |Included(GlobalItems(skew), exclude)|
    ensures r.Success? ==> multiset(r.value) == multiset(CreateAll(Included(GlobalItems(skew), exclude)).value)
    ensures r.Success? ==> forall service, resourceType ::
      WithSortKey(r.value, service, resourceType) ==
      WithSortKey(CreateAll(Included(GlobalItems(skew), exclude)).value, service, resourceType)
    ensures r.Success? ==> SortedByKey(r.value)
    ensures r.Success? ==> forall i :: 0 <= i < |r.value| ==> r.value[i].resourceType !in exclude
  {
    ScanItems(GlobalItems(skew), exclude)
  }

  /** The resource-to-diffs loop of `scan_and_compare_resources`. */
  function PairWithDiffs(resources: seq<Resource>, tags: seq<Tag>): (r: seq<ResourceWithTagDiffs>)
    ensures |r| == |resources|
    ensures forall i :: 0 <= i < |r| ==> r[i].resource == resources[i]
    ensures forall i :: 0 <= i < |r| ==> r[i].tagDiffs == CompareTags(resources[i].currentTags, tags)
  {
    Map(resources, (x: Resource) => ResourceWithTagDiffs(x, CompareTags(x.currentTags, tags)))
  }

  /** A paired resource is properly tagged exactly when it already carries every desired tag. */
  lemma PairWithDiffsSpec(resources: seq<Resource>, tags: seq<Tag>)
    ensures forall i :: 0 <= i < |resources| ==>
      (PairWithDiffs(resources, tags)[i].IsProperlyTagged() <==> forall d :: d in tags ==> d in resources[i].currentTags)
  {
    forall i | 0 <= i < |resources|
      ensures PairWithDiffs(resources, tags)[i].IsProperlyTagged() <==> forall d :: d in tags ==> d in resources[i].currentTags
    {
      ProperlyTaggedIffDesiredPresent(resources[i].currentTags, tags);
    }
  }

  /** The types the region scan of `scan_and_compare_resources` excludes. */
  const RegionalExclusions: seq<string> := SuperTagger.RegResTypeNotSupported + SuperTagger.RegResTypeNotTaggable

  /**
   * `scan_and_compare_resources`: one entry per scanned resource, the region's
   * first and then the global ones, each carrying its diffs against `tags`.
   */
  function ScanAndCompare(skew: Skew, services: seq<string>, region: string, tags: seq<Tag>)
    : (r: Result<seq<ResourceWithTagDiffs>, ResourceError>)
    ensures r.Success? <==>
      RegionScan(skew, services, region, RegionalExclusions).Success? &&
      GlobalScan(skew, SuperTagger.GlobalResTypeNotTaggable).Success?
    ensures r.Success? ==>
      r.value == PairWithDiffs(RegionScan(skew, services, region, RegionalExclusions).value +
                               GlobalScan(skew, SuperTagger.GlobalResTypeNotTaggable).value, tags)
  {
    var regional :- RegionScan(skew, services, region, RegionalExclusions);
    var global :- GlobalScan(skew, SuperTagger.GlobalResTypeNotTaggable);
    Success(PairWithDiffs(regional + global, tags))
  }

  /** Pairing a concatenation keeps each part's resources in place, with their diffs. */
  lemma PairConcatenation(regional: seq<Resource>, global: seq<Resource>, tags: seq<Tag>)
    ensures var r := PairWithDiffs(regional + global, tags);
      && |r| == |regional| + |global|
      && (forall i :: 0 <= i < |regional| ==> r[i].resource == regional[i])
      && (forall i :: 0 <= i < |global| ==> r[|regional| + i].resource == global[i])
  {
    var all := regional + global;
    assert forall i :: 0 <= i < |global| ==> all[|regional| + i] == global[i];
  }

  /**
   * The entries of `scan_and_compare_resources`: the region's resources in
   * scan order, then the global ones; none of a type its scan excludes; each
   * with its diffs against `tags`.
   */
  lemma ScanAndCompareSpec(skew: Skew, services: seq<string>, region: string, tags: seq<Tag>)
    requires ScanAndCompare(skew, services, region, tags).Success?
    ensures var r := ScanAndCompare(skew, services, region, tags).value;
      var regional := RegionScan(skew, services, region, RegionalExclusions).value;
      var global := GlobalScan(skew, SuperTagger.GlobalResTypeNotTaggable).value;
      && |r| == |regional| + |global|
      && (forall i :: 0 <= i < |regional| ==> r[i].resource == regional[i] && r[i].Type() !in RegionalExclusions)
      && (forall i :: 0 <= i < |global| ==>
            r[|regional| + i].resource == global[i] && r[|regional| + i].Type() !in SuperTagger.GlobalResTypeNotTaggable)
      && (forall i :: 0 <= i < |r| ==> r[i].tagDiffs == CompareTags(r[i].resource.currentTags, tags))
  {
    var regional := RegionScan(skew, services, region, RegionalExclusions).value;
    var global := GlobalScan(skew, SuperTagger.GlobalResTypeNotTaggable).value;
    PairedScans(regional, global, tags, RegionalExclusions, SuperTagger.GlobalResTypeNotTaggable);
  }

  /** Pairing two scans, each free of its excluded types, keeps both properties entry by entry. */
  lemma PairedScans(regional: seq<Resource>, global: seq<Resource>, tags: seq<Tag>,
                    regionalExcluded: seq<string>, globalExcluded: seq<string>)
    requires forall i :: 0 <= i < |regional| ==> regional[i].resourceType !in regionalExcluded
    requires forall i :: 0 <= i < |global| ==> global[i].resourceType !in globalExcluded
    ensures var r := PairWithDiffs(regional + global, tags);
      && |r| == |regional| + |global|
      && (forall i :: 0 <= i < |regional| ==> r[i].resource == regional[i] && r[i].Type() !in regionalExcluded)
      && (forall i :: 0 <= i < |global| ==>
            r[|regional| + i].resource == global[i] && r[|regional| + i].Type() !in globalExcluded)
      && (forall i :: 0 <= i < |r| ==> r[i].tagDiffs == CompareTags(r[i].resource.currentTags, tags))
  {
    PairConcatenation(regional, global, tags);
  }
}
