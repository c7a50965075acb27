/**
 * The SuperTagger: routes each resource to the tagger that can tag it (the
 * IAM service tagger, one RegionTagger per region, or the single
 * GlobalTagger), runs them all and folds their results into one.
 */
module SuperTagger {
  import opened Results
  import opened Seqs
  import opened Model
  import opened Resources
  import Runs
  import opened Sessions
  import opened Grouping
  import opened Merging
  import opened Chunking
  import Bulk = ResourceGroupTagger
  import Iam = IamTagger
  import ArnFromError

  /** The keys of `SERVICE_TAGGER`: services with a dedicated tagger (only IAM, whose tagger is `IamTagger`). */
  const ServiceTaggerServices: set<string> := {"iam"}

  /** Resource types that are global but cannot be tagged. */
  const GlobalResTypeNotTaggable: seq<string> := ["policy"]
  /** Resource types that are regional but cannot be tagged. */
  const RegResTypeNotTaggable: seq<string> := ["autoScalingGroup", "launchConfiguration", "subscription", "subnet-group"]
  /** CloudFormation stacks and Elastic Beanstalk environments are not supported. */
  const RegResTypeNotSupported: seq<string> := ["stack", "environment"]

  datatype Destination = ToServiceTagger | ToRegionTagger | ToGlobalTagger

  /** The branch of `_split_resources_for_taggers` a resource takes: service first, then a non-empty region. */
  function DestinationOf(x: Resource): (d: Destination)
    ensures d == ToServiceTagger <==> x.service in ServiceTaggerServices
    ensures d == ToRegionTagger <==> x.service !in ServiceTaggerServices && x.region != ""
  {
    if x.service in ServiceTaggerServices then ToServiceTagger
    else if x.region != "" then ToRegionTagger
    else ToGlobalTagger
  }

  datatype Split = Split(serviceRes: seq<Resource>, regionalRes: seq<Resource>, globalRes: seq<Resource>)

  /** One step of `_split_resources_for_taggers`: append `x` to the list of its destination. */
  function Place(p: Split, x: Resource): Split {
    match DestinationOf(x)
    case ToServiceTagger => p.(serviceRes := p.serviceRes + [x])
    case ToRegionTagger => p.(regionalRes := p.regionalRes + [x])
    case ToGlobalTagger => p.(globalRes := p.globalRes + [x])
  }

  /** The resource goes to the tagger `d` names. */
  function GoesTo(d: Destination): Resource -> bool {
    (x: Resource) => DestinationOf(x) == d
  }

  /**
   * `_split_resources_for_taggers`: the three lists, each in input order
   * (`SplitKeepsOrder`).
   */
  function SplitResourcesForTaggers(resources: seq<Resource>): (p: Split)
    ensures |p.serviceRes| + |p.regionalRes| + |p.globalRes| == |resources|
    ensures forall i :: 0 <= i < |p.serviceRes| ==> DestinationOf(p.serviceRes[i]) == ToServiceTagger
    ensures forall i :: 0 <= i < |p.regionalRes| ==> DestinationOf(p.regionalRes[i]) == ToRegionTagger
    ensures forall i :: 0 <= i < |p.globalRes| ==> DestinationOf(p.globalRes[i]) == ToGlobalTagger
  {
    if |resources| == 0 then Split([], [], [])
    else Place(SplitResourcesForTaggers(resources[..|resources| - 1]), resources[|resources| - 1])
  }

  /** The list of a split that destination `d` names. */
  function Bucket(p: Split, d: Destination): seq<Resource> {
    match d
    case ToServiceTagger => p.serviceRes
    case ToRegionTagger => p.regionalRes
    case ToGlobalTagger => p.globalRes
  }

  /** Placing `x` appends it to its own destination's list and leaves the other lists alone. */
  lemma PlaceBucket(p: Split, x: Resource, d: Destination)
    ensures Bucket(Place(p, x), d) == Bucket(p, d) + (if GoesTo(d)(x) then [x] else [])
  {
  }

  /** The list for `d` is the input filtered by `d`, in input order. */
  lemma {:induction false} BucketIsFilter(resources: seq<Resource>, d: Destination)
    ensures Bucket(SplitResourcesForTaggers(resources), d) == Filter(resources, GoesTo(d))
  {
    if |resources| > 0 {
      var init := resources[..|resources| - 1];
      var x := resources[|resources| - 1];
      BucketIsFilter(init, d);
      PlaceBucket(SplitResourcesForTaggers(init), x, d);
      assert resources == init + [x];
      FilterAppend(init, [x], GoesTo(d));
      assert Filter([x], GoesTo(d)) == if GoesTo(d)(x) then [x] else [];
    }
  }

  /** Each list of the split is the input filtered by that list's destination, in input order. */
  lemma SplitKeepsOrder(resources: seq<Resource>)
    ensures var p := SplitResourcesForTaggers(resources);
      && p.serviceRes == Filter(resources, GoesTo(ToServiceTagger))
      && p.regionalRes == Filter(resources, GoesTo(ToRegionTagger))
      && p.globalRes == Filter(resources, GoesTo(ToGlobalTagger))
  {
    BucketIsFilter(resources, ToServiceTagger);
    BucketIsFilter(resources, ToRegionTagger);
    BucketIsFilter(resources, ToGlobalTagger);
  }

  /** All the resources a split holds, whatever their list. */
  function Held(p: Split): multiset<Resource> {
    multiset(p.serviceRes) + multiset(p.regionalRes) + multiset(p.globalRes)
  }

  lemma PlaceHolds(p: Split, x: Resource)
    ensures Held(Place(p, x)) == Held(p) + multiset{x}
  {
  }

  /** The three lists partition the input: together they are a permutation of it. */
  lemma {:induction false} SplitIsPartition(resources: seq<Resource>)
    ensures Held(SplitResourcesForTaggers(resources)) == multiset(resources)
  {
    if |resources| > 0 {
      var init := resources[..|resources| - 1];
      var x := resources[|resources| - 1];
      SplitIsPartition(init);
      PlaceHolds(SplitResourcesForTaggers(init), x);
      assert resources == init + [x];
    }
  }

  /** Every resource lands in the list its destination names, and each list holds only input resources. */
  lemma SplitRoutes(resources: seq<Resource>, x: Resource)
    ensures var p := SplitResourcesForTaggers(resources);
      && (x in p.serviceRes <==> x in resources && DestinationOf(x) == ToServiceTagger)
      && (x in p.regionalRes <==> x in resources && DestinationOf(x) == ToRegionTagger)
      && (x in p.globalRes <==> x in resources && DestinationOf(x) == ToGlobalTagger)
  {
    var p := SplitResourcesForTaggers(resources);
    SplitIsPartition(resources);
    assert x in resources <==> multiset(resources)[x] > 0;
    assert x in p.serviceRes <==> multiset(p.serviceRes)[x] > 0;
    assert x in p.regionalRes <==> multiset(p.regionalRes)[x] > 0;
    assert x in p.globalRes <==> multiset(p.globalRes)[x] > 0;
  }

  function ServiceOf(x: Resource): string { x.service }
  function RegionOf(x: Resource): string { x.region }

  /** `_init_service_taggers`: one `IamTagger` per service group, built from that group. */
  function InitServiceTaggers(groups: seq<(string, seq<Resource>)>, tags: seq<Tag>,
                              credentials: Option<map<string, string>>, profile: Option<string>)
    : (r: Result<seq<Iam.IamTaggerState>, ConfigError>)
    ensures r.Failure? <==> |groups| > 0 && !HasCredentials(credentials) && !HasProfile(profile)
    ensures r.Success? ==> |r.value| == |groups|
    ensures r.Success? ==> forall i :: 0 <= i < |groups| ==>
      r.value[i] == Iam.NewIamTagger(groups[i].1, tags, credentials, profile).value
  {
    if |groups| == 0 then Success([])
    else
      var first :- Iam.NewIamTagger(groups[0].1, tags, credentials, profile);
      var rest := InitServiceTaggers(groups[1..], tags, credentials, profile);
      if rest.Success? then Success([first] + rest.value) else Failure(NoProfileAndNoCredentials)
  }

  /** `_init_region_taggers`: one `RegionTagger` per region group, scoped to that region. */
  function InitRegionTaggers(groups: seq<(string, seq<Resource>)>, tags: seq<Tag>,
                             credentials: Option<map<string, string>>, profile: Option<string>)
    : (r: Result<seq<Bulk.BulkTagger>, ConfigError>)
    ensures r.Failure? <==> |groups| > 0 && !HasCredentials(credentials) && !HasProfile(profile)
    ensures r.Success? ==> |r.value| == |groups|
    ensures r.Success? ==> forall i :: 0 <= i < |groups| ==>
      && r.value[i].scope == Bulk.Regional(groups[i].0)
      && r.value[i].tags == tags
      && r.value[i].resourcesToTag == groups[i].1
  {
    if |groups| == 0 then Success([])
    else
      var first :- Bulk.NewBulkTagger(Bulk.Regional(groups[0].0), tags, groups[0].1, credentials, profile);
      var rest := InitRegionTaggers(groups[1..], tags, credentials, profile);
      if rest.Success? then Success([first] + rest.value) else Failure(NoProfileAndNoCredentials)
  }

  datatype SuperTaggerState = SuperTaggerState(
    resources: seq<Resource>,
    tags: seq<Tag>,
    serviceTaggers: seq<Iam.IamTaggerState>,
    regionTaggers: seq<Bulk.BulkTagger>,
    globalTagger: Bulk.BulkTagger)

  /** `SuperTagger.__init__`; every tagger opens a session, so it fails exactly when the configuration has neither credentials nor a profile. */
  function NewSuperTagger(resources: seq<Resource>, tags: seq<Tag>,
                          credentials: Option<map<string, string>>, profile: Option<string>)
    : (r: Result<SuperTaggerState, ConfigError>)
    ensures r.Failure? <==> !HasCredentials(credentials) && !HasProfile(profile)
    ensures r.Success? ==> r.value.resources == resources && r.value.tags == tags
  {
    var parts := SplitResourcesForTaggers(resources);
    var serviceTaggers :- InitServiceTaggers(GroupBy(parts.serviceRes, ServiceOf), tags, credentials, profile);
    var regionTaggers :- InitRegionTaggers(GroupBy(parts.regionalRes, RegionOf), tags, credentials, profile);
    var globalTagger :- Bulk.NewBulkTagger(Bulk.Global, tags, parts.globalRes, credentials, profile);
    Success(SuperTaggerState(resources, tags, serviceTaggers, regionTaggers, globalTagger))
  }

  /** The ARNs an IamTagger reports on: its users', then its roles'. */
  function IamArns(t: Iam.IamTaggerState): (arns: seq<string>)
    ensures |arns| == |t.users| + |t.roles|
    ensures forall k :: 0 <= k < |t.users| ==> arns[k] == t.users[k].arn
    ensures forall k :: |t.users| <= k < |arns| ==> arns[k] == t.roles[k - |t.users|].arn
  {
    Map(t.users + t.roles, (x: Resource) => x.arn)
  }

  /** A user's or role's ARN is among the tagger's ARNs. */
  lemma IamArnsHeld(t: Iam.IamTaggerState, x: Resource)
    requires x in t.users || x in t.roles
    ensures x.arn in IamArns(t)
  {
    if x in t.users {
      var k :| 0 <= k < |t.users| && t.users[k] == x;
      assert IamArns(t)[k] == x.arn;
    } else {
      var k :| 0 <= k < |t.roles| && t.roles[k] == x;
      assert IamArns(t)[|t.users| + k] == x.arn;
    }
  }

  /** Where a resource of the SuperTagger ends up, by its destination. */
  ghost predicate RoutedResource(st: SuperTaggerState, x: Resource) {
    match DestinationOf(x)
    case ToServiceTagger =>
      && (x.resourceType == Iam.UserType ==>
            exists j :: 0 <= j < |st.serviceTaggers| && x in st.serviceTaggers[j].users)
      && (x.resourceType == Iam.RoleType ==>
            exists j :: 0 <= j < |st.serviceTaggers| && x in st.serviceTaggers[j].roles)
    case ToRegionTagger =>
      exists j :: 0 <= j < |st.regionTaggers| &&
        st.regionTaggers[j].scope == Bulk.Regional(x.region) && x in st.regionTaggers[j].resourcesToTag
    case ToGlobalTagger =>
      x in st.globalTagger.resourcesToTag
  }

  /** A resource some tagger of the SuperTagger holds. */
  ghost predicate HeldByTagger(st: SuperTaggerState, x: Resource) {
    || (exists j :: 0 <= j < |st.serviceTaggers| && (x in st.serviceTaggers[j].users || x in st.serviceTaggers[j].roles))
    || (exists j :: 0 <= j < |st.regionTaggers| && x in st.regionTaggers[j].resourcesToTag)
    || x in st.globalTagger.resourcesToTag
  }

  /** Every resource is routed, and the taggers hold no other resource. */
  ghost predicate Routed(st: SuperTaggerState) {
    && (forall i :: 0 <= i < |st.resources| ==> RoutedResource(st, st.resources[i]))
    && (forall x :: HeldByTagger(st, x) ==> x in st.resources)
  }

  /** A member of a group of the `setdefault` dict lies in the grouped list under the group's key, and back. */
  lemma GroupMember(s: seq<Resource>, key: Resource -> string, x: Resource)
    ensures x in s ==> exists j :: 0 <= j < |GroupBy(s, key)| && GroupBy(s, key)[j].0 == key(x) && x in GroupBy(s, key)[j].1
    ensures forall j :: 0 <= j < |GroupBy(s, key)| && x in GroupBy(s, key)[j].1 ==> x in s
  {
    var groups := GroupBy(s, key);
    GroupBySpec(s, key);
    if x in s {
      var k :| 0 <= k < |s| && s[k] == x;
      assert HasKey(groups, key(s[k]));
      var j :| 0 <= j < |groups| && groups[j].0 == key(x);
      WithKeyMember(s, key, key(x), x);
    }
    forall j | 0 <= j < |groups| && x in groups[j].1 ensures x in s {
      WithKeyMember(s, key, groups[j].0, x);
    }
  }

  lemma RouteService(resources: seq<Resource>, tags: seq<Tag>,
                     credentials: Option<map<string, string>>, profile: Option<string>, x: Resource)
    requires NewSuperTagger(resources, tags, credentials, profile).Success?
    ensures var st := NewSuperTagger(resources, tags, credentials, profile).value;
      && (x in resources && DestinationOf(x) == ToServiceTagger ==> RoutedResource(st, x))
      && (forall j :: 0 <= j < |st.serviceTaggers| && (x in st.serviceTaggers[j].users || x in st.serviceTaggers[j].roles)
            ==> x in resources)
  {
    var st := NewSuperTagger(resources, tags, credentials, profile).value;
    var parts := SplitResourcesForTaggers(resources);
    var groups := GroupBy(parts.serviceRes, ServiceOf);
    assert st.serviceTaggers == InitServiceTaggers(groups, tags, credentials, profile).value;
    SplitRoutes(resources, x);
    GroupMember(parts.serviceRes, ServiceOf, x);
    if x in resources && DestinationOf(x) == ToServiceTagger {
      var j :| 0 <= j < |groups| && groups[j].0 == ServiceOf(x) && x in groups[j].1;
      IamTaggerHolds(groups[j].1, tags, credentials, profile, x);
    }
    forall j | 0 <= j < |st.serviceTaggers| && (x in st.serviceTaggers[j].users || x in st.serviceTaggers[j].roles)
      ensures x in resources
    {
      IamTaggerHolds(groups[j].1, tags, credentials, profile, x);
    }
  }

  /** An IAM tagger holds a resource as a user or a role exactly when its group has it with that type. */
  lemma IamTaggerHolds(group: seq<Resource>, tags: seq<Tag>,
                       credentials: Option<map<string, string>>, profile: Option<string>, x: Resource)
    requires Iam.NewIamTagger(group, tags, credentials, profile).Success?
    ensures var t := Iam.NewIamTagger(group, tags, credentials, profile).value;
      && (x in group && x.resourceType == Iam.UserType ==> x in t.users)
      && (x in group && x.resourceType == Iam.RoleType ==> x in t.roles)
      && (x in t.users || x in t.roles ==> x in group)
  {
    var t := Iam.NewIamTagger(group, tags, credentials, profile).value;
    if x in group {
      var k :| 0 <= k < |group| && group[k] == x;
    }
    if x in t.users {
      var k :| 0 <= k < |t.users| && t.users[k] == x;
    } else if x in t.roles {
      var k :| 0 <= k < |t.roles| && t.roles[k] == x;
    }
  }

  lemma RouteRegional(resources: seq<Resource>, tags: seq<Tag>,
                      credentials: Option<map<string, string>>, profile: Option<string>, x: Resource)
    requires NewSuperTagger(resources, tags, credentials, profile).Success?
    ensures var st := NewSuperTagger(resources, tags, credentials, profile).value;
      && (x in resources && DestinationOf(x) == ToRegionTagger ==> RoutedResource(st, x))
      && (forall j :: 0 <= j < |st.regionTaggers| && x in st.regionTaggers[j].resourcesToTag ==> x in resources)
  {
    var st := NewSuperTagger(resources, tags, credentials, profile).value;
    var parts := SplitResourcesForTaggers(resources);
    var groups := GroupBy(parts.regionalRes, RegionOf);
    assert st.regionTaggers == InitRegionTaggers(groups, tags, credentials, profile).value;
    SplitRoutes(resources, x);
    GroupMember(parts.regionalRes, RegionOf, x);
    if x in resources && DestinationOf(x) == ToRegionTagger {
      var j :| 0 <= j < |groups| && groups[j].0 == RegionOf(x) && x in groups[j].1;
      assert st.regionTaggers[j].scope == Bulk.Regional(x.region);
    }
  }

  lemma RouteGlobal(resources: seq<Resource>, tags: seq<Tag>,
                    credentials: Option<map<string, string>>, profile: Option<string>, x: Resource)
    requires NewSuperTagger(resources, tags, credentials, profile).Success?
    ensures var st := NewSuperTagger(resources, tags, credentials, profile).value;
      && (x in resources && DestinationOf(x) == ToGlobalTagger ==> RoutedResource(st, x))
      && (x in st.globalTagger.resourcesToTag ==> x in resources)
  {
    SplitRoutes(resources, x);
  }

  /** The constructor routes every resource to the tagger its destination names, and to no other place. */
  lemma NewSuperTaggerRoutes(resources: seq<Resource>, tags: seq<Tag>,
                             credentials: Option<map<string, string>>, profile: Option<string>)
    requires NewSuperTagger(resources, tags, credentials, profile).Success?
    ensures Routed(NewSuperTagger(resources, tags, credentials, profile).value)
  {
    var st := NewSuperTagger(resources, tags, credentials, profile).value;
    forall i | 0 <= i < |resources| ensures RoutedResource(st, resources[i]) {
      RouteService(resources, tags, credentials, profile, resources[i]);
      RouteRegional(resources, tags, credentials, profile, resources[i]);
      RouteGlobal(resources, tags, credentials, profile, resources[i]);
    }
    forall x | HeldByTagger(st, x) ensures x in resources {
      RouteService(resources, tags, credentials, profile, x);
      RouteRegional(resources, tags, credentials, profile, x);
      RouteGlobal(resources, tags, credentials, profile, x);
    }
  }

  /**
   * One region tagger per distinct region, holding that region's resources in
   * input order, and one global tagger holding exactly the global resources.
   */
  lemma RegionAndGlobalTaggers(resources: seq<Resource>, tags: seq<Tag>,
                               credentials: Option<map<string, string>>, profile: Option<string>)
    requires NewSuperTagger(resources, tags, credentials, profile).Success?
    ensures var st := NewSuperTagger(resources, tags, credentials, profile).value;
      && RegionTaggersGroup(SplitResourcesForTaggers(resources).regionalRes, st.regionTaggers)
      && st.globalTagger.scope == Bulk.Global
      && st.globalTagger.resourcesToTag == SplitResourcesForTaggers(resources).globalRes
  {
    var st := NewSuperTagger(resources, tags, credentials, profile).value;
    var regional := SplitResourcesForTaggers(resources).regionalRes;
    assert st.regionTaggers == InitRegionTaggers(GroupBy(regional, RegionOf), tags, credentials, profile).value;
    InitRegionTaggersGroup(regional, tags, credentials, profile);
  }

  /**
   * Region taggers that group `regional` by region: distinct regions, each
   * non-empty group in input order, every region covered, and the taggers in
   * order of their region's first occurrence.
   */
  ghost predicate RegionTaggersGroup(regional: seq<Resource>, taggers: seq<Bulk.BulkTagger>) {
    && TaggersHoldRegions(regional, taggers)
    && (forall i, j :: 0 <= i < j < |taggers| ==> taggers[i].scope != taggers[j].scope)
    && TaggersCoverRegions(regional, taggers)
    && RegionTaggersInOrder(regional, taggers)
  }

  /** Each tagger is regional and holds the non-empty list of its region's resources, in input order. */
  ghost predicate TaggersHoldRegions(regional: seq<Resource>, taggers: seq<Bulk.BulkTagger>) {
    forall j :: 0 <= j < |taggers| ==>
      && taggers[j].scope.Regional?
      && |taggers[j].resourcesToTag| > 0
      && taggers[j].resourcesToTag == WithKey(regional, RegionOf, taggers[j].scope.region)
  }

  /** Every region of `regional` has a tagger. */
  ghost predicate TaggersCoverRegions(regional: seq<Resource>, taggers: seq<Bulk.BulkTagger>) {
    forall i :: 0 <= i < |regional| ==> HasTaggerFor(taggers, regional[i].region)
  }

  /** Some tagger is scoped to `region`. */
  ghost predicate HasTaggerFor(taggers: seq<Bulk.BulkTagger>, region: string) {
    exists j :: 0 <= j < |taggers| && taggers[j].scope == Bulk.Regional(region)
  }

  /** Taggers come in order of their region's first occurrence in `regional`. */
  ghost predicate RegionTaggersInOrder(regional: seq<Resource>, taggers: seq<Bulk.BulkTagger>) {
    forall j1, j2, i2 ::
      (0 <= j1 < j2 < |taggers| && 0 <= i2 < |regional| && Bulk.Regional(regional[i2].region) == taggers[j2].scope) ==>
      exists i1 :: 0 <= i1 < i2 && Bulk.Regional(regional[i1].region) == taggers[j1].scope
  }

  /** Taggers built entry by entry from groups in first-occurrence order are in that order too. */
  lemma TaggersFollowGroups(regional: seq<Resource>, groups: seq<(string, seq<Resource>)>, taggers: seq<Bulk.BulkTagger>)
    requires FirstOccurrenceOrder(regional, RegionOf, groups)
    requires |taggers| == |groups|
    requires forall j :: 0 <= j < |groups| ==> taggers[j].scope == Bulk.Regional(groups[j].0)
    ensures RegionTaggersInOrder(regional, taggers)
  {
    forall j1, j2, i2 | 0 <= j1 < j2 < |taggers| && 0 <= i2 < |regional| &&
                        Bulk.Regional(regional[i2].region) == taggers[j2].scope
      ensures exists i1 :: 0 <= i1 < i2 && Bulk.Regional(regional[i1].region) == taggers[j1].scope
    {
      assert RegionOf(regional[i2]) == groups[j2].0;
      var i1 :| 0 <= i1 < i2 && RegionOf(regional[i1]) == groups[j1].0;
      assert Bulk.Regional(regional[i1].region) == taggers[j1].scope;
    }
  }

  lemma InitRegionTaggersGroup(regional: seq<Resource>, tags: seq<Tag>,
                               credentials: Option<map<string, string>>, profile: Option<string>)
    requires InitRegionTaggers(GroupBy(regional, RegionOf), tags, credentials, profile).Success?
    ensures RegionTaggersGroup(regional, InitRegionTaggers(GroupBy(regional, RegionOf), tags, credentials, profile).value)
  {
    var groups := GroupBy(regional, RegionOf);
    GroupBySpec(regional, RegionOf);
    TaggersFromGroups(regional, groups, InitRegionTaggers(groups, tags, credentials, profile).value);
  }

  /** Taggers built entry by entry from a region grouping of `regional` group it by region. */
  lemma TaggersFromGroups(regional: seq<Resource>, groups: seq<(string, seq<Resource>)>, taggers: seq<Bulk.BulkTagger>)
    requires DistinctKeys(groups)
    requires forall j :: 0 <= j < |groups| ==> groups[j].1 == WithKey(regional, RegionOf, groups[j].0)
    requires forall j :: 0 <= j < |groups| ==> |groups[j].1| > 0
    requires forall i :: 0 <= i < |regional| ==> HasKey(groups, RegionOf(regional[i]))
    requires FirstOccurrenceOrder(regional, RegionOf, groups)
    requires |taggers| == |groups|
    requires forall j :: 0 <= j < |groups| ==>
      taggers[j].scope == Bulk.Regional(groups[j].0) && taggers[j].resourcesToTag == groups[j].1
    ensures RegionTaggersGroup(regional, taggers)
  {
    TaggersCover(regional, groups, taggers);
    TaggersFollowGroups(regional, groups, taggers);
  }

  /** Taggers scoped entry by entry to a grouping that has every element's region cover every region. */
  lemma TaggersCover(regional: seq<Resource>, groups: seq<(string, seq<Resource>)>, taggers: seq<Bulk.BulkTagger>)
    requires forall i :: 0 <= i < |regional| ==> HasKey(groups, RegionOf(regional[i]))
    requires |taggers| == |groups|
    requires forall j :: 0 <= j < |groups| ==> taggers[j].scope == Bulk.Regional(groups[j].0)
    ensures TaggersCoverRegions(regional, taggers)
  {
    forall i | 0 <= i < |regional| ensures HasTaggerFor(taggers, regional[i].region) {
      assert HasKey(groups, RegionOf(regional[i]));
      var j :| 0 <= j < |groups| && groups[j].0 == RegionOf(regional[i]);
      assert taggers[j].scope == Bulk.Regional(regional[i].region);
    }
  }

  /** Why tagging stopped: a Resource Groups Tagging API error or an unexpected IAM error. */
  datatype SuperTaggerError = BulkFailed(tagError: ArnFromError.TagError) | IamFailed(iamError: Iam.IamError)

  /** The results of one tagger: at least one, every ARN it holds reported, successes only among those ARNs. */
  ghost predicate ReportsArns(arns: seq<string>, results: seq<TaggingResult>) {
    && |results| > 0
    && (forall a :: a in arns ==> SucceededIn(results, a) || FailedIn(results, a))
    && (forall a :: SucceededIn(results, a) ==> a in arns)
  }

  lemma BulkReports(tagger: Bulk.BulkTagger, api: Bulk.Api, calls: seq<Bulk.Request>, fuel: nat)
    requires Bulk.TagAll(tagger, api, calls, fuel).Success?
    ensures ReportsArns(tagger.Arns(), Bulk.TagAll(tagger, api, calls, fuel).value.0)
  {
    var results := Bulk.TagAll(tagger, api, calls, fuel).value.0;
    var lists := SplitIntoSublists(tagger.Arns());
    SplitIntoSublistsSpec(tagger.Arns());
    forall a | a in tagger.Arns() ensures SucceededIn(results, a) || FailedIn(results, a) {
      Bulk.EveryArnIsReported(tagger, api, calls, fuel, a);
    }
    forall a | SucceededIn(results, a) ensures a in tagger.Arns() {
      var i :| 0 <= i < |results| && a in results[i].successfulArns;
      assert a in lists[i];
      FlattenMember(lists, a);
    }
  }

  lemma IamReports(t: Iam.IamTaggerState, results: seq<TaggingResult>)
    requires |results| == 2 && Iam.Covers(t.users, results[0]) && Iam.Covers(t.roles, results[1])
    ensures ReportsArns(IamArns(t), results)
  {
    var arns := IamArns(t);
    forall a | a in arns ensures SucceededIn(results, a) || FailedIn(results, a) {
      var k :| 0 <= k < |arns| && arns[k] == a;
      if k < |t.users| {
        assert t.users[k].arn in results[0].successfulArns || t.users[k].arn in results[0].failedArns;
      } else {
        var m := k - |t.users|;
        assert t.roles[m].arn in results[1].successfulArns || t.roles[m].arn in results[1].failedArns;
      }
    }
    forall a | SucceededIn(results, a) ensures a in arns {
      var i :| 0 <= i < |results| && a in results[i].successfulArns;
      if i == 0 {
        var k :| 0 <= k < |t.users| && t.users[k].arn == a;
        assert arns[k] == a;
      } else {
        var k :| 0 <= k < |t.roles| && t.roles[k].arn == a;
        assert arns[|t.users| + k] == a;
      }
    }
  }

  /** Some list of `lists` holds `a`. */
  ghost predicate InSomeList(lists: seq<seq<string>>, a: string) {
    exists i :: 0 <= i < |lists| && a in lists[i]
  }

  /**
   * When every tagger's results report its ARNs, the reduction cannot hit the
   * empty `reduce`, reports every ARN, and succeeds only on ARNs of some tagger.
   */
  lemma ReduceReports(nested: seq<seq<TaggingResult>>, lists: seq<seq<string>>)
    requires |nested| == |lists|
    requires forall i :: 0 <= i < |nested| ==> ReportsArns(lists[i], nested[i])
    ensures ReduceToSingleResult(nested).Success?
    ensures forall i, a :: 0 <= i < |lists| && a in lists[i] ==>
      a in ReduceToSingleResult(nested).value.successfulArns || a in ReduceToSingleResult(nested).value.failedArns
    ensures forall a :: a in ReduceToSingleResult(nested).value.successfulArns ==> InSomeList(lists, a)
  {
    if |nested| > 0 {
      var flat := Flatten(nested);
      FlattenMember(nested, nested[0][0]);
      ReduceSuccesses(flat);
      ReduceFailures(flat);
      var t := ReduceResults(flat);
      assert ReduceToSingleResult(nested).value == t;
      forall i, a | 0 <= i < |lists| && a in lists[i] ensures a in t.successfulArns || a in t.failedArns {
        assert SucceededIn(nested[i], a) || FailedIn(nested[i], a);
        var j :| 0 <= j < |nested[i]| && (a in nested[i][j].successfulArns || a in nested[i][j].failedArns);
        FlattenMember(nested, nested[i][j]);
        var k :| 0 <= k < |flat| && flat[k] == nested[i][j];
        assert SucceededIn(flat, a) || FailedIn(flat, a);
      }
      forall a | a in t.successfulArns ensures InSomeList(lists, a) {
        var k :| 0 <= k < |flat| && a in flat[k].successfulArns;
        FlattenMember(nested, flat[k]);
        var i :| 0 <= i < |nested| && flat[k] in nested[i];
        var j :| 0 <= j < |nested[i]| && nested[i][j] == flat[k];
        assert SucceededIn(nested[i], a);
      }
    }
  }

  /** One region tagger's `tag_all` from a call log, its error wrapped as the super tagger's. */
  function RegionStep(api: Bulk.Api, fuel: nat)
    : (Bulk.BulkTagger, seq<Bulk.Request>) -> Result<(seq<TaggingResult>, seq<Bulk.Request>), SuperTaggerError>
  {
    (t: Bulk.BulkTagger, calls: seq<Bulk.Request>) =>
      match Bulk.TagAll(t, api, calls, fuel)
      case Success(v) => Success(v)
      case Failure(e) => Failure(BulkFailed(e))
  }

  /** The region taggers' `tag_all` calls, in order, each from the calls the one before left, stopping at the first error. */
  function TagRegionTaggers(taggers: seq<Bulk.BulkTagger>, api: Bulk.Api, calls: seq<Bulk.Request>, fuel: nat)
    : (r: Result<(seq<seq<TaggingResult>>, seq<Bulk.Request>), SuperTaggerError>)
    ensures r.Success? ==> |r.value.0| == |taggers|
    ensures r.Success? ==> Runs.RanAll(RegionStep(api, fuel), taggers, r.value.0, calls, r.value.1)
    ensures r.Failure? ==> Runs.Stopped(RegionStep(api, fuel), taggers, calls, r.error)
  {
    if |taggers| == 0 then
      Runs.RanNone(RegionStep(api, fuel), calls);
      Success(([], calls))
    else
      var first := Bulk.TagAll(taggers[0], api, calls, fuel);
      if first.Failure? then
        Runs.StoppedFirst(RegionStep(api, fuel), taggers, calls, BulkFailed(first.error));
        Failure(BulkFailed(first.error))
      else
        var rest := TagRegionTaggers(taggers[1..], api, first.value.1, fuel);
        if rest.Failure? then
          Runs.StoppedCons(RegionStep(api, fuel), taggers, calls, first.value.0, first.value.1, rest.error);
          Failure(rest.error)
        else
          Runs.RanAllCons(RegionStep(api, fuel), taggers, calls, first.value.0, first.value.1, rest.value.0, rest.value.1);
          Success(([first.value.0] + rest.value.0, rest.value.1))
  }

  /**
   * What the run of the region taggers gives: every tagger's ARNs are
   * reported in its own results, and the calls made before it stay as they were.
   */
  lemma {:induction false} TagRegionTaggersReports(taggers: seq<Bulk.BulkTagger>, api: Bulk.Api, calls: seq<Bulk.Request>, fuel: nat)
    requires TagRegionTaggers(taggers, api, calls, fuel).Success?
    ensures var r := TagRegionTaggers(taggers, api, calls, fuel).value;
      && (forall i :: 0 <= i < |taggers| ==> ReportsArns(taggers[i].Arns(), r.0[i]))
      && |calls| <= |r.1| && r.1[..|calls|] == calls
    decreases |taggers|
  {
    if |taggers| > 0 {
      var first := Bulk.TagAll(taggers[0], api, calls, fuel).value;
      BulkReports(taggers[0], api, calls, fuel);
      TagRegionTaggersReports(taggers[1..], api, first.1, fuel);
      var rest := TagRegionTaggers(taggers[1..], api, first.1, fuel).value;
      PrefixOfPrefix(calls, first.1, rest.1);
      ReportsCons(taggers, first.0, rest.0);
    }
  }

  /** Reports for the first tagger and for the remaining ones are reports for all of them. */
  lemma ReportsCons(taggers: seq<Bulk.BulkTagger>, first: seq<TaggingResult>, rest: seq<seq<TaggingResult>>)
    requires |taggers| > 0 && |rest| == |taggers| - 1 && ReportsArns(taggers[0].Arns(), first)
    requires forall i :: 0 <= i < |rest| ==> ReportsArns(taggers[1..][i].Arns(), rest[i])
    ensures forall i :: 0 <= i < |taggers| ==> ReportsArns(taggers[i].Arns(), ([first] + rest)[i])
  {
    forall i | 0 <= i < |taggers| ensures ReportsArns(taggers[i].Arns(), ([first] + rest)[i]) {
      if i > 0 {
        assert taggers[i] == taggers[1..][i - 1];
      }
    }
  }

  function TaggerArns(t: Bulk.BulkTagger): seq<string> { t.Arns() }

  /**
   * `tag_regions`: the region taggers run in turn, each from the calls the
   * one before left; the result is the reduction of their results, in tagger
   * order, and the first tagger error stops the run and is the error.
   */
  function TagRegions(st: SuperTaggerState, api: Bulk.Api, calls: seq<Bulk.Request>, fuel: nat)
    : (r: Result<(TaggingResult, seq<Bulk.Request>), SuperTaggerError>)
    ensures |st.regionTaggers| == 0 ==> r == Success((EmptyResult, calls))
    ensures r.Success? ==> exists nested ::
      && Runs.RanAll(RegionStep(api, fuel), st.regionTaggers, nested, calls, r.value.1)
      && ReduceToSingleResult(nested).Success? && r.value.0 == ReduceToSingleResult(nested).value
    ensures r.Failure? ==> Runs.Stopped(RegionStep(api, fuel), st.regionTaggers, calls, r.error)
  {
    var tagged :- TagRegionTaggers(st.regionTaggers, api, calls, fuel);
    TagRegionTaggersReports(st.regionTaggers, api, calls, fuel);
    ReduceReports(tagged.0, Map(st.regionTaggers, TaggerArns));
    Success((ReduceToSingleResult(tagged.0).value, tagged.1))
  }

  /** Every ARN of every region tagger is reported by `tag_regions`; successes come only from those; earlier calls stay. */
  lemma TagRegionsReports(st: SuperTaggerState, api: Bulk.Api, calls: seq<Bulk.Request>, fuel: nat)
    requires TagRegions(st, api, calls, fuel).Success?
    ensures var r := TagRegions(st, api, calls, fuel).value;
      && |calls| <= |r.1| && r.1[..|calls|] == calls
      && (forall i, a :: 0 <= i < |st.regionTaggers| && a in st.regionTaggers[i].Arns() ==>
            a in r.0.successfulArns || a in r.0.failedArns)
      && (forall a :: a in r.0.successfulArns ==> exists i :: 0 <= i < |st.regionTaggers| && a in st.regionTaggers[i].Arns())
  {
    TagRegionTaggersReports(st.regionTaggers, api, calls, fuel);
    var lists := Map(st.regionTaggers, TaggerArns);
    ReduceReports(TagRegionTaggers(st.regionTaggers, api, calls, fuel).value.0, lists);
    assert forall a :: InSomeList(lists, a) ==> exists i :: 0 <= i < |st.regionTaggers| && a in st.regionTaggers[i].Arns();
  }

  /**
   * The merge `tag_all` returns: the non-regional successes in result order,
   * then the regional ones; an ARN fails iff some non-regional result or the
   * regional result lists it, and the regional message wins.
   */
  lemma NonRegionalThenRegional(nonRegional: seq<seq<TaggingResult>>, regional: TaggingResult)
    requires ReduceToSingleResult(nonRegional).Success?
    ensures var t := Merge(ReduceToSingleResult(nonRegional).value, regional);
      && t.successfulArns == Flatten(Map(Flatten(nonRegional), SuccessesOf)) + regional.successfulArns
      && (forall a :: a in t.failedArns <==> FailedIn(Flatten(nonRegional), a) || a in regional.failedArns)
      && (forall a :: a in regional.failedArns ==> t.failedArns[a] == regional.failedArns[a])
  {
    var flat := Flatten(nonRegional);
    if |flat| == 0 {
      assert ReduceToSingleResult(nonRegional).value == EmptyResult;
      assert Map(flat, SuccessesOf) == [];
      assert forall a :: !FailedIn(flat, a);
    } else {
      ReduceSuccesses(flat);
      ReduceFailures(flat);
    }
  }

  /** The service taggers' results followed by the global tagger's reduce to a result reporting all their ARNs. */
  lemma NonRegionalReports(st: SuperTaggerState, nested: seq<seq<TaggingResult>>, global: seq<TaggingResult>)
    requires |nested| == |st.serviceTaggers|
    requires forall i :: 0 <= i < |nested| ==> ReportsArns(IamArns(st.serviceTaggers[i]), nested[i])
    requires ReportsArns(st.globalTagger.Arns(), global)
    ensures ReduceToSingleResult(nested + [global]).Success?
    ensures var t := ReduceToSingleResult(nested + [global]).value;
      && (forall i, a :: 0 <= i < |st.serviceTaggers| && a in IamArns(st.serviceTaggers[i]) ==>
            a in t.successfulArns || a in t.failedArns)
      && (forall a :: a in st.globalTagger.Arns() ==> a in t.successfulArns || a in t.failedArns)
      && (forall a :: a in t.successfulArns ==>
            (exists i :: 0 <= i < |st.serviceTaggers| && a in IamArns(st.serviceTaggers[i])) || a in st.globalTagger.Arns())
  {
    var all := nested + [global];
    var lists := Map(st.serviceTaggers, IamArns) + [st.globalTagger.Arns()];
    assert forall i :: 0 <= i < |all| ==> ReportsArns(lists[i], all[i]) by {
      forall i | 0 <= i < |all| ensures ReportsArns(lists[i], all[i]) {
        if i < |nested| {
          assert all[i] == nested[i] && lists[i] == IamArns(st.serviceTaggers[i]);
        }
      }
    }
    ReduceReports(all, lists);
    var t := ReduceToSingleResult(all).value;
    forall i, a | 0 <= i < |st.serviceTaggers| && a in IamArns(st.serviceTaggers[i])
      ensures a in t.successfulArns || a in t.failedArns
    {
      assert a in lists[i];
    }
    forall a | a in st.globalTagger.Arns() ensures a in t.successfulArns || a in t.failedArns {
      assert a in lists[|st.serviceTaggers|];
    }
    forall a | a in t.successfulArns
      ensures (exists i :: 0 <= i < |st.serviceTaggers| && a in IamArns(st.serviceTaggers[i])) || a in st.globalTagger.Arns()
    {
      var i :| 0 <= i < |lists| && a in lists[i];
      if i < |st.serviceTaggers| {
        assert lists[i] == IamArns(st.serviceTaggers[i]);
      }
    }
  }

  /**
   * One service tagger's `tag_resources`: its results report the tagger's
   * ARNs and are accounted for by the client's answers; earlier IAM calls are kept.
   */
  method TagService(t: Iam.IamTaggerState, iamApi: Iam.IamApi, iamCalls: seq<Iam.IamCall>)
    returns (r: Result<seq<TaggingResult>, Iam.IamError>, iamCallsOut: seq<Iam.IamCall>)
    ensures |iamCalls| <= |iamCallsOut| && iamCallsOut[..|iamCalls|] == iamCalls
    ensures r.Success? ==> ReportsArns(IamArns(t), r.value)
    ensures r.Success? ==> Iam.RunAccounted(t, iamApi, iamCalls, iamCallsOut, r.value)
  {
    r, iamCallsOut := Iam.TagAll(t, iamApi, iamCalls);
    if r.Success? {
      IamReports(t, r.value);
    }
  }

  /**
   * The service taggers' results, in tagger order: result list `i` reports
   * tagger `i`'s ARNs and is its `tag_resources` run over the IAM calls from
   * `marks[i]` to `marks[i + 1]`.
   */
  ghost predicate ServiceRuns(st: SuperTaggerState, iamApi: Iam.IamApi, nested: seq<seq<TaggingResult>>, marks: seq<seq<Iam.IamCall>>) {
    && |nested| == |st.serviceTaggers|
    && |marks| == |nested| + 1
    && (forall i :: 0 <= i < |nested| ==> ReportsArns(IamArns(st.serviceTaggers[i]), nested[i]))
    && (forall i :: 0 <= i < |nested| ==> Iam.RunAccounted(st.serviceTaggers[i], iamApi, marks[i], marks[i + 1], nested[i]))
  }

  /**
   * `tag_non_regional_resources`: the service taggers in order, then the
   * global tagger, reduced to one result.
   */
  method TagNonRegional(st: SuperTaggerState, api: Bulk.Api, calls: seq<Bulk.Request>, fuel: nat,
                        iamApi: Iam.IamApi, iamCalls: seq<Iam.IamCall>)
    returns (r: Result<TaggingResult, SuperTaggerError>, callsOut: seq<Bulk.Request>, iamCallsOut: seq<Iam.IamCall>)
    ensures |calls| <= |callsOut| && callsOut[..|calls|] == calls
    ensures |iamCalls| <= |iamCallsOut| && iamCallsOut[..|iamCalls|] == iamCalls
    ensures r.Success? ==> forall i, a :: 0 <= i < |st.serviceTaggers| && a in IamArns(st.serviceTaggers[i]) ==>
      a in r.value.successfulArns || a in r.value.failedArns
    ensures r.Success? ==> forall a :: a in st.globalTagger.Arns() ==>
      a in r.value.successfulArns || a in r.value.failedArns
    ensures r.Success? ==> forall a :: a in r.value.successfulArns ==>
      (exists i :: 0 <= i < |st.serviceTaggers| && a in IamArns(st.serviceTaggers[i])) || a in st.globalTagger.Arns()
    ensures r.Success? ==> Bulk.TagAll(st.globalTagger, api, calls, fuel).Success?
    ensures r.Success? ==> callsOut == Bulk.TagAll(st.globalTagger, api, calls, fuel).value.1
    ensures r.Success? ==> exists nested, marks ::
      && ServiceRuns(st, iamApi, nested, marks)
      && marks[0] == iamCalls && marks[|nested|] == iamCallsOut
      && r.value == ReduceToSingleResult(nested + [Bulk.TagAll(st.globalTagger, api, calls, fuel).value.0]).value
  {
    var nested: seq<seq<TaggingResult>> := [];
    ghost var marks: seq<seq<Iam.IamCall>> := [iamCalls];
    iamCallsOut := iamCalls;
    callsOut := calls;
    var k := 0;
    while k < |st.serviceTaggers|
      invariant 0 <= k <= |st.serviceTaggers|
      invariant |nested| == k && |marks| == k + 1
      invariant marks[0] == iamCalls && marks[k] == iamCallsOut
      invariant forall i :: 0 <= i < k ==> ReportsArns(IamArns(st.serviceTaggers[i]), nested[i])
      invariant forall i :: 0 <= i < k ==> Iam.RunAccounted(st.serviceTaggers[i], iamApi, marks[i], marks[i + 1], nested[i])
      invariant |iamCalls| <= |iamCallsOut| && iamCallsOut[..|iamCalls|] == iamCalls
    {
      var res, after := TagService(st.serviceTaggers[k], iamApi, iamCallsOut);
      assert after[..|iamCalls|] == iamCallsOut[..|iamCalls|];
      if res.Failure? {
        return Failure(IamFailed(res.error)), callsOut, after;
      }
      nested := nested + [res.value];
      marks := marks + [after];
      iamCallsOut := after;
      k := k + 1;
    }
    var global := Bulk.TagAll(st.globalTagger, api, calls, fuel);
    if global.Failure? {
      return Failure(BulkFailed(global.error)), callsOut, iamCallsOut;
    }
    BulkReports(st.globalTagger, api, calls, fuel);
    NonRegionalReports(st, nested, global.value.0);
    r := Success(ReduceToSingleResult(nested + [global.value.0]).value);
    callsOut := global.value.1;
    assert ServiceRuns(st, iamApi, nested, marks);
  }

  /**
   * The resources the SuperTagger reports on: all but IAM resources that are
   * neither users nor roles, which `IamTagger` filters out without a word.
   */
  predicate Reportable(x: Resource) {
    DestinationOf(x) == ToServiceTagger ==> x.resourceType == Iam.UserType || x.resourceType == Iam.RoleType
  }

  /** Region results report every region tagger's ARNs and succeed only on them. */
  ghost predicate RegionalReported(st: SuperTaggerState, t: TaggingResult) {
    && (forall i, a :: 0 <= i < |st.regionTaggers| && a in st.regionTaggers[i].Arns() ==>
          a in t.successfulArns || a in t.failedArns)
    && (forall a :: a in t.successfulArns ==> exists i :: 0 <= i < |st.regionTaggers| && a in st.regionTaggers[i].Arns())
  }

  /** Non-regional results report every service and global tagger ARN and succeed only on them. */
  ghost predicate NonRegionalReported(st: SuperTaggerState, t: TaggingResult) {
    && (forall i, a :: 0 <= i < |st.serviceTaggers| && a in IamArns(st.serviceTaggers[i]) ==>
          a in t.successfulArns || a in t.failedArns)
    && (forall a :: a in st.globalTagger.Arns() ==> a in t.successfulArns || a in t.failedArns)
    && (forall a :: a in t.successfulArns ==>
          (exists i :: 0 <= i < |st.serviceTaggers| && a in IamArns(st.serviceTaggers[i])) || a in st.globalTagger.Arns())
  }

  /** A bulk tagger's resources have their ARNs among its ARNs. */
  lemma BulkArnsHeld(t: Bulk.BulkTagger, x: Resource)
    requires x in t.resourcesToTag
    ensures x.arn in t.Arns()
  {
    var k :| 0 <= k < |t.resourcesToTag| && t.resourcesToTag[k] == x;
    assert t.Arns()[k] == x.arn;
  }

  /** Each ARN of a bulk tagger is the ARN of one of its resources. */
  lemma BulkArnResource(t: Bulk.BulkTagger, a: string) returns (x: Resource)
    requires a in t.Arns()
    ensures x in t.resourcesToTag && x.arn == a
  {
    var k :| 0 <= k < |t.Arns()| && t.Arns()[k] == a;
    x := t.resourcesToTag[k];
  }

  /** Each ARN of an IamTagger is the ARN of one of its users or roles. */
  lemma IamArnResource(t: Iam.IamTaggerState, a: string) returns (x: Resource)
    requires a in IamArns(t)
    ensures (x in t.users || x in t.roles) && x.arn == a
  {
    var k :| 0 <= k < |IamArns(t)| && IamArns(t)[k] == a;
    x := if k < |t.users| then t.users[k] else t.roles[k - |t.users|];
  }

  /** A reportable resource of a routed SuperTagger is a success or a failure of the merged result. */
  lemma ResourceReported(st: SuperTaggerState, nonRegional: TaggingResult, regional: TaggingResult, x: Resource)
    requires Routed(st) && RegionalReported(st, regional) && NonRegionalReported(st, nonRegional)
    requires x in st.resources && Reportable(x)
    ensures x.arn in Merge(nonRegional, regional).successfulArns || x.arn in Merge(nonRegional, regional).failedArns
  {
    var k :| 0 <= k < |st.resources| && st.resources[k] == x;
    assert RoutedResource(st, x);
    match DestinationOf(x) {
      case ToServiceTagger =>
        var j :| 0 <= j < |st.serviceTaggers| && (x in st.serviceTaggers[j].users || x in st.serviceTaggers[j].roles);
        IamArnsHeld(st.serviceTaggers[j], x);
      case ToRegionTagger =>
        var j :| 0 <= j < |st.regionTaggers| && x in st.regionTaggers[j].resourcesToTag;
        BulkArnsHeld(st.regionTaggers[j], x);
      case ToGlobalTagger =>
        BulkArnsHeld(st.globalTagger, x);
    }
  }

  /** A success of the merged result is the ARN of one of the SuperTagger's resources. */
  lemma SuccessIsResource(st: SuperTaggerState, nonRegional: TaggingResult, regional: TaggingResult, a: string)
    requires Routed(st) && RegionalReported(st, regional) && NonRegionalReported(st, nonRegional)
    requires a in Merge(nonRegional, regional).successfulArns
    ensures exists i :: 0 <= i < |st.resources| && st.resources[i].arn == a
  {
    var x: Resource;
    if a in regional.successfulArns {
      var j :| 0 <= j < |st.regionTaggers| && a in st.regionTaggers[j].Arns();
      x := BulkArnResource(st.regionTaggers[j], a);
    } else if a in st.globalTagger.Arns() {
      x := BulkArnResource(st.globalTagger, a);
    } else {
      var j :| 0 <= j < |st.serviceTaggers| && a in IamArns(st.serviceTaggers[j]);
      x := IamArnResource(st.serviceTaggers[j], a);
    }
    assert HeldByTagger(st, x);
    var i :| 0 <= i < |st.resources| && st.resources[i] == x;
  }

  /**
   * `SuperTagger.tag_all`: the regions first, then the non-regional taggers;
   * the result merges the reduction of the service taggers' runs and the
   * global tagger's results with the regional result, so successes are
   * concatenated non-regional first and a regional failure message wins over
   * a non-regional one (`NonRegionalThenRegional`). For a SuperTagger whose taggers
   * were built by `NewSuperTagger`, every reportable resource is reported and
   * only its resources can succeed.
   */
  method TagAll(st: SuperTaggerState, api: Bulk.Api, calls: seq<Bulk.Request>, fuel: nat,
                iamApi: Iam.IamApi, iamCalls: seq<Iam.IamCall>)
    returns (r: Result<TaggingResult, SuperTaggerError>, callsOut: seq<Bulk.Request>, iamCallsOut: seq<Iam.IamCall>)
    ensures |calls| <= |callsOut| && callsOut[..|calls|] == calls
    ensures |iamCalls| <= |iamCallsOut| && iamCallsOut[..|iamCalls|] == iamCalls
    ensures TagRegions(st, api, calls, fuel).Failure? ==>
      r == Failure(TagRegions(st, api, calls, fuel).error) && callsOut == calls && iamCallsOut == iamCalls
    ensures r.Success? ==> TagRegions(st, api, calls, fuel).Success?
    ensures r.Success? ==> exists nonRegional :: r.value == Merge(nonRegional, TagRegions(st, api, calls, fuel).value.0)
    ensures r.Success? ==> Bulk.TagAll(st.globalTagger, api, TagRegions(st, api, calls, fuel).value.1, fuel).Success?
    ensures r.Success? ==> exists nested, marks ::
      && ServiceRuns(st, iamApi, nested, marks)
      && marks[0] == iamCalls && marks[|nested|] == iamCallsOut
      && r.value == Merge(
           ReduceToSingleResult(nested + [Bulk.TagAll(st.globalTagger, api, TagRegions(st, api, calls, fuel).value.1, fuel).value.0]).value,
           TagRegions(st, api, calls, fuel).value.0)
    ensures r.Success? && Routed(st) ==> forall i :: 0 <= i < |st.resources| && Reportable(st.resources[i]) ==>
      st.resources[i].arn in r.value.successfulArns || st.resources[i].arn in r.value.failedArns
    ensures r.Success? && Routed(st) ==> forall a :: a in r.value.successfulArns ==>
      exists i :: 0 <= i < |st.resources| && st.resources[i].arn == a
  {
    var regional := TagRegions(st, api, calls, fuel);
    if regional.Failure? {
      return Failure(regional.error), calls, iamCalls;
    }
    TagRegionsReports(st, api, calls, fuel);
    var nonRegional;
    nonRegional, callsOut, iamCallsOut := TagNonRegional(st, api, regional.value.1, fuel, iamApi, iamCalls);
    assert callsOut[..|calls|] == regional.value.1[..|calls|];
    if nonRegional.Failure? {
      return Failure(nonRegional.error), callsOut, iamCallsOut;
    }
    r := Success(Merge(nonRegional.value, regional.value.0));
    if Routed(st) {
      forall i | 0 <= i < |st.resources| && Reportable(st.resources[i])
        ensures st.resources[i].arn in r.value.successfulArns || st.resources[i].arn in r.value.failedArns
      {
        ResourceReported(st, nonRegional.value, regional.value.0, st.resources[i]);
      }
      forall a | a in r.value.successfulArns ensures exists i :: 0 <= i < |st.resources| && st.resources[i].arn == a {
        SuccessIsResource(st, nonRegional.value, regional.value.0, a);
      }
    }
  }
}
