/**
 * The dashboard data of the CLI's report command
 * (taggercli/commands/report.py): resources grouped by service with
 * `itertools.groupby`, and per-service counts of properly tagged resources.
 */
module Report {
  import opened Results
  import opened TagDiffs
  import opened Grouping

  /** The runs of `itertools.groupby`: maximal blocks of consecutive elements with equal keys. */
  function Runs<T>(s: seq<T>, key: T -> string): (r: seq<(string, seq<T>)>)
    ensures |r| == 0 <==> |s| == 0
    ensures |r| <= |s|
    ensures |s| > 0 ==> r[|r| - 1].0 == key(s[|s| - 1])
  {
    if |s| == 0 then []
    else
      var r := Runs(s[..|s| - 1], key);
      var x := s[|s| - 1];
      if |r| > 0 && r[|r| - 1].0 == key(x) then r[..|r| - 1] + [(key(x), r[|r| - 1].1 + [x])]
      else r + [(key(x), [x])]
  }

  /** The runs' contents, concatenated. */
  function Concat<T>(runs: seq<(string, seq<T>)>): seq<T> {
    if |runs| == 0 then [] else Concat(runs[..|runs| - 1]) + runs[|runs| - 1].1
  }

  /** Every run is non-empty and uniform in its key. */
  ghost predicate WellFormedRuns<T>(runs: seq<(string, seq<T>)>, key: T -> string) {
    forall i :: 0 <= i < |runs| ==> |runs[i].1| > 0 && forall j :: 0 <= j < |runs[i].1| ==> key(runs[i].1[j]) == runs[i].0
  }

  /** Consecutive runs have different keys. */
  predicate Maximal<T>(runs: seq<(string, seq<T>)>) {
    forall i :: 0 <= i < |runs| - 1 ==> runs[i].0 != runs[i + 1].0
  }

  /** Concatenating the runs gives back the input. */
  lemma {:induction false} RunsConcat<T>(s: seq<T>, key: T -> string)
    ensures Concat(Runs(s, key)) == s
  {
    if |s| > 0 {
      var init := s[..|s| - 1];
      var x := s[|s| - 1];
      RunsConcat(init, key);
      var r := Runs(init, key);
      assert s == init + [x];
      if |r| > 0 && r[|r| - 1].0 == key(x) {
        var out := r[..|r| - 1] + [(key(x), r[|r| - 1].1 + [x])];
        assert out[..|out| - 1] == r[..|r| - 1];
        assert Concat(r) == Concat(r[..|r| - 1]) + r[|r| - 1].1;
      } else {
        var out := r + [(key(x), [x])];
        assert out[..|out| - 1] == r;
      }
    }
  }

  /** Every run is non-empty and holds only elements with its key. */
  lemma {:induction false} RunsWellFormed<T>(s: seq<T>, key: T -> string)
    ensures WellFormedRuns(Runs(s, key), key)
  {
    if |s| > 0 {
      var r := Runs(s[..|s| - 1], key);
      var x := s[|s| - 1];
      RunsWellFormed(s[..|s| - 1], key);
      if |r| > 0 && r[|r| - 1].0 == key(x) {
        ExtendLastRun(r, x, key);
      } else {
        AppendRun(r, x, key);
      }
    }
  }

  /** Adding an element to the last run, whose key it has, keeps the runs well formed. */
  lemma ExtendLastRun<T>(r: seq<(string, seq<T>)>, x: T, key: T -> string)
    requires WellFormedRuns(r, key) && |r| > 0 && r[|r| - 1].0 == key(x)
    ensures WellFormedRuns(r[..|r| - 1] + [(key(x), r[|r| - 1].1 + [x])], key)
  {
    var out := r[..|r| - 1] + [(key(x), r[|r| - 1].1 + [x])];
    forall i | 0 <= i < |out|
      ensures |out[i].1| > 0 && forall j :: 0 <= j < |out[i].1| ==> key(out[i].1[j]) == out[i].0
    {
      if i < |r| - 1 {
        assert out[i] == r[i];
      }
    }
  }

  /** Opening a new run with one element keeps the runs well formed. */
  lemma AppendRun<T>(r: seq<(string, seq<T>)>, x: T, key: T -> string)
    requires WellFormedRuns(r, key)
    ensures WellFormedRuns(r + [(key(x), [x])], key)
  {
    var out := r + [(key(x), [x])];
    forall i | 0 <= i < |out|
      ensures |out[i].1| > 0 && forall j :: 0 <= j < |out[i].1| ==> key(out[i].1[j]) == out[i].0
    {
      if i < |r| {
        assert out[i] == r[i];
      }
    }
  }

  /** Neighbouring runs have different keys. */
  lemma {:induction false} RunsMaximal<T>(s: seq<T>, key: T -> string)
    ensures Maximal(Runs(s, key))
  {
    if |s| > 0 {
      RunsMaximal(s[..|s| - 1], key);
    }
  }

  /** `d[k] = v` on an insertion-ordered dict: an existing key keeps its place, a new one goes last. */
  function Put<T>(d: seq<(string, seq<T>)>, k: string, v: seq<T>): (r: seq<(string, seq<T>)>)
    ensures |r| == if HasKey(d, k) then |d| else |d| + 1
    ensures !HasKey(d, k) ==> r == d + [(k, v)]
  {
    if |d| == 0 then [(k, v)]
    else if d[0].0 == k then [(k, v)] + d[1..]
    else
      assert HasKey(d, k) <==> HasKey(d[1..], k) by {
        if HasKey(d, k) {
          var j :| 0 <= j < |d| && d[j].0 == k;
          assert d[1..][j - 1].0 == k;
        }
        if HasKey(d[1..], k) {
          var j :| 0 <= j < |d[1..]| && d[1..][j].0 == k;
          assert d[j + 1].0 == k;
        }
      }
      [d[0]] + Put(d[1..], k, v)
  }

  /** Assignment overwrites the first entry for `k` and leaves every other entry alone. */
  lemma {:induction false} PutPointwise<T>(d: seq<(string, seq<T>)>, k: string, v: seq<T>)
    requires DistinctKeys(d)
    ensures forall j :: 0 <= j < |d| ==> Put(d, k, v)[j] == if d[j].0 == k then (k, v) else d[j]
  {
    if |d| > 0 {
      var r := Put(d, k, v);
      if d[0].0 == k {
        forall j | 1 <= j < |d| ensures d[j].0 != k {
          assert d[0].0 != d[j].0;
        }
      } else {
        var rest := d[1..];
        assert DistinctKeys(rest);
        PutPointwise(rest, k, v);
        forall j | 1 <= j < |d| ensures r[j] == if d[j].0 == k then (k, v) else d[j] {
          assert r[j] == Put(rest, k, v)[j - 1];
        }
      }
    }
  }

  /** On a dict (distinct keys), assignment keeps the keys distinct and leaves an entry for `k`. */
  lemma PutSpec<T>(d: seq<(string, seq<T>)>, k: string, v: seq<T>)
    requires DistinctKeys(d)
    ensures DistinctKeys(Put(d, k, v))
    ensures forall j :: 0 <= j < |d| ==> Put(d, k, v)[j] == if d[j].0 == k then (k, v) else d[j]
    ensures HasKey(Put(d, k, v), k)
  {
    PutPointwise(d, k, v);
    var r := Put(d, k, v);
    if HasKey(d, k) {
      var j :| 0 <= j < |d| && d[j].0 == k;
      assert r[j].0 == k;
      SameKeysDistinct(d, r);
    } else {
      assert r[|d|].0 == k;
      AppendFreshDistinct(d, k, v);
    }
  }

  /** Entries renamed to the same keys, position by position, keep the keys distinct. */
  lemma SameKeysDistinct<T>(d: seq<(string, seq<T>)>, r: seq<(string, seq<T>)>)
    requires DistinctKeys(d) && |r| == |d|
    requires forall j :: 0 <= j < |d| ==> r[j].0 == d[j].0
    ensures DistinctKeys(r)
  {
  }

  /** Appending an entry for a key the dict lacks keeps the keys distinct. */
  lemma AppendFreshDistinct<T>(d: seq<(string, seq<T>)>, k: string, v: seq<T>)
    requires DistinctKeys(d) && !HasKey(d, k)
    ensures DistinctKeys(d + [(k, v)])
  {
    var r := d + [(k, v)];
    forall i, j | 0 <= i < j < |r| ensures r[i].0 != r[j].0 {
      if j == |d| {
        assert r[i] == d[i];
      }
    }
  }

  /** `{key: list(run) for key, run in groupby(...)}`: the runs assigned in order, a later run with the same key overwriting. */
  function DictOfRuns<T>(runs: seq<(string, seq<T>)>): seq<(string, seq<T>)> {
    if |runs| == 0 then [] else Put(DictOfRuns(runs[..|runs| - 1]), runs[|runs| - 1].0, runs[|runs| - 1].1)
  }

  /** Assigning runs with distinct keys builds exactly those runs. */
  lemma {:induction false} DictOfDistinctRuns<T>(runs: seq<(string, seq<T>)>)
    requires DistinctKeys(runs)
    ensures DictOfRuns(runs) == runs
  {
    if |runs| > 0 {
      var init := runs[..|runs| - 1];
      assert DistinctKeys(init);
      DictOfDistinctRuns(init);
      var k := runs[|runs| - 1].0;
      forall j | 0 <= j < |init| ensures init[j].0 != k {
        assert runs[j].0 != runs[|runs| - 1].0;
      }
      assert runs == init + [runs[|runs| - 1]];
    }
  }

  /** Each entry of `d` is one of the runs. */
  ghost predicate FromRuns<T>(d: seq<(string, seq<T>)>, runs: seq<(string, seq<T>)>) {
    forall j :: 0 <= j < |d| ==> exists i :: 0 <= i < |runs| && d[j] == runs[i]
  }

  /** Assigning runs one by one keeps the keys distinct. */
  lemma {:induction false} DictOfRunsDistinct<T>(runs: seq<(string, seq<T>)>)
    ensures DistinctKeys(DictOfRuns(runs))
  {
    if |runs| > 0 {
      var init := runs[..|runs| - 1];
      DictOfRunsDistinct(init);
      PutSpec(DictOfRuns(init), runs[|runs| - 1].0, runs[|runs| - 1].1);
    }
  }

  /** Each entry of the groupby dict is one of the runs. */
  lemma {:induction false} DictOfRunsFromRuns<T>(runs: seq<(string, seq<T>)>)
    ensures FromRuns(DictOfRuns(runs), runs)
  {
    if |runs| > 0 {
      var init := runs[..|runs| - 1];
      var last := runs[|runs| - 1];
      DictOfRunsFromRuns(init);
      DictOfRunsDistinct(init);
      var d := DictOfRuns(init);
      PutPointwise(d, last.0, last.1);
      var r := Put(d, last.0, last.1);
      forall j | 0 <= j < |r| ensures exists i :: 0 <= i < |runs| && r[j] == runs[i] {
        if j < |d| && d[j].0 != last.0 {
          var i :| 0 <= i < |init| && d[j] == init[i];
          assert r[j] == runs[i];
        } else {
          assert r[j] == runs[|runs| - 1];
        }
      }
    }
  }

  /** Every run's key has an entry in the groupby dict. */
  lemma {:induction false} DictOfRunsKeys<T>(runs: seq<(string, seq<T>)>)
    ensures forall i :: 0 <= i < |runs| ==> HasKey(DictOfRuns(runs), runs[i].0)
  {
    if |runs| > 0 {
      var init := runs[..|runs| - 1];
      var last := runs[|runs| - 1];
      DictOfRunsKeys(init);
      DictOfRunsDistinct(init);
      var d := DictOfRuns(init);
      PutSpec(d, last.0, last.1);
      var r := Put(d, last.0, last.1);
      forall i | 0 <= i < |init| ensures HasKey(r, runs[i].0) {
        var j :| 0 <= j < |d| && d[j].0 == init[i].0;
        assert r[j].0 == runs[i].0;
      }
    }
  }

  /** Each key's elements form a single block of the input. */
  predicate Contiguous<T>(s: seq<T>, key: T -> string) {
    forall i, j, l :: 0 <= i < j < l < |s| && key(s[i]) == key(s[l]) ==> key(s[j]) == key(s[i])
  }

  /** A key other than the last element's does not occur before a contiguous block ends. */
  lemma FreshKey<T>(s: seq<T>, key: T -> string, i: int)
    requires Contiguous(s, key) && |s| > 1 && key(s[|s| - 2]) != key(s[|s| - 1])
    requires 0 <= i < |s| - 1
    ensures key(s[i]) != key(s[|s| - 1])
  {
    var j := |s| - 2;
    assert i < j || i == j;
  }

  /** The key of the last group extends that group. */
  lemma AddToLastGroup<T>(g: seq<(string, seq<T>)>, x: T, k: string)
    requires DistinctKeys(g) && |g| > 0 && g[|g| - 1].0 == k
    ensures Add(g, k, x) == g[..|g| - 1] + [(k, g[|g| - 1].1 + [x])]
  {
    AddSpec(g, k, x);
    assert HasKey(g, k);
    var out := g[..|g| - 1] + [(k, g[|g| - 1].1 + [x])];
    forall j | 0 <= j < |g| ensures Add(g, k, x)[j] == out[j] {
      if j < |g| - 1 {
        assert g[j].0 != g[|g| - 1].0;
      }
    }
  }

  /** On input contiguous by key, the runs are exactly the `setdefault` groups. */
  lemma {:induction false} ContiguousRunsAreGroups<T>(s: seq<T>, key: T -> string)
    requires Contiguous(s, key)
    ensures Runs(s, key) == GroupBy(s, key)
  {
    if |s| > 0 {
      var init := s[..|s| - 1];
      var x := s[|s| - 1];
      var k := key(x);
      assert Contiguous(init, key) by {
        forall i, j, l | 0 <= i < j < l < |init| && key(init[i]) == key(init[l]) ensures key(init[j]) == key(init[i]) {
          assert init[i] == s[i] && init[j] == s[j] && init[l] == s[l];
        }
      }
      ContiguousRunsAreGroups(init, key);
      var g := GroupBy(init, key);
      if |g| > 0 && g[|g| - 1].0 == k {
        GroupByDistinct(init, key);
        AddToLastGroup(g, x, k);
      } else {
        forall i | 0 <= i < |init| ensures key(init[i]) != k {
          assert key(init[|init| - 1]) == g[|g| - 1].0;
          FreshKey(s, key, i);
        }
        GroupByAbsent(init, key, k);
        AddFresh(g, k, x);
      }
    }
  }

  /** On input contiguous by key, the groupby dict is the `setdefault` grouping. */
  lemma ContiguousDictIsGrouping<T>(s: seq<T>, key: T -> string)
    requires Contiguous(s, key)
    ensures DictOfRuns(Runs(s, key)) == GroupBy(s, key)
  {
    ContiguousRunsAreGroups(s, key);
    GroupBySpec(s, key);
    DictOfDistinctRuns(GroupBy(s, key));
  }

  /** Keys a, b, a: the dict keeps a's place, but its value is only the later run. */
  lemma LaterRunOverwrites<T>(x1: T, x2: T, x3: T, key: T -> string)
    requires key(x1) == key(x3) != key(x2)
    ensures DictOfRuns(Runs([x1, x2, x3], key)) == [(key(x1), [x3]), (key(x2), [x2])]
  {
    var r1 := [(key(x1), [x1])];
    var r2 := r1 + [(key(x2), [x2])];
    var r3 := r2 + [(key(x3), [x3])];
    assert [x1][..0] == [];
    assert Runs([x1], key) == r1;
    assert [x1, x2][..1] == [x1];
    assert Runs([x1, x2], key) == r2;
    assert [x1, x2, x3][..2] == [x1, x2];
    assert Runs([x1, x2, x3], key) == r3;
    assert r3[..2] == r2 && r2[..1] == r1 && r1[..0] == [];
    assert DictOfRuns(r1) == r1;
    assert DictOfRuns(r2) == r2;
    assert HasKey(r2, key(x3));
  }

  /** The per-service numbers of the dashboard; the ratio is `numberTaggedProperly / numberOfResources`. */
  datatype ServiceMetrics = ServiceMetrics(numberOfResources: nat, numberTaggedProperly: nat)

  /** The number of properly tagged resources in the list. */
  function CountProperlyTagged(rs: seq<ResourceWithTagDiffs>): (n: nat)
    ensures n <= |rs|
  {
    if |rs| == 0 then 0
    else CountProperlyTagged(rs[..|rs| - 1]) + (if rs[|rs| - 1].IsProperlyTagged() then 1 else 0)
  }

  /** The count reaches the length exactly when every resource is properly tagged, and is 0 exactly when none is. */
  lemma {:induction false} CountProperlyTaggedSpec(rs: seq<ResourceWithTagDiffs>)
    ensures CountProperlyTagged(rs) == |rs| <==> forall i :: 0 <= i < |rs| ==> rs[i].IsProperlyTagged()
    ensures CountProperlyTagged(rs) == 0 <==> forall i :: 0 <= i < |rs| ==> !rs[i].IsProperlyTagged()
  {
    if |rs| > 0 {
      var init := rs[..|rs| - 1];
      CountProperlyTaggedSpec(init);
      assert forall i :: 0 <= i < |init| ==> init[i] == rs[i];
    }
  }

  /** `len(resources)` is 0: the ratio divides by zero. */
  datatype MetricsError = DivisionByZero(service: string)

  /** `metrics_for_dashboard_by_service`: one entry per service, in dict order; an empty list raises. */
  function MetricsByService(groups: seq<(string, seq<ResourceWithTagDiffs>)>)
    : (r: Result<seq<(string, ServiceMetrics)>, MetricsError>)
    ensures r.Failure? <==> exists i :: 0 <= i < |groups| && |groups[i].1| == 0
    ensures r.Success? ==> |r.value| == |groups|
    ensures r.Success? ==> forall i :: 0 <= i < |groups| ==>
      r.value[i].0 == groups[i].0 &&
      0 < r.value[i].1.numberOfResources == |groups[i].1| &&
      r.value[i].1.numberTaggedProperly == CountProperlyTagged(groups[i].1)
  {
    if |groups| == 0 then Success([])
    else if |groups[0].1| == 0 then Failure(DivisionByZero(groups[0].0))
    else
      var rest :- MetricsByService(groups[1..]);
      assert forall i :: 1 <= i < |groups| ==> groups[i] == groups[1..][i - 1];
      Success([(groups[0].0, ServiceMetrics(|groups[0].1|, CountProperlyTagged(groups[0].1)))] + rest)
  }

  datatype Dashboard = Dashboard(resourcesByService: seq<(string, seq<ResourceWithTagDiffs>)>,
                                 metricsByService: seq<(string, ServiceMetrics)>)

  function ServiceKey(x: ResourceWithTagDiffs): string { x.Service() }

  /** The grouping and the metrics of `prepare_data_for_dashboard_template`. */
  function PrepareDashboard(resources: seq<ResourceWithTagDiffs>): (r: Result<Dashboard, MetricsError>)
  {
    var byService := DictOfRuns(Runs(resources, ServiceKey));
    var metrics :- MetricsByService(byService);
    Success(Dashboard(byService, metrics))
  }

  /**
   * Preparing the dashboard never divides by zero, since groupby yields no
   * empty run; its metrics follow the service dict entry by entry, and every
   * resource's service has an entry.
   */
  lemma PrepareDashboardSpec(resources: seq<ResourceWithTagDiffs>)
    ensures PrepareDashboard(resources).Success?
    ensures var d := PrepareDashboard(resources).value;
      && DistinctKeys(d.resourcesByService)
      && |d.metricsByService| == |d.resourcesByService|
      && (forall i :: 0 <= i < |d.resourcesByService| ==>
            d.metricsByService[i].0 == d.resourcesByService[i].0 &&
            d.metricsByService[i].1.numberTaggedProperly <= d.metricsByService[i].1.numberOfResources)
      && (forall i :: 0 <= i < |resources| ==> HasKey(d.resourcesByService, resources[i].Service()))
  {
    var runs := Runs(resources, ServiceKey);
    var byService := DictOfRuns(runs);
    DictOfRunsDistinct(runs);
    DictOfRunsNonEmpty(resources, ServiceKey);
    DictCoversElements(resources, ServiceKey);
    var metrics := MetricsByService(byService);
    assert metrics.Success?;
    forall i | 0 <= i < |byService|
      ensures metrics.value[i].1.numberTaggedProperly <= metrics.value[i].1.numberOfResources
    {
      CountProperlyTaggedSpec(byService[i].1);
    }
  }

  /** Every entry of the dict built from the runs of a sequence is non-empty. */
  lemma DictOfRunsNonEmpty<T>(s: seq<T>, key: T -> string)
    ensures forall j :: 0 <= j < |DictOfRuns(Runs(s, key))| ==> |DictOfRuns(Runs(s, key))[j].1| > 0
  {
    var runs := Runs(s, key);
    RunsWellFormed(s, key);
    DictOfRunsFromRuns(runs);
    EntriesNonEmpty(DictOfRuns(runs), runs);
  }

  /** Entries taken from non-empty runs are non-empty. */
  lemma EntriesNonEmpty<T>(d: seq<(string, seq<T>)>, runs: seq<(string, seq<T>)>)
    requires FromRuns(d, runs)
    requires forall i :: 0 <= i < |runs| ==> |runs[i].1| > 0
    ensures forall j :: 0 <= j < |d| ==> |d[j].1| > 0
  {
    forall j | 0 <= j < |d| ensures |d[j].1| > 0 {
      var i :| 0 <= i < |runs| && d[j] == runs[i];
    }
  }

  /** The key of every element has an entry in the dict built from the runs. */
  lemma DictCoversElements<T>(s: seq<T>, key: T -> string)
    ensures forall i :: 0 <= i < |s| ==> HasKey(DictOfRuns(Runs(s, key)), key(s[i]))
  {
    var runs := Runs(s, key);
    DictOfRunsKeys(runs);
    forall i | 0 <= i < |s| ensures HasKey(DictOfRuns(runs), key(s[i])) {
      RunsContain(s, key, i);
      var j :| 0 <= j < |runs| && runs[j].0 == key(s[i]);
    }
  }

  /** On resources sorted by service, the dashboard groups them exactly as the `setdefault` grouping would. */
  lemma SortedDashboardGroupsByService(resources: seq<ResourceWithTagDiffs>)
    requires Contiguous(resources, ServiceKey)
    ensures PrepareDashboard(resources).Success?
    ensures PrepareDashboard(resources).value.resourcesByService == GroupBy(resources, ServiceKey)
  {
    PrepareDashboardSpec(resources);
    ContiguousDictIsGrouping(resources, ServiceKey);
  }

  /** Every element's key is the key of some run. */
  lemma {:induction false} RunsContain<T>(s: seq<T>, key: T -> string, i: int)
    requires 0 <= i < |s|
    ensures HasKey(Runs(s, key), key(s[i]))
  {
    var r := Runs(s, key);
    if i == |s| - 1 {
      assert r[|r| - 1].0 == key(s[i]);
    } else {
      var init := s[..|s| - 1];
      RunsContain(init, key, i);
      var ri := Runs(init, key);
      var j :| 0 <= j < |ri| && ri[j].0 == key(init[i]);
      if |ri| > 0 && ri[|ri| - 1].0 == key(s[|s| - 1]) {
        assert r[j].0 == key(s[i]);
      } else {
        assert r[j].0 == key(s[i]);
      }
    }
  }
}
