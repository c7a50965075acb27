/**
 * AbstractResourceGroupApiTagger: tags a list of resources through the
 * Resource Groups Tagging API in lists of at most twenty ARNs, drops an ARN
 * the API rejects and resends the rest, resends after throttling, and
 * accumulates failures across the lists of one run.
 *
 * The remote API is an oracle `Api`: its answer to a request may depend on
 * every request sent before it, which the model threads through the run.
 */
module ResourceGroupTagger {
  import opened Results
  import opened Seqs
  import opened Model
  import opened Resources
  import opened Sessions
  import opened Chunking
  import opened ArnFromError
  import opened Text

  /** `{tag.key: tag.value for tag in tags}`: for a repeated key the last tag wins. */
  function TagMap(tags: seq<Tag>): (m: map<string, string>)
    ensures m.Keys == set i | 0 <= i < |tags| :: tags[i].key
    ensures forall i :: 0 <= i < |tags| && (forall j :: i < j < |tags| ==> tags[j].key != tags[i].key) ==>
      tags[i].key in m && m[tags[i].key] == tags[i].value
    decreases |tags|
  {
    if |tags| == 0 then map[]
    else
      var init := tags[..|tags| - 1];
      var last := tags[|tags| - 1];
      assert forall i :: 0 <= i < |init| ==> init[i] == tags[i];
      TagMap(init)[last.key := last.value]
  }

  /** One `client.tag_resources(ResourceARNList=..., Tags=...)` call, with the endpoint's region. */
  datatype Request = Request(region: string, arns: seq<string>, tags: map<string, string>)

  /** What one call of `tag_resources` comes back with. */
  datatype ApiResponse =
      /** a response; `FailedResourcesMap` maps ARNs to the `ErrorMessage` of their error, if it has one */
    | Tagged(failedResourcesMap: map<string, Option<string>>)
      /** InvalidParameterException, with the text of the exception */
    | InvalidParameter(text: string)
      /** ThrottledException */
    | Throttled
      /** any other exception */
    | OtherError

  /** The tagging API: the answer to a request, given every request sent before it. */
  type Api = (seq<Request>, Request) -> ApiResponse

  /** `_extract_failed_resource_arns`: each failed ARN with its error message, "" when there is none. */
  function ExtractFailedResourceArns(failedResources: map<string, Option<string>>): (m: map<string, string>)
    ensures m.Keys == failedResources.Keys
    ensures forall a :: a in failedResources && failedResources[a].Some? ==> m[a] == failedResources[a].value
    ensures forall a :: a in failedResources && failedResources[a].None? ==> m[a] == ""
  {
    map a | a in failedResources :: failedResources[a].GetOr("")
  }

  /** The mutable part of a tagger during one run: failures so far and the calls made. */
  datatype RunState = RunState(failedArns: map<string, string>, calls: seq<Request>)

  /** One finished `_tag_arn_list` call: the list as it stands after removals, the state, the result. */
  datatype ListOutcome = ListOutcome(finalArns: seq<string>, state: RunState, result: TaggingResult)

  /** `_transform_response_to_tagging_result` */
  function TransformResponse(arns: seq<string>, state: RunState, newFailures: map<string, string>)
    : (o: ListOutcome)
    ensures o.finalArns == arns && o.state.calls == state.calls
    ensures o.state.failedArns == state.failedArns + newFailures
    ensures o.result == ResultFor(arns, o.state.failedArns)
  {
    var failed := state.failedArns + newFailures;
    ListOutcome(arns, state.(failedArns := failed), ResultFor(arns, failed))
  }

  /** The test of the comprehension in `_transform_response_to_tagging_result`: the ARN has not failed. */
  function NotFailed(failed: map<string, string>): string -> bool {
    a => a !in failed
  }

  /** The tagging result of a list given every failure so far: the list's ARNs that did not fail, and the failures. */
  function ResultFor(arns: seq<string>, failed: map<string, string>): (r: TaggingResult)
    ensures r.failedArns == failed
    ensures forall a :: a in r.successfulArns <==> a in arns && a !in r.failedArns
    ensures |r.successfulArns| <= |arns|
    ensures (forall a :: a in arns ==> a !in r.failedArns) ==> r.successfulArns == arns
  {
    var successful := Filter(arns, NotFailed(failed));
    assert forall a :: a in successful ==> a in arns && a !in failed by {
      forall a | a in successful ensures a in arns && a !in failed {
        var i :| 0 <= i < |successful| && successful[i] == a;
      }
    }
    assert (forall a :: a in arns ==> a !in failed) ==> successful == arns by {
      if forall a :: a in arns ==> a !in failed {
        FilterAll(arns, NotFailed(failed));
      }
    }
    TaggingResult(successful, failed)
  }

  /**
   * The successes keep the list's order and repeats: the `k`-th success is
   * the ARN at the `k`-th position of the list whose ARN has not failed.
   */
  lemma ResultForInOrder(arns: seq<string>, failed: map<string, string>)
    ensures var r := ResultFor(arns, failed);
      && |r.successfulArns| == |Selected(arns, NotFailed(failed))|
      && forall k :: 0 <= k < |r.successfulArns| ==> r.successfulArns[k] == arns[Selected(arns, NotFailed(failed))[k]]
  {
    FilterInOrder(arns, NotFailed(failed));
  }

  /** The position of the first occurrence of `x` in `s`. */
  function FirstIndexOf(s: seq<string>, x: string): (k: nat)
    requires x in s
    ensures k < |s| && s[k] == x && x !in s[..k]
  {
    if s[0] == x then 0
    else
      assert s == [s[0]] + s[1..];
      var k := FirstIndexOf(s[1..], x);
      assert s[..k + 1] == [s[0]] + s[1..][..k];
      k + 1
  }

  /** `list.remove(x)`: drops the first occurrence. */
  function RemoveFirst(s: seq<string>, x: string): (r: seq<string>)
    requires x in s
    ensures |r| == |s| - 1
    ensures multiset(r) == multiset(s) - multiset{x}
  {
    if s[0] == x then
      assert s == [s[0]] + s[1..];
      s[1..]
    else
      assert s == [s[0]] + s[1..];
      [s[0]] + RemoveFirst(s[1..], x)
  }

  /** `list.remove(x)` keeps the order: the result is the list without its first occurrence of `x`. */
  lemma {:induction false} RemoveFirstKeepsOrder(s: seq<string>, x: string)
    requires x in s
    ensures RemoveFirst(s, x) == s[..FirstIndexOf(s, x)] + s[FirstIndexOf(s, x) + 1..]
  {
    if s[0] != x {
      assert s == [s[0]] + s[1..];
      RemoveFirstKeepsOrder(s[1..], x);
      RemoveFirstShift(s, x, RemoveFirst(s[1..], x));
    }
  }

  /** The first occurrence in the tail, one position further on, is the first occurrence in the whole list. */
  lemma RemoveFirstShift(s: seq<string>, x: string, rest: seq<string>)
    requires |s| > 0 && s[0] != x && x in s[1..]
    requires rest == s[1..][..FirstIndexOf(s[1..], x)] + s[1..][FirstIndexOf(s[1..], x) + 1..]
    ensures [s[0]] + rest == s[..FirstIndexOf(s, x)] + s[FirstIndexOf(s, x) + 1..]
  {
    var k := FirstIndexOf(s[1..], x);
    assert FirstIndexOf(s, x) == k + 1;
    assert s[..k + 1] == [s[0]] + s[1..][..k];
    assert s[k + 2..] == s[1..][k + 1..];
  }

  /** Dropping an ARN that has failed does not change which ARNs of the list pass as not failed, nor their order. */
  lemma FilterSkipsRemoved(s: seq<string>, x: string, failed: map<string, string>)
    requires x in s && x in failed
    ensures Filter(RemoveFirst(s, x), NotFailed(failed)) == Filter(s, NotFailed(failed))
  {
    RemoveFirstKeepsOrder(s, x);
    FilterDropsAt(s, FirstIndexOf(s, x), NotFailed(failed));
  }

  /** Every request from index `from` on went to `region` with `tags` and a sub-list of `arns`. */
  ghost predicate SentFrom(calls: seq<Request>, from: nat, region: string, tags: map<string, string>, arns: seq<string>) {
    from <= |calls| &&
    forall k :: from <= k < |calls| ==>
      calls[k].region == region && calls[k].tags == tags && |calls[k].arns| <= |arns| &&
      forall a :: a in calls[k].arns ==> a in arns
  }

  /** What every successful `_tag_arn_list` call guarantees about its outcome. */
  ghost predicate ListOutcomeSound(arns: seq<string>, state: RunState, region: string, tags: map<string, string>, o: ListOutcome) {
    && o.result.failedArns == o.state.failedArns
    && (forall a :: a in o.result.successfulArns <==> a in o.finalArns && a !in o.result.failedArns)
    && (forall a :: a in o.finalArns ==> a in arns)
    && (forall a :: a in arns ==> a in o.result.successfulArns || a in o.result.failedArns)
    && state.failedArns.Keys <= o.state.failedArns.Keys
    && |o.state.calls| > |state.calls|
    && o.state.calls[..|state.calls|] == state.calls
    && o.state.calls[|state.calls|] == Request(region, arns, tags)
    && SentFrom(o.state.calls, |state.calls|, region, tags, arns)
  }

  /** A list answered directly: the outcome of transforming the response is sound. */
  lemma DirectSound(arns: seq<string>, state: RunState, region: string, tags: map<string, string>,
                    newFailures: map<string, string>)
    ensures ListOutcomeSound(arns, state, region, tags,
      TransformResponse(arns, state.(calls := state.calls + [Request(region, arns, tags)]), newFailures))
  {
    var calls := state.calls + [Request(region, arns, tags)];
    assert calls[..|state.calls|] == state.calls;
  }

  /**
   * A list resent after a removal or throttling: if the nested call on
   * `remaining` is sound and every ARN left out of it already failed, the
   * outer outcome is sound for the whole list.
   */
  lemma RetrySound(arns: seq<string>, state: RunState, region: string, tags: map<string, string>,
                   remaining: seq<string>, mid: RunState, retried: ListOutcome)
    requires mid.calls == state.calls + [Request(region, arns, tags)]
    requires state.failedArns.Keys <= mid.failedArns.Keys
    requires forall a :: a in arns ==> a in remaining || a in mid.failedArns
    requires forall a :: a in remaining ==> a in arns
    requires |remaining| <= |arns|
    requires ListOutcomeSound(remaining, mid, region, tags, retried)
    ensures ListOutcomeSound(arns, state, region, tags, TransformResponse(retried.finalArns, retried.state, map[]))
  {
    var calls := retried.state.calls;
    assert calls[..|mid.calls|] == mid.calls;
    assert calls[..|state.calls|] == mid.calls[..|state.calls|] == state.calls;
    assert calls[|state.calls|] == mid.calls[|state.calls|];
  }

  /** The ARNs an answer names: the failed resources of a response, or the ARN an invalid-parameter error rejects. */
  predicate NamesArn(answer: ApiResponse, a: string) {
    match answer
    case Tagged(failedResources) => a in failedResources
    case InvalidParameter(text) => ExtractArnFromError(text) == Success(a)
    case _ => false
  }

  /** The API's answer to the call at index `k`, given the calls before it. */
  function AnswerAt(api: Api, calls: seq<Request>, k: nat): ApiResponse
    requires k < |calls|
  {
    api(calls[..k], calls[k])
  }

  /** An answer to some call from index `from` on names `a`. */
  ghost predicate NamedFrom(api: Api, calls: seq<Request>, from: nat, a: string) {
    exists k :: from <= k < |calls| && NamesArn(AnswerAt(api, calls, k), a)
  }

  /** Every failure of `after` was already a failure of `before`, or an answer to a call made since named it. */
  ghost predicate FailuresNamed(api: Api, before: RunState, after: RunState) {
    forall a :: a in after.failedArns ==> a in before.failedArns || NamedFrom(api, after.calls, |before.calls|, a)
  }

  /** A name given by an answer stays given when later calls are appended and when counting from earlier on. */
  lemma NamedFromExtends(api: Api, calls: seq<Request>, later: seq<Request>, from: nat, from': nat, a: string)
    requires from' <= from && |calls| <= |later| && later[..|calls|] == calls
    requires NamedFrom(api, calls, from, a)
    ensures NamedFrom(api, later, from', a)
  {
    var k :| from <= k < |calls| && NamesArn(AnswerAt(api, calls, k), a);
    assert later[..k] == calls[..k];
    assert AnswerAt(api, later, k) == AnswerAt(api, calls, k);
  }

  /** A list answered directly: its new failures are those its answer names. */
  lemma DirectNamed(api: Api, state: RunState, request: Request, newFailures: map<string, string>)
    requires forall a :: a in newFailures ==> NamesArn(api(state.calls, request), a)
    ensures FailuresNamed(api, state, RunState(state.failedArns + newFailures, state.calls + [request]))
  {
    var calls := state.calls + [request];
    assert calls[..|state.calls|] == state.calls;
    assert AnswerAt(api, calls, |state.calls|) == api(state.calls, request);
  }

  /** A list resent: failures recorded before the resend were named by the first answer, the rest by later ones. */
  lemma RetryNamed(api: Api, state: RunState, request: Request, mid: RunState, final: RunState)
    requires mid.calls == state.calls + [request]
    requires forall a :: a in mid.failedArns ==> a in state.failedArns || NamesArn(api(state.calls, request), a)
    requires |mid.calls| <= |final.calls| && final.calls[..|mid.calls|] == mid.calls
    requires FailuresNamed(api, mid, final)
    ensures FailuresNamed(api, state, final.(failedArns := final.failedArns + map[]))
  {
    assert final.failedArns + map[] == final.failedArns;
    DirectNamed(api, state, request, map[]);
    assert mid.calls[..|state.calls|] == state.calls;
    forall a | a in final.failedArns ensures a in state.failedArns || NamedFrom(api, final.calls, |state.calls|, a) {
      if a in mid.failedArns && a !in state.failedArns {
        assert AnswerAt(api, mid.calls, |state.calls|) == api(state.calls, request);
        NamedFromExtends(api, mid.calls, final.calls, |state.calls|, |state.calls|, a);
      } else if a !in mid.failedArns {
        NamedFromExtends(api, final.calls, final.calls, |mid.calls|, |state.calls|, a);
      }
    }
  }

  /**
   * `_tag_arn_list`. A rejected ARN is removed from the list, recorded with
   * the exception's text, and the rest is sent again; a throttled list is
   * sent again (at most `fuel` throttle retries for this list, however many
   * rejections come between them); any other exception counts
   * the whole list as tagged. The result is taken on the list as it stands
   * after the removals made by the nested calls.
   */
  function TagArnList(api: Api, region: string, tags: map<string, string>, arns: seq<string>,
                      state: RunState, fuel: nat)
    : (r: Result<ListOutcome, TagError>)
    ensures r.Success? ==> ListOutcomeSound(arns, state, region, tags, r.value)
    ensures r.Success? ==> FailuresNamed(api, state, r.value.state)
    decreases fuel, |arns|
  {
    var request := Request(region, arns, tags);
    var sent := state.(calls := state.calls + [request]);
    match api(state.calls, request)
    case Tagged(failedResources) =>
      DirectSound(arns, state, region, tags, ExtractFailedResourceArns(failedResources));
      DirectNamed(api, state, request, ExtractFailedResourceArns(failedResources));
      Success(TransformResponse(arns, sent, ExtractFailedResourceArns(failedResources)))
    case OtherError =>
      DirectSound(arns, state, region, tags, map[]);
      DirectNamed(api, state, request, map[]);
      Success(TransformResponse(arns, sent, map[]))
    case InvalidParameter(text) =>
      var failedArn :- ExtractArnFromError(text);
      if failedArn !in arns then Failure(ArnNotInList(failedArn))
      else
        var remaining := RemoveFirst(arns, failedArn);
        var mid := sent.(failedArns := sent.failedArns[failedArn := text]);
        var retried :- TagArnList(api, region, tags, remaining, mid, fuel);
        RemovalKeepsOthers(arns, failedArn);
        RetrySound(arns, state, region, tags, remaining, mid, retried);
        RetryNamed(api, state, request, mid, retried.state);
        Success(TransformResponse(retried.finalArns, retried.state, map[]))
    case Throttled =>
      if fuel == 0 then Failure(ThrottleRetriesExhausted)
      else
        var retried :- TagArnList(api, region, tags, arns, sent, fuel - 1);
        RetrySound(arns, state, region, tags, arns, sent, retried);
        RetryNamed(api, state, request, sent, retried.state);
        Success(TransformResponse(retried.finalArns, retried.state, map[]))
  }

  /**
   * The order `_tag_arn_list` keeps: its successes are the list's ARNs that
   * did not fail, in the list's order and with its repeats, however many
   * removals and resends it took, because the removals drop only ARNs that
   * failed.
   */
  lemma {:induction false} TagArnListInOrder(api: Api, region: string, tags: map<string, string>, arns: seq<string>,
                                             state: RunState, fuel: nat)
    requires TagArnList(api, region, tags, arns, state, fuel).Success?
    ensures var o := TagArnList(api, region, tags, arns, state, fuel).value;
      && o.result == ResultFor(arns, o.state.failedArns)
      && Filter(o.finalArns, NotFailed(o.state.failedArns)) == Filter(arns, NotFailed(o.state.failedArns))
    decreases fuel, |arns|
  {
    var request := Request(region, arns, tags);
    match api(state.calls, request)
    case Tagged(failedResources) =>
      TaggedAnswer(api, region, tags, arns, state, fuel, failedResources);
    case OtherError =>
    case InvalidParameter(text) =>
      InvalidParameterRecordsArn(api, region, tags, arns, state, fuel, text);
      InvalidAnswer(api, region, tags, arns, state, fuel, text);
      var failedArn := ExtractArnFromError(text).value;
      var mid := RunState(state.failedArns[failedArn := text], state.calls + [request]);
      var remaining := RemoveFirst(arns, failedArn);
      TagArnListInOrder(api, region, tags, remaining, mid, fuel);
      var retried := TagArnList(api, region, tags, remaining, mid, fuel).value;
      FilterSkipsRemoved(arns, failedArn, retried.state.failedArns);
      RetryInOrder(arns, remaining, retried);
    case Throttled =>
      if fuel > 0 {
        ThrottledAnswer(api, region, tags, arns, state, fuel);
        var sent := state.(calls := state.calls + [request]);
        TagArnListInOrder(api, region, tags, arns, sent, fuel - 1);
        RetryInOrder(arns, arns, TagArnList(api, region, tags, arns, sent, fuel - 1).value);
      }
  }

  /** A resend whose list passes the same ARNs in the same order as the whole list leaves the whole list's result. */
  lemma RetryInOrder(arns: seq<string>, remaining: seq<string>, retried: ListOutcome)
    requires Filter(retried.finalArns, NotFailed(retried.state.failedArns)) == Filter(remaining, NotFailed(retried.state.failedArns))
    requires Filter(remaining, NotFailed(retried.state.failedArns)) == Filter(arns, NotFailed(retried.state.failedArns))
    ensures var o := TransformResponse(retried.finalArns, retried.state, map[]);
      && o.result == ResultFor(arns, o.state.failedArns)
      && Filter(o.finalArns, NotFailed(o.state.failedArns)) == Filter(arns, NotFailed(o.state.failedArns))
  {
    assert retried.state.failedArns + map[] == retried.state.failedArns;
  }

  /** After `list.remove(x)` every other element is still there, and nothing new is. */
  lemma {:induction false} RemovalKeepsOthers(s: seq<string>, x: string)
    requires x in s
    ensures forall a :: a in s && a != x ==> a in RemoveFirst(s, x)
    ensures forall a :: a in RemoveFirst(s, x) ==> a in s
  {
    assert s == [s[0]] + s[1..];
    if s[0] != x {
      RemovalKeepsOthers(s[1..], x);
    }
  }

  /** One list's result: its successes are its own ARNs that did not fail, and each of its ARNs is in one of the two. */
  ghost predicate ListResultSound(arns: seq<string>, result: TaggingResult) {
    && (forall a :: a in result.successfulArns ==> a in arns && a !in result.failedArns)
    && (forall a :: a in arns ==> a in result.successfulArns || a in result.failedArns)
  }

  /** Every request from index `from` on went to `region` with `tags` and part of one of the `lists`. */
  ghost predicate SentFromLists(calls: seq<Request>, from: nat, region: string, tags: map<string, string>,
                                lists: seq<seq<string>>) {
    from <= |calls| &&
    forall k :: from <= k < |calls| ==>
      calls[k].region == region && calls[k].tags == tags &&
      exists i :: 0 <= i < |lists| && |calls[k].arns| <= |lists[i]| && forall a :: a in calls[k].arns ==> a in lists[i]
  }

  /** What the loop of `tag_all` guarantees: one sound result per list, failures only ever added. */
  ghost predicate RunSound(lists: seq<seq<string>>, state: RunState, region: string, tags: map<string, string>,
                           results: seq<TaggingResult>, final: RunState) {
    && |results| == |lists|
    && (forall i :: 0 <= i < |lists| ==> ListResultSound(lists[i], results[i]))
    && (forall i :: 0 <= i < |results| ==>
          state.failedArns.Keys <= results[i].failedArns.Keys <= final.failedArns.Keys)
    && (forall i, j :: 0 <= i < j < |results| ==> results[i].failedArns.Keys <= results[j].failedArns.Keys)
    && state.failedArns.Keys <= final.failedArns.Keys
    && |final.calls| >= |state.calls| + |lists|
    && final.calls[..|state.calls|] == state.calls
    && SentFromLists(final.calls, |state.calls|, region, tags, lists)
  }

  /** Every failure in the results of a run was a failure before it, or an answer to one of its calls named it. */
  ghost predicate RunNamed(api: Api, state: RunState, results: seq<TaggingResult>, final: RunState) {
    forall i, a :: 0 <= i < |results| && a in results[i].failedArns ==>
      a in state.failedArns || NamedFrom(api, final.calls, |state.calls|, a)
  }

  /** The first list's failures and the rest of the run's failures are both accounted for from the run's start. */
  lemma RunNamedStep(api: Api, state: RunState, first: ListOutcome, results: seq<TaggingResult>, final: RunState)
    requires first.result.failedArns == first.state.failedArns
    requires |state.calls| <= |first.state.calls| <= |final.calls|
    requires final.calls[..|first.state.calls|] == first.state.calls
    requires FailuresNamed(api, state, first.state)
    requires RunNamed(api, first.state, results, final)
    ensures RunNamed(api, state, [first.result] + results, final)
  {
    var all := [first.result] + results;
    forall i, a | 0 <= i < |all| && a in all[i].failedArns
      ensures a in state.failedArns || NamedFrom(api, final.calls, |state.calls|, a)
    {
      if i > 0 {
        assert all[i] == results[i - 1];
        if a !in first.state.failedArns {
          NamedFromExtends(api, final.calls, final.calls, |first.state.calls|, |state.calls|, a);
        }
      }
      if a in first.state.failedArns && a !in state.failedArns {
        NamedFromExtends(api, first.state.calls, final.calls, |state.calls|, |state.calls|, a);
      }
    }
  }

  /** The loop of `tag_all`: each list in turn, the failures carried from one list to the next. */
  function TagLists(api: Api, region: string, tags: map<string, string>, lists: seq<seq<string>>,
                    state: RunState, fuel: nat)
    : (r: Result<(seq<TaggingResult>, RunState), TagError>)
    ensures r.Success? ==> RunSound(lists, state, region, tags, r.value.0, r.value.1)
    ensures r.Success? ==> RunNamed(api, state, r.value.0, r.value.1)
    ensures r.Success? ==> ListsInOrder(lists, r.value.0)
    decreases |lists|
  {
    if |lists| == 0 then Success(([], state))
    else
      var first :- TagArnList(api, region, tags, lists[0], state, fuel);
      var rest :- TagLists(api, region, tags, lists[1..], first.state, fuel);
      RunStep(api, region, tags, lists, state, first, rest.0, rest.1);
      RunNamedStep(api, state, first, rest.0, rest.1);
      TagArnListInOrder(api, region, tags, lists[0], state, fuel);
      InOrderStep(lists, first.result, rest.0);
      Success(([first.result] + rest.0, rest.1))
  }

  /** Each list's result holds that list's ARNs that had not failed by then, in the list's order. */
  ghost predicate ListsInOrder(lists: seq<seq<string>>, results: seq<TaggingResult>) {
    |results| == |lists| && forall i :: 0 <= i < |lists| ==> results[i] == ResultFor(lists[i], results[i].failedArns)
  }

  lemma InOrderStep(lists: seq<seq<string>>, first: TaggingResult, results: seq<TaggingResult>)
    requires |lists| > 0 && first == ResultFor(lists[0], first.failedArns)
    requires ListsInOrder(lists[1..], results)
    ensures ListsInOrder(lists, [first] + results)
  {
    forall i | 1 <= i < |lists| ensures ([first] + results)[i] == ResultFor(lists[i], ([first] + results)[i].failedArns) {
      assert lists[i] == lists[1..][i - 1];
    }
  }

  /** Soundness of the first list and of the remaining run give soundness of the whole run. */
  lemma RunStep(api: Api, region: string, tags: map<string, string>, lists: seq<seq<string>>,
                state: RunState, first: ListOutcome, results: seq<TaggingResult>, final: RunState)
    requires |lists| > 0
    requires ListOutcomeSound(lists[0], state, region, tags, first)
    requires RunSound(lists[1..], first.state, region, tags, results, final)
    ensures RunSound(lists, state, region, tags, [first.result] + results, final)
  {
    var all := [first.result] + results;
    forall i | 0 <= i < |lists| ensures ListResultSound(lists[i], all[i]) {
      if i > 0 {
        assert lists[i] == lists[1..][i - 1];
      }
    }
    var calls := final.calls;
    assert calls[..|first.state.calls|] == first.state.calls;
    assert calls[..|state.calls|] == first.state.calls[..|state.calls|];
    forall k | |state.calls| <= k < |calls|
      ensures calls[k].region == region && calls[k].tags == tags
      ensures exists i :: 0 <= i < |lists| && |calls[k].arns| <= |lists[i]| &&
                          forall a :: a in calls[k].arns ==> a in lists[i]
    {
      if k < |first.state.calls| {
        assert calls[k] == first.state.calls[k];
        assert |calls[k].arns| <= |lists[0]| && forall a :: a in calls[k].arns ==> a in lists[0];
      } else {
        var i :| 0 <= i < |lists[1..]| && |calls[k].arns| <= |lists[1..][i]| &&
                 forall a :: a in calls[k].arns ==> a in lists[1..][i];
        assert lists[1..][i] == lists[i + 1];
      }
    }
  }

  /** Where a tagger sends its requests. */
  datatype Scope = Regional(region: string) | Global

  /** Global resources are tagged through the us-east-1 endpoint. */
  const GlobalRegion: string := "us-east-1"

  function EndpointRegion(scope: Scope): string {
    match scope
    case Regional(region) => region
    case Global => GlobalRegion
  }

  /** A RegionTagger or GlobalTagger with the session it opened. */
  datatype BulkTagger = BulkTagger(scope: Scope, tags: seq<Tag>, resourcesToTag: seq<Resource>, session: Session)
  {
    /** the `arns` property */
    function Arns(): (arns: seq<string>)
      ensures |arns| == |resourcesToTag|
      ensures forall i :: 0 <= i < |arns| ==> arns[i] == resourcesToTag[i].arn
    {
      Map(resourcesToTag, (r: Resource) => r.arn)
    }
  }

  /** The constructor: it opens the session, so it fails exactly when `init_session` does. */
  function NewBulkTagger(scope: Scope, tags: seq<Tag>, resources: seq<Resource>,
                         credentials: Option<map<string, string>>, profile: Option<string>)
    : (r: Result<BulkTagger, ConfigError>)
    ensures r.Failure? <==> !HasCredentials(credentials) && !HasProfile(profile)
    ensures r.Success? ==> r.value.scope == scope && r.value.tags == tags && r.value.resourcesToTag == resources
    ensures r.Success? ==> Success(r.value.session) == InitSession(credentials, profile)
  {
    var session :- InitSession(credentials, profile);
    Success(BulkTagger(scope, tags, resources, session))
  }

  /**
   * `tag_all`: failures of earlier runs are forgotten, the ARNs are split
   * into lists of at most twenty and each list is tagged in turn. Returns
   * one result per list and the calls made so far. Every failure reported
   * was named by an answer to a call of this run.
   */
  function TagAll(tagger: BulkTagger, api: Api, calls: seq<Request>, fuel: nat)
    : (r: Result<(seq<TaggingResult>, seq<Request>), TagError>)
    ensures r.Success? ==> |r.value.0| == |SplitIntoSublists(tagger.Arns())|
    ensures r.Success? ==> forall i :: 0 <= i < |r.value.0| ==>
      ListResultSound(SplitIntoSublists(tagger.Arns())[i], r.value.0[i])
    ensures r.Success? ==> forall i, j :: 0 <= i < j < |r.value.0| ==>
      r.value.0[i].failedArns.Keys <= r.value.0[j].failedArns.Keys
    ensures r.Success? ==> |r.value.1| >= |calls| + 1 && r.value.1[..|calls|] == calls
    ensures r.Success? ==> forall k :: |calls| <= k < |r.value.1| ==>
      && r.value.1[k].region == EndpointRegion(tagger.scope)
      && r.value.1[k].tags == TagMap(tagger.tags)
      && |r.value.1[k].arns| <= MaxAllowedLengthOfArnList
      && forall a :: a in r.value.1[k].arns ==> a in tagger.Arns()
    ensures r.Success? ==> forall i, a :: 0 <= i < |r.value.0| && a in r.value.0[i].failedArns ==>
      NamedFrom(api, r.value.1, |calls|, a)
    ensures r.Success? ==> forall i :: 0 <= i < |r.value.0| ==>
      r.value.0[i] == ResultFor(SplitIntoSublists(tagger.Arns())[i], r.value.0[i].failedArns)
  {
    var lists := SplitIntoSublists(tagger.Arns());
    var run :- TagLists(api, EndpointRegion(tagger.scope), TagMap(tagger.tags), lists, RunState(map[], calls), fuel);
    RequestsStayWithinLists(tagger.Arns(), run.1.calls, |calls|, EndpointRegion(tagger.scope), TagMap(tagger.tags));
    Success((run.0, run.1.calls))
  }

  /** Requests made from the lists of a split carry at most twenty of the tagger's own ARNs. */
  lemma RequestsStayWithinLists(arns: seq<string>, calls: seq<Request>, from: nat, region: string,
                                tags: map<string, string>)
    requires SentFromLists(calls, from, region, tags, SplitIntoSublists(arns))
    ensures forall k :: from <= k < |calls| ==>
      |calls[k].arns| <= MaxAllowedLengthOfArnList && forall a :: a in calls[k].arns ==> a in arns
  {
    var lists := SplitIntoSublists(arns);
    SplitIntoSublistsSpec(arns);
    forall k | from <= k < |calls|
      ensures |calls[k].arns| <= MaxAllowedLengthOfArnList && forall a :: a in calls[k].arns ==> a in arns
    {
      var i :| 0 <= i < |lists| && |calls[k].arns| <= |lists[i]| && forall a :: a in calls[k].arns ==> a in lists[i];
      forall a | a in calls[k].arns ensures a in arns {
        FlattenMember(lists, a);
      }
    }
  }

  /** After a successful run every ARN of the tagger is reported, as tagged or as failed, in some result. */
  lemma EveryArnIsReported(tagger: BulkTagger, api: Api, calls: seq<Request>, fuel: nat, arn: string)
    requires TagAll(tagger, api, calls, fuel).Success?
    requires arn in tagger.Arns()
    ensures var results := TagAll(tagger, api, calls, fuel).value.0;
      exists i :: 0 <= i < |results| && (arn in results[i].successfulArns || arn in results[i].failedArns)
  {
    var lists := SplitIntoSublists(tagger.Arns());
    SplitIntoSublistsSpec(tagger.Arns());
    FlattenMember(lists, arn);
    var i :| 0 <= i < |lists| && arn in lists[i];
    assert ListResultSound(lists[i], TagAll(tagger, api, calls, fuel).value.0[i]);
  }

  /** An API that accepts everything: each list comes back fully tagged and no failure is recorded. */
  lemma {:induction false} AllAcceptedLists(api: Api, region: string, tags: map<string, string>,
                                             lists: seq<seq<string>>, state: RunState, fuel: nat)
    requires forall calls, request :: api(calls, request) == Tagged(map[])
    requires state.failedArns == map[]
    ensures TagLists(api, region, tags, lists, state, fuel).Success?
    ensures AllTagged(lists, TagLists(api, region, tags, lists, state, fuel).value.0)
    decreases |lists|
  {
    if |lists| > 0 {
      assert api(state.calls, Request(region, lists[0], tags)) == Tagged(map[]);
      TaggedAnswer(api, region, tags, lists[0], state, fuel, map[]);
      var first := TagArnList(api, region, tags, lists[0], state, fuel).value;
      assert ExtractFailedResourceArns(map[]) == map[];
      assert state.failedArns + map[] == map[];
      assert first.result == TaggingResult(lists[0], map[]);
      AllAcceptedLists(api, region, tags, lists[1..], first.state, fuel);
      var rest := TagLists(api, region, tags, lists[1..], first.state, fuel).value;
      TagListsStep(api, region, tags, lists, state, fuel);
      AllTaggedCons(lists, first.result, rest.0);
    }
  }

  /** Each list's result reports exactly that list as tagged, with no failure. */
  predicate AllTagged(lists: seq<seq<string>>, results: seq<TaggingResult>) {
    |results| == |lists| && forall i :: 0 <= i < |lists| ==> results[i] == TaggingResult(lists[i], map[])
  }

  lemma AllTaggedCons(lists: seq<seq<string>>, first: TaggingResult, results: seq<TaggingResult>)
    requires |lists| > 0 && first == TaggingResult(lists[0], map[])
    requires AllTagged(lists[1..], results)
    ensures AllTagged(lists, [first] + results)
  {
    forall i | 1 <= i < |lists| ensures ([first] + results)[i] == TaggingResult(lists[i], map[]) {
      assert lists[i] == lists[1..][i - 1];
    }
  }

  /** A run over several lists tags the first list, then the rest from the state the first left behind. */
  lemma TagListsStep(api: Api, region: string, tags: map<string, string>, lists: seq<seq<string>>,
                     state: RunState, fuel: nat)
    requires |lists| > 0
    requires TagArnList(api, region, tags, lists[0], state, fuel).Success?
    requires TagLists(api, region, tags, lists[1..],
                      TagArnList(api, region, tags, lists[0], state, fuel).value.state, fuel).Success?
    ensures var first := TagArnList(api, region, tags, lists[0], state, fuel).value;
      var rest := TagLists(api, region, tags, lists[1..], first.state, fuel).value;
      TagLists(api, region, tags, lists, state, fuel) == Success(([first.result] + rest.0, rest.1))
  {
  }

  /** With twenty-three resources and an API that accepts everything, `tag_all` returns two results: twenty ARNs, then three. */
  lemma TwentyThreeResourcesAllAccepted(tagger: BulkTagger, api: Api, calls: seq<Request>, fuel: nat)
    requires |tagger.resourcesToTag| == 23
    requires forall calls, request :: api(calls, request) == Tagged(map[])
    ensures TagAll(tagger, api, calls, fuel).Success?
    ensures TagAll(tagger, api, calls, fuel).value.0 ==
      [TaggingResult(tagger.Arns()[..20], map[]), TaggingResult(tagger.Arns()[20..], map[])]
  {
    TwentyThreeArnsMakeTwoLists(tagger.Arns());
    AllAcceptedLists(api, EndpointRegion(tagger.scope), TagMap(tagger.tags),
                     SplitIntoSublists(tagger.Arns()), RunState(map[], calls), fuel);
  }

  /**
   * The API rejects one ARN, then accepts the rest: the ARN is recorded as
   * failed with the exception's text and every other ARN is tagged.
   */
  lemma RejectedArnIsRemovedAndRestRetried(api: Api, region: string, tags: map<string, string>,
                                           arns: seq<string>, calls: seq<Request>, fuel: nat,
                                           rejected: string, text: string)
    requires multiset(arns)[rejected] == 1
    requires api(calls, Request(region, arns, tags)) == InvalidParameter(text)
    requires ExtractArnFromError(text) == Success(rejected)
    requires api(calls + [Request(region, arns, tags)], Request(region, RemoveFirst(arns, rejected), tags)) == Tagged(map[])
    ensures TagArnList(api, region, tags, arns, RunState(map[], calls), fuel).Success?
    ensures TagArnList(api, region, tags, arns, RunState(map[], calls), fuel).value.result ==
      TaggingResult(RemoveFirst(arns, rejected), map[rejected := text])
    ensures |RemoveFirst(arns, rejected)| == |arns| - 1
  {
    RemoveUnique(arns, rejected);
    var remaining := RemoveFirst(arns, rejected);
    var failed := map[rejected := text];
    var mid := RunState(failed, calls + [Request(region, arns, tags)]);
    assert map[][rejected := text] == failed;
    AcceptedListKeepsAll(api, region, tags, remaining, mid, fuel);
    var inner := TagArnList(api, region, tags, remaining, mid, fuel).value;
    assert TransformResponse(inner.finalArns, inner.state, map[]).result == TaggingResult(remaining, failed);
  }

  /** Removing the only occurrence of an ARN leaves none behind. */
  lemma RemoveUnique(arns: seq<string>, x: string)
    requires multiset(arns)[x] == 1
    ensures x in arns
    ensures forall a :: a in RemoveFirst(arns, x) ==> a != x
  {
    assert x in multiset(arns);
    var remaining := RemoveFirst(arns, x);
    assert multiset(remaining)[x] == 0;
    forall a | a in remaining ensures a != x {
      assert multiset(remaining)[a] > 0;
    }
  }

  /** A list the API accepts in full, none of whose ARNs failed before, is tagged as it is. */
  lemma AcceptedListKeepsAll(api: Api, region: string, tags: map<string, string>,
                             arns: seq<string>, state: RunState, fuel: nat)
    requires api(state.calls, Request(region, arns, tags)) == Tagged(map[])
    requires forall a :: a in arns ==> a !in state.failedArns
    ensures TagArnList(api, region, tags, arns, state, fuel).Success?
    ensures TagArnList(api, region, tags, arns, state, fuel).value.finalArns == arns
    ensures TagArnList(api, region, tags, arns, state, fuel).value.result == TaggingResult(arns, state.failedArns)
  {
    assert ExtractFailedResourceArns(map[]) == map[];
    assert state.failedArns + map[] == state.failedArns;
  }

  /**
   * A throttled list that is then tagged ends exactly as if it had been
   * tagged the first time: its result is the one `TaggedAnswer` gives for a
   * direct response, taken on the failures so far plus the response's.
   */
  lemma ThrottledThenTaggedIsTransparent(api: Api, region: string, tags: map<string, string>,
                                         arns: seq<string>, state: RunState, fuel: nat,
                                         failedResources: map<string, Option<string>>)
    requires fuel > 0
    requires api(state.calls, Request(region, arns, tags)) == Throttled
    requires api(state.calls + [Request(region, arns, tags)], Request(region, arns, tags)) == Tagged(failedResources)
    ensures TagArnList(api, region, tags, arns, state, fuel).Success?
    ensures TagArnList(api, region, tags, arns, state, fuel).value.result ==
      ResultFor(arns, state.failedArns + ExtractFailedResourceArns(failedResources))
  {
    var request := Request(region, arns, tags);
    var sent := state.(calls := state.calls + [request]);
    var failures := ExtractFailedResourceArns(failedResources);
    TaggedAnswer(api, region, tags, arns, sent, fuel - 1, failedResources);
    ThrottledAnswer(api, region, tags, arns, state, fuel);
    TransformTwice(arns, sent.(calls := sent.calls + [request]), failures);
  }

  /** Transforming a list's outcome again with no new failure leaves its result as it was. */
  lemma TransformTwice(arns: seq<string>, state: RunState, failures: map<string, string>)
    ensures var inner := TransformResponse(arns, state, failures);
      TransformResponse(inner.finalArns, inner.state, map[]).result == ResultFor(arns, state.failedArns + failures)
  {
    var inner := TransformResponse(arns, state, failures);
    assert inner.state.failedArns + map[] == inner.state.failedArns;
  }

  /** A list the API answers with a response is transformed directly, with the response's failures. */
  lemma TaggedAnswer(api: Api, region: string, tags: map<string, string>, arns: seq<string>,
                     state: RunState, fuel: nat, failedResources: map<string, Option<string>>)
    requires api(state.calls, Request(region, arns, tags)) == Tagged(failedResources)
    ensures TagArnList(api, region, tags, arns, state, fuel) ==
      Success(TransformResponse(arns, state.(calls := state.calls + [Request(region, arns, tags)]),
                                ExtractFailedResourceArns(failedResources)))
  {
  }

  /** A throttled list with budget left is sent again, and the outer result is taken on the retry's list and state. */
  lemma ThrottledAnswer(api: Api, region: string, tags: map<string, string>, arns: seq<string>,
                        state: RunState, fuel: nat)
    requires fuel > 0
    requires api(state.calls, Request(region, arns, tags)) == Throttled
    ensures var retried := TagArnList(api, region, tags, arns,
                                      state.(calls := state.calls + [Request(region, arns, tags)]), fuel - 1);
      TagArnList(api, region, tags, arns, state, fuel) ==
        if retried.Success? then Success(TransformResponse(retried.value.finalArns, retried.value.state, map[]))
        else retried
  {
  }

  /**
   * A list whose answer rejects one of its ARNs: the ARN is recorded as
   * failed with the exception's text, the list without its first occurrence
   * is sent again from there, and the outer result is taken on the retry's
   * list and state.
   */
  lemma InvalidAnswer(api: Api, region: string, tags: map<string, string>, arns: seq<string>,
                      state: RunState, fuel: nat, text: string)
    requires api(state.calls, Request(region, arns, tags)) == InvalidParameter(text)
    requires ExtractArnFromError(text).Success? && ExtractArnFromError(text).value in arns
    ensures var failedArn := ExtractArnFromError(text).value;
      var mid := RunState(state.failedArns[failedArn := text], state.calls + [Request(region, arns, tags)]);
      var retried := TagArnList(api, region, tags, RemoveFirst(arns, failedArn), mid, fuel);
      TagArnList(api, region, tags, arns, state, fuel) ==
        if retried.Success? then Success(TransformResponse(retried.value.finalArns, retried.value.state, map[]))
        else retried
  {
  }

  /**
   * Whatever the API answers afterwards, an ARN rejected by an
   * invalid-parameter error ends among the failures of the list and not
   * among its successes.
   */
  lemma InvalidParameterRecordsArn(api: Api, region: string, tags: map<string, string>, arns: seq<string>,
                                   state: RunState, fuel: nat, text: string)
    requires api(state.calls, Request(region, arns, tags)) == InvalidParameter(text)
    requires TagArnList(api, region, tags, arns, state, fuel).Success?
    ensures ExtractArnFromError(text).Success? && ExtractArnFromError(text).value in arns
    ensures var o := TagArnList(api, region, tags, arns, state, fuel).value;
      && ExtractArnFromError(text).value in o.result.failedArns
      && ExtractArnFromError(text).value !in o.result.successfulArns
  {
    var failedArn := ExtractArnFromError(text).value;
    var mid := RunState(state.failedArns[failedArn := text], state.calls + [Request(region, arns, tags)]);
    InvalidAnswer(api, region, tags, arns, state, fuel, text);
    var retried := TagArnList(api, region, tags, RemoveFirst(arns, failedArn), mid, fuel).value;
    assert failedArn in retried.state.failedArns;
  }

  /** An API that throttles every call ends the run with exhausted retries, whatever the budget. */
  lemma {:induction false} AlwaysThrottledExhaustsRetries(api: Api, region: string, tags: map<string, string>,
                                                          arns: seq<string>, state: RunState, fuel: nat)
    requires forall calls, request :: api(calls, request) == Throttled
    ensures TagArnList(api, region, tags, arns, state, fuel) == Failure(ThrottleRetriesExhausted)
    decreases fuel
  {
    var sent := state.(calls := state.calls + [Request(region, arns, tags)]);
    assert api(state.calls, Request(region, arns, tags)) == Throttled;
    if fuel > 0 {
      AlwaysThrottledExhaustsRetries(api, region, tags, arns, sent, fuel - 1);
    }
  }

  /** Any other exception counts the whole list as tagged, apart from ARNs that had already failed. */
  lemma OtherErrorCountsAsTagged(api: Api, region: string, tags: map<string, string>,
                                 arns: seq<string>, state: RunState, fuel: nat)
    requires api(state.calls, Request(region, arns, tags)) == OtherError
    ensures TagArnList(api, region, tags, arns, state, fuel).Success?
    ensures TagArnList(api, region, tags, arns, state, fuel).value.result.failedArns == state.failedArns
    ensures forall a :: a in TagArnList(api, region, tags, arns, state, fuel).value.result.successfulArns <==>
      a in arns && a !in state.failedArns
  {
    assert state.failedArns + map[] == state.failedArns;
  }

  /** An invalid-parameter error whose text names no ARN, or an ARN that was not sent, aborts the run. */
  lemma InvalidParameterAborts(api: Api, region: string, tags: map<string, string>,
                               arns: seq<string>, state: RunState, fuel: nat, text: string)
    requires api(state.calls, Request(region, arns, tags)) == InvalidParameter(text)
    ensures !Contains(text, OperationMarker) ==>
      TagArnList(api, region, tags, arns, state, fuel) == Failure(UnparsableInvalidParameter(text))
    ensures ExtractArnFromError(text).Success? && ExtractArnFromError(text).value !in arns ==>
      TagArnList(api, region, tags, arns, state, fuel) == Failure(ArnNotInList(ExtractArnFromError(text).value))
  {
  }
}
