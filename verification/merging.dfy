/**
 * Folding the results of several taggers into one (`__reduce_to_single_result`
 * of the SuperTagger): successes are concatenated in order, failure dicts
 * are merged with the later entry winning.
 */
module Merging {
  import opened Results
  import opened Seqs
  import opened Model

  /** `TaggingResult(t1.successful_arns + t2.successful_arns, {**t1.failed_arns, **t2.failed_arns})` */
  function Merge(t1: TaggingResult, t2: TaggingResult): (t: TaggingResult)
    ensures |t.successfulArns| == |t1.successfulArns| + |t2.successfulArns|
    ensures forall a :: a in t.successfulArns <==> a in t1.successfulArns || a in t2.successfulArns
    ensures t.failedArns.Keys == t1.failedArns.Keys + t2.failedArns.Keys
    ensures forall a :: a in t2.failedArns ==> t.failedArns[a] == t2.failedArns[a]
    ensures forall a :: a in t1.failedArns && a !in t2.failedArns ==> t.failedArns[a] == t1.failedArns[a]
  {
    TaggingResult(t1.successfulArns + t2.successfulArns, t1.failedArns + t2.failedArns)
  }

  lemma MergeAssociative(t1: TaggingResult, t2: TaggingResult, t3: TaggingResult)
    ensures Merge(Merge(t1, t2), t3) == Merge(t1, Merge(t2, t3))
  {
    assert (t1.successfulArns + t2.successfulArns) + t3.successfulArns ==
           t1.successfulArns + (t2.successfulArns + t3.successfulArns);
    assert (t1.failedArns + t2.failedArns) + t3.failedArns == t1.failedArns + (t2.failedArns + t3.failedArns);
  }

  lemma MergeIdentity(t: TaggingResult)
    ensures Merge(EmptyResult, t) == t && Merge(t, EmptyResult) == t
  {
    assert [] + t.successfulArns == t.successfulArns;
    assert t.successfulArns + [] == t.successfulArns;
    assert map[] + t.failedArns == t.failedArns;
    assert t.failedArns + map[] == t.failedArns;
  }

  /** `functools.reduce(Merge, results)` for a non-empty list: a left fold. */
  function ReduceResults(results: seq<TaggingResult>): TaggingResult
    requires |results| > 0
  {
    if |results| == 1 then results[0]
    else Merge(ReduceResults(results[..|results| - 1]), results[|results| - 1])
  }

  /** `reduce` of a list with no element and no initial value raises TypeError. */
  datatype ReduceError = ReduceOfEmptySequence

  /** `__reduce_to_single_result`: an empty outer list gives the empty result; otherwise the flattened results are folded. */
  function ReduceToSingleResult(nested: seq<seq<TaggingResult>>): (r: Result<TaggingResult, ReduceError>)
    ensures |nested| == 0 ==> r == Success(EmptyResult)
    ensures r.Failure? <==> |nested| > 0 && |Flatten(nested)| == 0
  {
    if |nested| == 0 then Success(EmptyResult)
    else
      var flat := Flatten(nested);
      if |flat| == 0 then Failure(ReduceOfEmptySequence) else Success(ReduceResults(flat))
  }

  /** Some result in `results` lists `a` as tagged. */
  predicate SucceededIn(results: seq<TaggingResult>, a: string) {
    exists i :: 0 <= i < |results| && a in results[i].successfulArns
  }

  /** Some result in `results` lists `a` as failed. */
  predicate FailedIn(results: seq<TaggingResult>, a: string) {
    exists i :: 0 <= i < |results| && a in results[i].failedArns
  }

  function SuccessesOf(t: TaggingResult): seq<string> {
    t.successfulArns
  }

  /**
   * The fold concatenates the successes of the results in order, so it
   * gathers every success of every result, and nothing else.
   */
  lemma {:induction false} ReduceSuccesses(results: seq<TaggingResult>)
    requires |results| > 0
    ensures ReduceResults(results).successfulArns == Flatten(Map(results, SuccessesOf))
    ensures forall a :: a in ReduceResults(results).successfulArns <==> SucceededIn(results, a)
    decreases |results|
  {
    if |results| == 1 {
      assert Flatten(Map(results, SuccessesOf)) == results[0].successfulArns + Flatten([]);
    } else {
      var init := results[..|results| - 1];
      var last := results[|results| - 1];
      ReduceSuccesses(init);
      assert Map(results, SuccessesOf) == Map(init, SuccessesOf) + [last.successfulArns];
      FlattenAppend(Map(init, SuccessesOf), [last.successfulArns]);
      assert Flatten([last.successfulArns]) == last.successfulArns + Flatten([]);
      forall a ensures a in ReduceResults(results).successfulArns <==> SucceededIn(results, a) {
        if SucceededIn(init, a) {
          var i :| 0 <= i < |init| && a in init[i].successfulArns;
          assert results[i] == init[i];
        }
        if SucceededIn(results, a) {
          var i :| 0 <= i < |results| && a in results[i].successfulArns;
          if i < |results| - 1 {
            assert a in init[i].successfulArns;
          }
        }
      }
    }
  }

  /** The fold's failure dict has exactly the ARNs some result lists as failed. */
  lemma {:induction false} ReduceFailures(results: seq<TaggingResult>)
    requires |results| > 0
    ensures forall a :: a in ReduceResults(results).failedArns <==> FailedIn(results, a)
    decreases |results|
  {
    if |results| > 1 {
      var init := results[..|results| - 1];
      ReduceFailures(init);
      forall a ensures a in ReduceResults(results).failedArns <==> FailedIn(results, a) {
        if FailedIn(init, a) {
          var i :| 0 <= i < |init| && a in init[i].failedArns;
          assert results[i] == init[i];
        }
        if FailedIn(results, a) {
          var i :| 0 <= i < |results| && a in results[i].failedArns;
          if i < |results| - 1 {
            assert a in init[i].failedArns;
          }
        }
      }
    }
  }

  /** A failed ARN keeps the message of the last result that lists it. */
  lemma {:induction false} ReduceLastMessageWins(results: seq<TaggingResult>, i: int, a: string)
    requires 0 <= i < |results| && a in results[i].failedArns
    requires forall j :: i < j < |results| ==> a !in results[j].failedArns
    ensures a in ReduceResults(results).failedArns
    ensures ReduceResults(results).failedArns[a] == results[i].failedArns[a]
    decreases |results|
  {
    if i < |results| - 1 {
      var init := results[..|results| - 1];
      assert init[i] == results[i];
      ReduceLastMessageWins(init, i, a);
    }
  }

  /** Folding a concatenation folds each part and merges the two. */
  lemma {:induction false} ReduceResultsAppend(a: seq<TaggingResult>, b: seq<TaggingResult>)
    requires |a| > 0 && |b| > 0
    ensures ReduceResults(a + b) == Merge(ReduceResults(a), ReduceResults(b))
    decreases |b|
  {
    if |b| == 1 {
      assert (a + b)[..|a + b| - 1] == a;
    } else {
      var init := b[..|b| - 1];
      assert (a + b)[..|a + b| - 1] == a + init;
      ReduceResultsAppend(a, init);
      MergeAssociative(ReduceResults(a), ReduceResults(init), b[|b| - 1]);
    }
  }
}
