/**
 * `split_into_sublist` of the Resource Groups Tagging API taggers: the ARNs
 * of one tagger are sent in lists of at most twenty, the API's limit.
 */
module Chunking {
  import opened Seqs

  const MaxAllowedLengthOfArnList: nat := 20

  /** `[arns[x : x + 20] for x in range(from, len(arns), 20)]` */
  function ChunksFrom(arns: seq<string>, from: nat): seq<seq<string>>
    decreases |arns| - from
  {
    if from >= |arns| then []
    else if from + MaxAllowedLengthOfArnList <= |arns| then
      [arns[from..from + MaxAllowedLengthOfArnList]] + ChunksFrom(arns, from + MaxAllowedLengthOfArnList)
    else
      [arns[from..]] + ChunksFrom(arns, from + MaxAllowedLengthOfArnList)
  }

  /** A list shorter than the limit is sent as it is, even when it is empty. */
  function SplitIntoSublists(arns: seq<string>): seq<seq<string>>
  {
    if |arns| < MaxAllowedLengthOfArnList then [arns] else ChunksFrom(arns, 0)
  }

  /** Every full-range slice: contents, sizes and count. */
  lemma {:induction false} ChunksFromSpec(arns: seq<string>, from: nat)
    requires from <= |arns|
    ensures Flatten(ChunksFrom(arns, from)) == arns[from..]
    ensures |ChunksFrom(arns, from)| == (|arns| - from + MaxAllowedLengthOfArnList - 1) / MaxAllowedLengthOfArnList
    ensures forall i :: 0 <= i < |ChunksFrom(arns, from)| ==>
      0 < |ChunksFrom(arns, from)[i]| <= MaxAllowedLengthOfArnList
    ensures forall i :: 0 <= i < |ChunksFrom(arns, from)| - 1 ==>
      |ChunksFrom(arns, from)[i]| == MaxAllowedLengthOfArnList
    decreases |arns| - from
  {
    var c := ChunksFrom(arns, from);
    if from == |arns| {
    } else if from + MaxAllowedLengthOfArnList <= |arns| {
      var next := from + MaxAllowedLengthOfArnList;
      ChunksFromSpec(arns, next);
      assert c == [arns[from..next]] + ChunksFrom(arns, next);
      assert c[1..] == ChunksFrom(arns, next);
      assert arns[from..] == arns[from..next] + arns[next..];
    } else {
      assert ChunksFrom(arns, from + MaxAllowedLengthOfArnList) == [];
      assert c == [arns[from..]];
      assert c[1..] == [];
      assert arns[from..] + [] == arns[from..];
    }
  }

  /**
   * The lists partition the ARNs in order, none exceeds the limit, every
   * list but the last is full, and there are ceil(n / 20) of them (one
   * when there are fewer than twenty ARNs).
   */
  lemma SplitIntoSublistsSpec(arns: seq<string>)
    ensures Flatten(SplitIntoSublists(arns)) == arns
    ensures |SplitIntoSublists(arns)| ==
      if |arns| < MaxAllowedLengthOfArnList then 1
      else (|arns| + MaxAllowedLengthOfArnList - 1) / MaxAllowedLengthOfArnList
    ensures forall i :: 0 <= i < |SplitIntoSublists(arns)| ==>
      |SplitIntoSublists(arns)[i]| <= MaxAllowedLengthOfArnList
    ensures forall i :: 0 <= i < |SplitIntoSublists(arns)| - 1 ==>
      |SplitIntoSublists(arns)[i]| == MaxAllowedLengthOfArnList
  {
    if |arns| < MaxAllowedLengthOfArnList {
      assert SplitIntoSublists(arns)[1..] == [];
      assert arns + [] == arns;
    } else {
      ChunksFromSpec(arns, 0);
      assert arns[0..] == arns;
    }
  }

  /** Twenty-three ARNs go out as a list of twenty followed by a list of three. */
  lemma TwentyThreeArnsMakeTwoLists(arns: seq<string>)
    requires |arns| == 23
    ensures SplitIntoSublists(arns) == [arns[..20], arns[20..]]
  {
    var c := SplitIntoSublists(arns);
    SplitIntoSublistsSpec(arns);
    assert |c| == 2;
    assert Flatten(c) == c[0] + (c[1] + Flatten(c[2..]));
    assert c[2..] == [];
    assert c[0] + c[1] == arns;
    assert c[0] == arns[..20];
    assert c[1] == arns[20..];
  }
}
