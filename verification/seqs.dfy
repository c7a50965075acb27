/**
 * Generic sequence helpers standing in for Python list comprehensions:
 * `[x for x in s if p(x)]` and `[y for sub in s for y in sub]`.
 */
module Seqs {

  /** `[x for x in s if p(x)]` */
  function Filter<T>(s: seq<T>, p: T -> bool): (r: seq<T>)
    ensures |r| <= |s|
    ensures forall i :: 0 <= i < |r| ==> r[i] in s && p(r[i])
    ensures forall i :: 0 <= i < |s| && p(s[i]) ==> s[i] in r
  {
    if |s| == 0 then [] else (if p(s[0]) then [s[0]] else []) + Filter(s[1..], p)
  }

  /**
   * The positions of the elements of `s` that pass `p`, in increasing
   * order: every position listed passes, and every passing position is listed.
   */
  function Selected<T>(s: seq<T>, p: T -> bool): (idx: seq<nat>)
    ensures forall k :: 0 <= k < |idx| ==> idx[k] < |s| && p(s[idx[k]])
    ensures forall k1, k2 :: 0 <= k1 < k2 < |idx| ==> idx[k1] < idx[k2]
    ensures forall i :: 0 <= i < |s| && p(s[i]) ==> i in idx
    decreases |s|
  {
    if |s| == 0 then []
    else
      var init := s[..|s| - 1];
      assert forall i :: 0 <= i < |init| ==> init[i] == s[i];
      Selected(init, p) + (if p(s[|s| - 1]) then [|s| - 1] else [])
  }

  /** Filtering keeps the input order: the `k`-th element kept is the one at the `k`-th passing position. */
  lemma {:induction false} FilterInOrder<T>(s: seq<T>, p: T -> bool)
    ensures |Filter(s, p)| == |Selected(s, p)|
    ensures forall k :: 0 <= k < |Selected(s, p)| ==> Filter(s, p)[k] == s[Selected(s, p)[k]]
    decreases |s|
  {
    if |s| > 0 {
      var init := s[..|s| - 1];
      var last := s[|s| - 1];
      assert s == init + [last];
      FilterInOrder(init, p);
      FilterSnoc(init, last, p);
      IndexSnoc(Filter(init, p), Selected(init, p), init, last, p(last));
    }
  }

  /** Filtering one more element appends it when it passes. */
  lemma FilterSnoc<T>(init: seq<T>, last: T, p: T -> bool)
    ensures Filter(init + [last], p) == Filter(init, p) + (if p(last) then [last] else [])
  {
    FilterAppend(init, [last], p);
    assert Filter([last], p) == if p(last) then [last] else [];
  }

  /** If `kept` lists the elements of `init` at positions `idx`, appending `last` to both sides keeps that so. */
  lemma IndexSnoc<T>(kept: seq<T>, idx: seq<nat>, init: seq<T>, last: T, b: bool)
    requires |kept| == |idx|
    requires forall k :: 0 <= k < |idx| ==> idx[k] < |init| && kept[k] == init[idx[k]]
    ensures var kept', idx' := kept + (if b then [last] else []), idx + (if b then [|init|] else []);
      |kept'| == |idx'| && forall k :: 0 <= k < |idx'| ==> idx'[k] < |init| + 1 && kept'[k] == (init + [last])[idx'[k]]
  {
  }

  lemma {:induction false} FilterAppend<T>(a: seq<T>, b: seq<T>, p: T -> bool)
    ensures Filter(a + b, p) == Filter(a, p) + Filter(b, p)
    decreases |a|
  {
    if |a| == 0 {
      assert a + b == b;
    } else {
      assert (a + b)[1..] == a[1..] + b;
      FilterAppend(a[1..], b, p);
    }
  }

  /** An element that fails the test leaves no trace in the filtered sequence. */
  lemma {:induction false} FilterDropsRejected<T>(a: seq<T>, x: T, b: seq<T>, p: T -> bool)
    requires !p(x)
    ensures Filter(a + [x] + b, p) == Filter(a + b, p)
    decreases |a|
  {
    if |a| == 0 {
      assert a + [x] + b == [x] + b && a + b == b;
      assert ([x] + b)[1..] == b;
    } else {
      assert (a + [x] + b)[1..] == a[1..] + [x] + b;
      assert (a + b)[1..] == a[1..] + b;
      FilterDropsRejected(a[1..], x, b, p);
    }
  }

  /** Taking out an element that fails the test leaves the filtered sequence as it was. */
  lemma FilterDropsAt<T>(s: seq<T>, k: nat, p: T -> bool)
    requires k < |s| && !p(s[k])
    ensures Filter(s[..k] + s[k + 1..], p) == Filter(s, p)
  {
    assert s == s[..k] + [s[k]] + s[k + 1..];
    FilterDropsRejected(s[..k], s[k], s[k + 1..], p);
  }

  /** Filtering keeps everything exactly when every element passes. */
  lemma {:induction false} FilterKeepsAll<T>(s: seq<T>, p: T -> bool)
    ensures |Filter(s, p)| == |s| <==> forall i :: 0 <= i < |s| ==> p(s[i])
    decreases |s|
  {
    if |s| > 0 {
      FilterKeepsAll(s[1..], p);
      if forall i :: 0 <= i < |s| ==> p(s[i]) {
        assert forall i :: 0 <= i < |s| - 1 ==> p(s[1..][i]) by {
          forall i | 0 <= i < |s| - 1 ensures p(s[1..][i]) {
            assert s[1..][i] == s[i + 1];
          }
        }
      }
      if |Filter(s, p)| == |s| {
        assert p(s[0]);
        forall i | 0 <= i < |s| ensures p(s[i]) {
          if i > 0 {
            assert s[i] == s[1..][i - 1];
          }
        }
      }
    }
  }

  /** Filtering with a predicate every element passes changes nothing. */
  lemma {:induction false} FilterAll<T>(s: seq<T>, p: T -> bool)
    requires forall i :: 0 <= i < |s| ==> p(s[i])
    ensures Filter(s, p) == s
    decreases |s|
  {
    if |s| > 0 {
      assert forall i :: 0 <= i < |s| - 1 ==> p(s[1..][i]) by {
        forall i | 0 <= i < |s| - 1 ensures p(s[1..][i]) {
          assert s[1..][i] == s[i + 1];
        }
      }
      FilterAll(s[1..], p);
      assert [s[0]] + s[1..] == s;
    }
  }

  lemma {:induction false} FilterMultiset<T>(s: seq<T>, p: T -> bool)
    ensures multiset(Filter(s, p)) <= multiset(s)
    decreases |s|
  {
    if |s| > 0 {
      FilterMultiset(s[1..], p);
      assert s == [s[0]] + s[1..];
    }
  }

  /** `[y for sub in s for y in sub]` */
  function Flatten<T>(s: seq<seq<T>>): (r: seq<T>)
  {
    if |s| == 0 then [] else s[0] + Flatten(s[1..])
  }

  lemma {:induction false} FlattenAppend<T>(a: seq<seq<T>>, b: seq<seq<T>>)
    ensures Flatten(a + b) == Flatten(a) + Flatten(b)
    decreases |a|
  {
    if |a| == 0 {
      assert a + b == b;
    } else {
      assert (a + b)[1..] == a[1..] + b;
      FlattenAppend(a[1..], b);
    }
  }

  /** Every element of the flattening comes from some inner sequence. */
  lemma {:induction false} FlattenMember<T>(s: seq<seq<T>>, x: T)
    ensures x in Flatten(s) <==> exists i :: 0 <= i < |s| && x in s[i]
    decreases |s|
  {
    if |s| > 0 {
      FlattenMember(s[1..], x);
      if x in Flatten(s[1..]) {
        var i :| 0 <= i < |s[1..]| && x in s[1..][i];
        assert x in s[i + 1];
      }
      if exists i :: 0 <= i < |s| && x in s[i] {
        var i :| 0 <= i < |s| && x in s[i];
        if i > 0 {
          assert x in s[1..][i - 1];
        }
      }
    }
  }

  /** A prefix of a prefix is a prefix. */
  lemma PrefixOfPrefix<T>(a: seq<T>, b: seq<T>, c: seq<T>)
    requires |a| <= |b| && b[..|a|] == a && |b| <= |c| && c[..|b|] == b
    ensures |a| <= |c| && c[..|a|] == a
  {
    assert c[..|a|] == c[..|b|][..|a|];
  }

  /** `[f(x) for x in s]` */
  function Map<T, U>(s: seq<T>, f: T -> U): (r: seq<U>)
    ensures |r| == |s|
    ensures forall i :: 0 <= i < |s| ==> r[i] == f(s[i])
  {
    seq(|s|, i requires 0 <= i < |s| => f(s[i]))
  }
}
