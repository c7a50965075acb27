/**
 * Grouping into an insertion-ordered dict, as `d.setdefault(key(x), []).append(x)`
 * over a list does: one entry per key, in order of first occurrence, each
 * holding the elements with that key in their original order.
 */
module Grouping {

  /** The elements of `s` whose key is `k`, in order. */
  function WithKey<T>(s: seq<T>, key: T -> string, k: string): (r: seq<T>)
    ensures |r| <= |s|
    ensures forall i :: 0 <= i < |r| ==> key(r[i]) == k
  {
    if |s| == 0 then []
    else WithKey(s[..|s| - 1], key, k) + (if key(s[|s| - 1]) == k then [s[|s| - 1]] else [])
  }

  /** The dict has an entry for `k`. */
  predicate HasKey<T>(groups: seq<(string, seq<T>)>, k: string) {
    exists j :: 0 <= j < |groups| && groups[j].0 == k
  }

  predicate DistinctKeys<T>(groups: seq<(string, seq<T>)>) {
    forall i, j :: 0 <= i < j < |groups| ==> groups[i].0 != groups[j].0
  }

  /** `groups.setdefault(k, []).append(x)` */
  function Add<T>(groups: seq<(string, seq<T>)>, k: string, x: T): (r: seq<(string, seq<T>)>)
    ensures |r| == if HasKey(groups, k) then |groups| else |groups| + 1
  {
    if |groups| == 0 then [(k, [x])]
    else if groups[0].0 == k then [(k, groups[0].1 + [x])] + groups[1..]
    else
      assert HasKey(groups, k) <==> HasKey(groups[1..], k) by {
        if HasKey(groups, k) {
          var j :| 0 <= j < |groups| && groups[j].0 == k;
          assert groups[1..][j - 1].0 == k;
        }
        if HasKey(groups[1..], k) {
          var j :| 0 <= j < |groups[1..]| && groups[1..][j].0 == k;
          assert groups[j + 1].0 == k;
        }
      }
      [groups[0]] + Add(groups[1..], k, x)
  }

  /** An element is selected exactly when it occurs in `s` with key `k`. */
  lemma {:induction false} WithKeyMember<T>(s: seq<T>, key: T -> string, k: string, x: T)
    ensures x in WithKey(s, key, k) <==> x in s && key(x) == k
  {
    if |s| > 0 {
      var init := s[..|s| - 1];
      WithKeyMember(init, key, k, x);
      assert s == init + [s[|s| - 1]];
    }
  }

  /** Existing entries keep their keys; the only entry that grows is the one for `k`; a new key goes last. */
  lemma AddSpec<T>(groups: seq<(string, seq<T>)>, k: string, x: T)
    requires DistinctKeys(groups)
    ensures DistinctKeys(Add(groups, k, x))
    ensures forall j :: 0 <= j < |groups| ==> Add(groups, k, x)[j].0 == groups[j].0
    ensures forall j :: 0 <= j < |groups| ==>
      Add(groups, k, x)[j].1 == if groups[j].0 == k then groups[j].1 + [x] else groups[j].1
    ensures !HasKey(groups, k) ==> Add(groups, k, x)[|groups|] == (k, [x])
  {
    AddPointwise(groups, k, x);
    var r := Add(groups, k, x);
    forall i, j | 0 <= i < j < |r| ensures r[i].0 != r[j].0 {
      if j == |groups| {
        assert r[i].0 == groups[i].0;
      }
    }
  }

  /** Entry by entry: keys are kept, the entry for `k` grows by `x`, and a new key is appended. */
  lemma {:induction false} AddPointwise<T>(groups: seq<(string, seq<T>)>, k: string, x: T)
    requires DistinctKeys(groups)
    ensures forall j :: 0 <= j < |groups| ==> Add(groups, k, x)[j].0 == groups[j].0
    ensures forall j :: 0 <= j < |groups| ==>
      Add(groups, k, x)[j].1 == if groups[j].0 == k then groups[j].1 + [x] else groups[j].1
    ensures !HasKey(groups, k) ==> Add(groups, k, x)[|groups|] == (k, [x])
  {
    if |groups| > 0 && groups[0].0 != k {
      var rest := groups[1..];
      assert DistinctKeys(rest);
      AddPointwise(rest, k, x);
      var r := Add(groups, k, x);
      var tail := Add(rest, k, x);
      assert r == [groups[0]] + tail;
      forall j | 1 <= j < |groups| ensures r[j] == tail[j - 1] && rest[j - 1] == groups[j] {
      }
      if !HasKey(groups, k) {
        assert !HasKey(rest, k) by {
          forall j | 0 <= j < |rest| ensures rest[j].0 != k {
            assert rest[j] == groups[j + 1];
          }
        }
        assert r[|groups|] == tail[|rest|];
      }
    } else if |groups| > 0 {
      var r := Add(groups, k, x);
      forall j | 0 <= j < |groups| ensures r[j].1 == if groups[j].0 == k then groups[j].1 + [x] else groups[j].1 {
        if j > 0 {
          assert groups[j].0 != groups[0].0;
        }
      }
    }
  }

  /** A key the dict lacks gets a new entry at the end. */
  lemma {:induction false} AddFresh<T>(groups: seq<(string, seq<T>)>, k: string, x: T)
    requires !HasKey(groups, k)
    ensures Add(groups, k, x) == groups + [(k, [x])]
  {
    if |groups| > 0 {
      var rest := groups[1..];
      assert !HasKey(rest, k) by {
        forall j | 0 <= j < |rest| ensures rest[j].0 != k {
          assert rest[j] == groups[j + 1];
        }
      }
      AddFresh(rest, k, x);
    }
  }

  /** The dict built by the `setdefault` loop over `s`. */
  function GroupBy<T>(s: seq<T>, key: T -> string): seq<(string, seq<T>)>
  {
    if |s| == 0 then []
    else Add(GroupBy(s[..|s| - 1], key), key(s[|s| - 1]), s[|s| - 1])
  }

  /** A key no element has selects nothing. */
  lemma {:induction false} WithKeyAbsent<T>(s: seq<T>, key: T -> string, k: string)
    requires forall i :: 0 <= i < |s| ==> key(s[i]) != k
    ensures WithKey(s, key, k) == []
  {
    if |s| > 0 {
      WithKeyAbsent(s[..|s| - 1], key, k);
    }
  }

  /**
   * Keys come in order of first occurrence: an element whose key is that of
   * a later entry is preceded by an element with the key of each earlier entry.
   */
  ghost predicate FirstOccurrenceOrder<T>(s: seq<T>, key: T -> string, groups: seq<(string, seq<T>)>) {
    forall j1, j2, i2 :: 0 <= j1 < j2 < |groups| && 0 <= i2 < |s| && key(s[i2]) == groups[j2].0 ==>
      exists i1 :: 0 <= i1 < i2 && key(s[i1]) == groups[j1].0
  }

  /**
   * The dict has one entry per key occurring in `s`, no other entry, and
   * the entry for a key holds exactly the elements with that key, in order;
   * the entries come in order of the keys' first occurrence.
   */
  lemma GroupBySpec<T>(s: seq<T>, key: T -> string)
    ensures DistinctKeys(GroupBy(s, key))
    ensures forall j :: 0 <= j < |GroupBy(s, key)| ==>
      GroupBy(s, key)[j].1 == WithKey(s, key, GroupBy(s, key)[j].0)
    ensures forall j :: 0 <= j < |GroupBy(s, key)| ==> |GroupBy(s, key)[j].1| > 0
    ensures forall i :: 0 <= i < |s| ==> HasKey(GroupBy(s, key), key(s[i]))
    ensures FirstOccurrenceOrder(s, key, GroupBy(s, key))
  {
    GroupByShape(s, key);
    GroupByOrder(s, key);
  }

  /** Distinct keys, each entry its key's elements, every key present: the part of `GroupBySpec` proved by induction. */
  lemma {:induction false} GroupByShape<T>(s: seq<T>, key: T -> string)
    ensures DistinctKeys(GroupBy(s, key))
    ensures forall j :: 0 <= j < |GroupBy(s, key)| ==>
      GroupBy(s, key)[j].1 == WithKey(s, key, GroupBy(s, key)[j].0)
    ensures forall j :: 0 <= j < |GroupBy(s, key)| ==> |GroupBy(s, key)[j].1| > 0
    ensures forall i :: 0 <= i < |s| ==> HasKey(GroupBy(s, key), key(s[i]))
  {
    if |s| > 0 {
      var init := s[..|s| - 1];
      var last := s[|s| - 1];
      var before := GroupBy(init, key);
      var after := GroupBy(s, key);
      GroupByShape(init, key);
      AddSpec(before, key(last), last);
      assert after == Add(before, key(last), last);
      forall j | 0 <= j < |after|
        ensures after[j].1 == WithKey(s, key, after[j].0) && |after[j].1| > 0
      {
        if j >= |before| {
          assert !HasKey(before, key(last));
          forall i | 0 <= i < |init| ensures key(init[i]) != key(last) {
            assert HasKey(before, key(init[i]));
          }
          WithKeyAbsent(init, key, key(last));
        }
      }
      forall i | 0 <= i < |s| ensures HasKey(after, key(s[i])) {
        if i < |s| - 1 {
          assert s[i] == init[i];
          var j :| 0 <= j < |before| && before[j].0 == key(s[i]);
          assert after[j].0 == key(s[i]);
        } else if HasKey(before, key(last)) {
          var j :| 0 <= j < |before| && before[j].0 == key(last);
          assert after[j].0 == key(last);
        } else {
          assert after[|before|].0 == key(last);
        }
      }
    }
  }

  /** Every key of the dict is the key of some element. */
  lemma GroupKeyOccurs<T>(s: seq<T>, key: T -> string, j: int)
    requires 0 <= j < |GroupBy(s, key)|
    ensures exists i :: 0 <= i < |s| && key(s[i]) == GroupBy(s, key)[j].0
  {
    var g := GroupBy(s, key);
    GroupByShape(s, key);
    var y := g[j].1[0];
    WithKeyMember(s, key, g[j].0, y);
    var i :| 0 <= i < |s| && s[i] == y;
  }

  /** The `setdefault` loop puts the keys in order of first occurrence. */
  lemma {:induction false} GroupByOrder<T>(s: seq<T>, key: T -> string)
    ensures FirstOccurrenceOrder(s, key, GroupBy(s, key))
  {
    if |s| > 0 {
      var init := s[..|s| - 1];
      var last := s[|s| - 1];
      var before := GroupBy(init, key);
      var after := GroupBy(s, key);
      GroupByOrder(init, key);
      GroupByKeys(init, key);
      AddKeys(before, key(last), last);
      assert after == Add(before, key(last), last);
      assert s == init + [last];
      OrderStep(init, last, key, before, after);
    }
  }

  /** The keys of the dict: distinct, each the key of some element, and every element's key among them. */
  lemma GroupByKeys<T>(s: seq<T>, key: T -> string)
    ensures DistinctKeys(GroupBy(s, key))
    ensures forall j :: 0 <= j < |GroupBy(s, key)| ==> exists i :: 0 <= i < |s| && key(s[i]) == GroupBy(s, key)[j].0
    ensures forall i :: 0 <= i < |s| ==> HasKey(GroupBy(s, key), key(s[i]))
  {
    GroupByShape(s, key);
    forall j | 0 <= j < |GroupBy(s, key)| ensures exists i :: 0 <= i < |s| && key(s[i]) == GroupBy(s, key)[j].0 {
      GroupKeyOccurs(s, key, j);
    }
  }

  /** Adding keeps the keys in place and puts a new key last. */
  lemma AddKeys<T>(groups: seq<(string, seq<T>)>, k: string, x: T)
    requires DistinctKeys(groups)
    ensures forall j :: 0 <= j < |groups| ==> Add(groups, k, x)[j].0 == groups[j].0
    ensures !HasKey(groups, k) ==> Add(groups, k, x)[|groups|].0 == k
  {
    AddPointwise(groups, k, x);
  }

  /** One step of the loop: the entries after adding `last` are still in order of first occurrence. */
  lemma OrderStep<T>(init: seq<T>, last: T, key: T -> string,
                     before: seq<(string, seq<T>)>, after: seq<(string, seq<T>)>)
    requires FirstOccurrenceOrder(init, key, before)
    requires forall j :: 0 <= j < |before| ==> exists i :: 0 <= i < |init| && key(init[i]) == before[j].0
    requires forall i :: 0 <= i < |init| ==> HasKey(before, key(init[i]))
    requires |after| == if HasKey(before, key(last)) then |before| else |before| + 1
    requires forall j :: 0 <= j < |before| ==> after[j].0 == before[j].0
    requires !HasKey(before, key(last)) ==> after[|before|].0 == key(last)
    ensures FirstOccurrenceOrder(init + [last], key, after)
  {
    var s := init + [last];
    forall j1, j2, i2 | 0 <= j1 < j2 < |after| && 0 <= i2 < |s| && key(s[i2]) == after[j2].0
      ensures exists i1 :: 0 <= i1 < i2 && key(s[i1]) == after[j1].0
    {
      var i1 := OrderWitness(init, last, key, before, after, j1, j2, i2);
      assert s[i1] == init[i1];
    }
  }

  /** An element with the key of entry `j1` that precedes position `i2`, whose key is that of the later entry `j2`. */
  lemma OrderWitness<T>(init: seq<T>, last: T, key: T -> string,
                        before: seq<(string, seq<T>)>, after: seq<(string, seq<T>)>, j1: nat, j2: nat, i2: nat)
    returns (i1: nat)
    requires FirstOccurrenceOrder(init, key, before)
    requires forall j :: 0 <= j < |before| ==> exists i :: 0 <= i < |init| && key(init[i]) == before[j].0
    requires forall i :: 0 <= i < |init| ==> HasKey(before, key(init[i]))
    requires |after| == if HasKey(before, key(last)) then |before| else |before| + 1
    requires forall j :: 0 <= j < |before| ==> after[j].0 == before[j].0
    requires !HasKey(before, key(last)) ==> after[|before|].0 == key(last)
    requires j1 < j2 < |after| && i2 <= |init|
    requires key((init + [last])[i2]) == after[j2].0
    ensures i1 < i2 && i1 < |init| && key(init[i1]) == after[j1].0
  {
    var s := init + [last];
    assert after[j1].0 == before[j1].0;
    if j2 < |before| {
      var i3: nat := i2;
      if i2 == |init| {
        i3 :| 0 <= i3 < |init| && key(init[i3]) == before[j2].0;
      } else {
        assert s[i2] == init[i2];
      }
      i1 :| 0 <= i1 < i3 && key(init[i1]) == before[j1].0;
    } else {
      assert !HasKey(before, key(s[i2]));
      forall i | 0 <= i < |init| ensures key(s[i]) != key(s[i2]) {
        assert s[i] == init[i];
        assert HasKey(before, key(init[i]));
      }
      i1 :| 0 <= i1 < |init| && key(init[i1]) == before[j1].0;
    }
  }

  /** The `setdefault` dict has distinct keys. */
  lemma GroupByDistinct<T>(s: seq<T>, key: T -> string)
    ensures DistinctKeys(GroupBy(s, key))
  {
    GroupBySpec(s, key);
  }

  /** A key no element has gets no entry. */
  lemma GroupByAbsent<T>(s: seq<T>, key: T -> string, k: string)
    requires forall i :: 0 <= i < |s| ==> key(s[i]) != k
    ensures !HasKey(GroupBy(s, key), k)
  {
    var g := GroupBy(s, key);
    GroupBySpec(s, key);
    forall j | 0 <= j < |g| ensures g[j].0 != k {
      var y := g[j].1[0];
      WithKeyMember(s, key, g[j].0, y);
    }
  }
}
