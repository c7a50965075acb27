/**
 * The handful of Python `str` operations the tagger relies on:
 * `find`, `split(sep)`, `lstrip()`/`rstrip()` and `upper()`, together with
 * the facts about them that the parsers need (split/join round trips,
 * stripping padded text, where the first occurrence of a separator is).
 */
module Text {
  import opened Results

  /** `sub` occurs in `s` starting at index `i` */
  predicate MatchesAt(s: string, sub: string, i: nat) {
    i + |sub| <= |s| && s[i..i + |sub|] == sub
  }

  predicate Contains(s: string, sub: string) {
    exists i: nat :: i <= |s| && MatchesAt(s, sub, i)
  }

  /** Position of the first occurrence of `sub` in `s` at or after `from`. */
  function IndexFrom(s: string, sub: string, from: nat): (r: Option<nat>)
    requires |sub| > 0
    ensures r.Some? ==> from <= r.value && MatchesAt(s, sub, r.value)
    ensures r.Some? ==> forall j: nat :: from <= j < r.value ==> !MatchesAt(s, sub, j)
    ensures r.None? ==> forall j: nat :: from <= j ==> !MatchesAt(s, sub, j)
    decreases |s| - from
  {
    if from + |sub| > |s| then None
    else if MatchesAt(s, sub, from) then Some(from)
    else IndexFrom(s, sub, from + 1)
  }

  /** Position of the first occurrence of `sub` in `s`, if any. */
  function IndexOf(s: string, sub: string): Option<nat>
    requires |sub| > 0
  {
    IndexFrom(s, sub, 0)
  }

  /** Python's `s.find(sub)`: the first index, or -1 when `sub` is absent. */
  function Find(s: string, sub: string): (r: int)
    requires |sub| > 0
    ensures r == -1 || 0 <= r <= |s| - |sub|
    ensures r == -1 <==> !Contains(s, sub)
    ensures r >= 0 ==> MatchesAt(s, sub, r) && forall j: nat :: j < r ==> !MatchesAt(s, sub, j)
  {
    match IndexOf(s, sub)
    case Some(i) => i
    case None => -1
  }

  /** A match at `i` with none before it is the first one. */
  lemma FirstMatch(s: string, sub: string, i: nat)
    requires |sub| > 0
    requires MatchesAt(s, sub, i)
    requires forall j: nat :: j < i ==> !MatchesAt(s, sub, j)
    ensures IndexOf(s, sub) == Some(i)
  {
  }

  /** Python's `s.split(sep)` for a non-empty separator. */
  function Split(s: string, sep: string): (parts: seq<string>)
    requires |sep| > 0
    ensures |parts| >= 1
    decreases |s|
  {
    match IndexOf(s, sep)
    case None => [s]
    case Some(i) => [s[..i]] + Split(s[i + |sep|..], sep)
  }

  /** Python's `sep.join(parts)` for a non-empty list. */
  function Join(parts: seq<string>, sep: string): string
    requires |parts| >= 1
  {
    if |parts| == 1 then parts[0] else parts[0] + sep + Join(parts[1..], sep)
  }

  /** Joining the pieces of a split with the same separator restores the text. */
  lemma {:induction false} JoinSplit(s: string, sep: string)
    requires |sep| > 0
    ensures Join(Split(s, sep), sep) == s
    decreases |s|
  {
    match IndexOf(s, sep)
    case None =>
    case Some(i) =>
      var rest := s[i + |sep|..];
      SplitStep(s, sep, i);
      JoinSplit(rest, sep);
      JoinCons(s[..i], Split(rest, sep), sep);
  }

  /** At the first separator, the split is the text before it followed by the split of the text after it. */
  lemma SplitStep(s: string, sep: string, i: nat)
    requires |sep| > 0 && IndexOf(s, sep) == Some(i)
    ensures i + |sep| <= |s|
    ensures Split(s, sep) == [s[..i]] + Split(s[i + |sep|..], sep)
    ensures s == s[..i] + sep + s[i + |sep|..]
  {
    assert MatchesAt(s, sep, i);
    ThreeParts(s, i, i + |sep|);
  }

  lemma ThreeParts(s: string, i: nat, j: nat)
    requires i <= j <= |s|
    ensures s == s[..i] + s[i..j] + s[j..]
  {
    assert s[..j] == s[..i] + s[i..j];
    assert s == s[..j] + s[j..];
  }

  /** Joining a list with a head puts the separator between the head and the rest. */
  lemma JoinCons(head: string, parts: seq<string>, sep: string)
    requires |parts| >= 1
    ensures Join([head] + parts, sep) == head + sep + Join(parts, sep)
  {
    assert ([head] + parts)[1..] == parts;
  }

  /** No piece of a split contains the separator. */
  lemma {:induction false} SplitPiecesAreFree(s: string, sep: string)
    requires |sep| > 0
    ensures forall k :: 0 <= k < |Split(s, sep)| ==> !Contains(Split(s, sep)[k], sep)
    decreases |s|
  {
    match IndexOf(s, sep)
    case None =>
    case Some(i) =>
      var rest := s[i + |sep|..];
      SplitPiecesAreFree(rest, sep);
      var head := s[..i];
      forall j: nat | MatchesAt(head, sep, j)
        ensures false
      {
        assert head[j..j + |sep|] == s[j..j + |sep|];
        assert MatchesAt(s, sep, j);
      }
      assert Split(s, sep) == [head] + Split(rest, sep);
  }

  lemma ContainsChar(s: string, c: char)
    ensures Contains(s, [c]) <==> c in s
  {
    if c in s {
      var i :| 0 <= i < |s| && s[i] == c;
      assert s[i..i + 1] == [c];
      assert MatchesAt(s, [c], i);
    }
    if Contains(s, [c]) {
      var i: nat :| i <= |s| && MatchesAt(s, [c], i);
      assert i < |s| && s[i..i + 1] == [c];
      assert s[i] == s[i..i + 1][0];
    }
  }

  /** With a one-character separator absent from `a`, the first match is right after `a`. */
  lemma IndexOfCharAfter(a: string, c: char, b: string)
    requires c !in a
    ensures IndexOf(a + [c] + b, [c]) == Some(|a|)
  {
    var s := a + [c] + b;
    assert s[|a|..|a| + 1] == [c];
    forall j: nat | j < |a|
      ensures !MatchesAt(s, [c], j)
    {
      assert s[j..j + 1][0] == a[j];
    }
    FirstMatch(s, [c], |a|);
  }

  lemma IndexOfCharAbsent(a: string, c: char)
    requires c !in a
    ensures IndexOf(a, [c]) == None
  {
    ContainsChar(a, c);
  }

  /** Splitting on one character undoes joining on it, when no piece holds it. */
  lemma {:induction false} SplitJoinChar(parts: seq<string>, c: char)
    requires |parts| >= 1
    requires forall k :: 0 <= k < |parts| ==> c !in parts[k]
    ensures Split(Join(parts, [c]), [c]) == parts
    decreases |parts|
  {
    if |parts| == 1 {
      IndexOfCharAbsent(parts[0], c);
    } else {
      var rest := Join(parts[1..], [c]);
      IndexOfCharAfter(parts[0], c, rest);
      SplitJoinChar(parts[1..], c);
      var s := parts[0] + [c] + rest;
      assert s[|parts[0]| + 1..] == rest;
      assert s[..|parts[0]|] == parts[0];
    }
  }

  /** The pieces of a split on one character are exactly the character-free pieces that join back. */
  lemma SplitCharUnique(s: string, c: char, parts: seq<string>)
    requires |parts| >= 1
    requires forall k :: 0 <= k < |parts| ==> c !in parts[k]
    requires Join(parts, [c]) == s
    ensures Split(s, [c]) == parts
  {
    SplitJoinChar(parts, c);
  }

  // ---------------------------------------------------------------------
  // Whitespace stripping (ASCII approximation of Python's whitespace set)

  predicate IsWhitespace(c: char) {
    c == ' ' || c == '\t' || c == '\n' || c == '\r' || c == '\U{000B}' || c == '\U{000C}'
  }

  predicate AllWhitespace(s: string) {
    forall i :: 0 <= i < |s| ==> IsWhitespace(s[i])
  }

  /** Neither the first nor the last character is whitespace. */
  predicate Trimmed(s: string) {
    |s| == 0 || (!IsWhitespace(s[0]) && !IsWhitespace(s[|s| - 1]))
  }

  /** Python's `s.lstrip()`. */
  function TrimStart(s: string): (r: string)
    ensures |r| <= |s| && r == s[|s| - |r|..]
    ensures AllWhitespace(s[..|s| - |r|])
    ensures |r| == 0 || !IsWhitespace(r[0])
  {
    if |s| > 0 && IsWhitespace(s[0]) then TrimStart(s[1..]) else s
  }

  /** Python's `s.rstrip()`. */
  function TrimEnd(s: string): (r: string)
    ensures |r| <= |s| && r == s[..|r|]
    ensures AllWhitespace(s[|r|..])
    ensures |r| == 0 || !IsWhitespace(r[|r| - 1])
  {
    if |s| > 0 && IsWhitespace(s[|s| - 1]) then TrimEnd(s[..|s| - 1]) else s
  }

  /** `remove_whitespace`: `s.lstrip().rstrip()`. */
  function Strip(s: string): (r: string)
    ensures Trimmed(r)
  {
    TrimEnd(TrimStart(s))
  }

  lemma {:induction false} TrimStartPadded(w: string, t: string)
    requires AllWhitespace(w)
    requires |t| == 0 || !IsWhitespace(t[0])
    ensures TrimStart(w + t) == t
    decreases |w|
  {
    if |w| > 0 {
      assert (w + t)[1..] == w[1..] + t;
      TrimStartPadded(w[1..], t);
    } else {
      assert w + t == t;
    }
  }

  lemma {:induction false} TrimEndPadded(t: string, w: string)
    requires AllWhitespace(w)
    requires |t| == 0 || !IsWhitespace(t[|t| - 1])
    ensures TrimEnd(t + w) == t
    decreases |w|
  {
    if |w| > 0 {
      assert (t + w)[..|t + w| - 1] == t + w[..|w| - 1];
      TrimEndPadded(t, w[..|w| - 1]);
    } else {
      assert t + w == t;
    }
  }

  /** Stripping removes exactly the whitespace padding around trimmed text. */
  lemma StripPadded(w1: string, t: string, w2: string)
    requires AllWhitespace(w1) && AllWhitespace(w2)
    requires |t| > 0 && Trimmed(t)
    ensures Strip(w1 + t + w2) == t
  {
    assert w1 + t + w2 == w1 + (t + w2);
    TrimStartPadded(w1, t + w2);
    TrimEndPadded(t, w2);
  }

  /** `remove_whitespace` is idempotent. */
  lemma StripIdempotent(s: string)
    ensures Strip(Strip(s)) == Strip(s)
  {
    var r := Strip(s);
    if |r| > 0 {
      assert r == [] + r + [];
      StripPadded([], r, []);
    }
  }

  // ---------------------------------------------------------------------
  // Upper-casing (ASCII approximation of Python's `str.upper()`)

  function UpperChar(c: char): char {
    if 'a' <= c <= 'z' then (c as int - 32) as char else c
  }

  /** Python's `s.upper()` restricted to ASCII letters. */
  function Upper(s: string): (r: string)
    ensures |r| == |s|
    ensures forall i :: 0 <= i < |s| ==> r[i] == UpperChar(s[i])
  {
    if |s| == 0 then [] else [UpperChar(s[0])] + Upper(s[1..])
  }

  lemma UpperIdempotent(s: string)
    ensures Upper(Upper(s)) == Upper(s)
  {
  }
}
