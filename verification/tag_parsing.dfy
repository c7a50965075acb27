/**
 * The `Key=Value, Key=Value` tag grammar shared by the CLI's
 * `config create` command (taggercli/commands/config.py) and the lambda's
 * `fetch_tags_from_env` (taggerlambda/src/tagging_lambda.py).
 */
module TagParsing {
  import opened Results
  import opened Text
  import opened Model

  /** A segment that is not `Key=Value`: `IllegalInputError` in the CLI, `ConfigurationError` in the lambda. */
  datatype ParseError = IllegalInput(segment: string)

  /**
   * One stripped segment: split it on `=` and unpack exactly two parts
   * (Python's tuple unpacking raises ValueError otherwise).
   */
  function ParsePair(piece: string): (r: Result<Tag, ParseError>)
    ensures r.Failure? ==> r.error == IllegalInput(piece)
  {
    var parts := Split(piece, "=");
    if |parts| == 2 then Success(Tag(parts[0], parts[1])) else Failure(IllegalInput(piece))
  }

  /** One raw `,`-separated segment: `remove_whitespace`, then unpack. */
  function ParseTag(segment: string): Result<Tag, ParseError> {
    ParsePair(Strip(segment))
  }

  /** `[remove_whitespace(x) for x in segments]`. */
  function StripAll(segments: seq<string>): (r: seq<string>)
    ensures |r| == |segments|
    ensures forall i :: 0 <= i < |segments| ==> r[i] == Strip(segments[i])
  {
    seq(|segments|, i requires 0 <= i < |segments| => Strip(segments[i]))
  }

  /** The stripped segments parsed in order; the first bad one aborts. */
  function ParsePieces(pieces: seq<string>): (r: Result<seq<Tag>, ParseError>)
    ensures r.Success? <==> forall i :: 0 <= i < |pieces| ==> ParsePair(pieces[i]).Success?
    ensures r.Success? ==> |r.value| == |pieces|
    ensures r.Success? ==> forall i :: 0 <= i < |pieces| ==> ParsePair(pieces[i]) == Success(r.value[i])
    ensures r.Failure? ==> exists i :: 0 <= i < |pieces| && ParsePair(pieces[i]) == Failure(r.error)
  {
    if |pieces| == 0 then Success([])
    else
      var first :- ParsePair(pieces[0]);
      var rest :- ParsePieces(pieces[1..]);
      assert forall i :: 1 <= i < |pieces| ==> pieces[i] == pieces[1..][i - 1];
      Success([first] + rest)
  }

  /** `parse_tags`: one tag per `,`-separated segment, in order. */
  function ParseTags(input: string): (r: Result<seq<Tag>, ParseError>)
    ensures r.Success? ==> |r.value| == |Split(input, ",")|
  {
    ParsePieces(StripAll(Split(input, ",")))
  }

  /** The stripped segments of any list parse exactly when each raw segment does, to its own tag. */
  lemma ParsePiecesOfSegments(segs: seq<string>)
    ensures ParsePieces(StripAll(segs)).Success? <==> forall i :: 0 <= i < |segs| ==> ParseTag(segs[i]).Success?
    ensures ParsePieces(StripAll(segs)).Success? ==>
      forall i :: 0 <= i < |segs| ==> ParseTag(segs[i]) == Success(ParsePieces(StripAll(segs)).value[i])
  {
    var pieces := StripAll(segs);
    assert forall i :: 0 <= i < |segs| ==> ParseTag(segs[i]) == ParsePair(pieces[i]);
  }

  /** `parse_tags` succeeds exactly when every `,`-separated segment does, and yields their tags in order. */
  lemma ParseTagsSegments(input: string, segs: seq<string>)
    requires segs == Split(input, ",")
    ensures ParseTags(input).Success? <==> forall i :: 0 <= i < |segs| ==> ParseTag(segs[i]).Success?
    ensures ParseTags(input).Success? ==>
      forall i :: 0 <= i < |segs| ==> ParseTag(segs[i]) == Success(ParseTags(input).value[i])
  {
    ParsePiecesOfSegments(segs);
  }

  /** A parsed piece is exactly `key=value`, with no `=` on either side. */
  lemma ParsePairSpec(piece: string)
    requires ParsePair(piece).Success?
    ensures var t := ParsePair(piece).value;
      piece == t.key + "=" + t.value && '=' !in t.key && '=' !in t.value
  {
    var parts := Split(piece, "=");
    JoinSplit(piece, "=");
    SplitPiecesAreFree(piece, "=");
    ContainsChar(parts[0], '=');
    ContainsChar(parts[1], '=');
    assert Join(parts, "=") == parts[0] + "=" + parts[1];
  }

  /** `key=value` with no `=` on either side parses to `Tag(key, value)`. */
  lemma ParsePairOfTag(key: string, value: string)
    requires '=' !in key && '=' !in value
    ensures ParsePair(key + "=" + value) == Success(Tag(key, value))
  {
    assert Join([key, value], "=") == key + "=" + value;
    SplitCharUnique(key + "=" + value, '=', [key, value]);
  }

  /** A piece is accepted only if it holds exactly one `=`. */
  lemma ParsePairNeedsOneEquals(piece: string)
    ensures ParsePair(piece).Success? ==> multiset(piece)['='] == 1
  {
    if ParsePair(piece).Success? {
      ParsePairSpec(piece);
      var t := ParsePair(piece).value;
      assert multiset(t.key)['='] == 0 && multiset(t.value)['='] == 0;
    }
  }

  /** A segment parses to a tag exactly when, once stripped, it is `key=value` with a single `=`. */
  lemma ParseTagSpec(segment: string, key: string, value: string)
    ensures ParseTag(segment) == Success(Tag(key, value)) <==>
      (Strip(segment) == key + "=" + value && '=' !in key && '=' !in value)
  {
    if ParseTag(segment) == Success(Tag(key, value)) {
      ParsePairSpec(Strip(segment));
    }
    if Strip(segment) == key + "=" + value && '=' !in key && '=' !in value {
      ParsePairOfTag(key, value);
    }
  }

  /** `key=value` padded with whitespace parses to `Tag(key, value)`, keeping whitespace around the `=`. */
  lemma ParseTagOfPair(w1: string, key: string, value: string, w2: string)
    requires AllWhitespace(w1) && AllWhitespace(w2)
    requires '=' !in key && '=' !in value
    requires |key| == 0 || !IsWhitespace(key[0])
    requires |value| == 0 || !IsWhitespace(value[|value| - 1])
    ensures ParseTag(w1 + key + "=" + value + w2) == Success(Tag(key, value))
  {
    var t := key + "=" + value;
    assert t[|key|] == '=';
    assert Trimmed(t);
    assert w1 + key + "=" + value + w2 == w1 + t + w2;
    StripPadded(w1, t, w2);
    ParsePairOfTag(key, value);
  }

  /** A lone `=` is accepted as an empty key with an empty value. */
  lemma EmptyPartsAccepted()
    ensures ParseTag("=") == Success(Tag("", ""))
  {
    assert "=" == "" + "" + "=" + "" + "";
    ParseTagOfPair("", "", "", "");
  }

  /** Empty input is one empty segment, which has no `=`: it is rejected. */
  lemma EmptyInputRejected()
    ensures ParseTags("").Failure?
  {
    IndexOfCharAbsent("", ',');
    assert Split("", ",") == [""];
    assert StripAll([""]) == [""];
    IndexOfCharAbsent("", '=');
    assert ParsePair("").Failure?;
  }

  /** Tags separated by a space instead of `,` (`Owner=Fritz Project=CRM`) are rejected. */
  lemma SpaceSeparatedTagsRejected(k1: string, v1: string, k2: string, v2: string)
    requires |k1| > 0 && !IsWhitespace(k1[0]) && |v2| > 0 && !IsWhitespace(v2[|v2| - 1])
    requires ',' !in k1 + v1 + k2 + v2
    ensures ParseTags(k1 + "=" + v1 + " " + k2 + "=" + v2).Failure?
  {
    var s := k1 + "=" + v1 + " " + k2 + "=" + v2;
    assert multiset(k1 + v1 + k2 + v2)[','] == 0;
    assert multiset(s)[','] == 0;
    assert Trimmed(s) by {
      assert s[0] == k1[0] && s[|s| - 1] == v2[|v2| - 1];
    }
    assert multiset(s)['='] >= 2;
    RejectedSegment(s);
  }

  /** Trimmed text without `,` and with two `=` is rejected. */
  lemma RejectedSegment(s: string)
    requires |s| > 0 && Trimmed(s) && ',' !in s && multiset(s)['='] >= 2
    ensures ParseTags(s).Failure?
  {
    assert s == [] + s + [];
    StripPadded([], s, []);
    SingleSegment(s);
    ParsePairNeedsOneEquals(s);
    var pieces := StripAll([s]);
    assert pieces[0] == s;
    assert !ParsePair(pieces[0]).Success?;
  }

  /** Text without `,` is a single segment. */
  lemma SingleSegment(s: string)
    requires ',' !in s
    ensures ParseTags(s) == ParsePieces(StripAll([s]))
  {
    IndexOfCharAbsent(s, ',');
    assert Split(s, ",") == [s];
  }

  /** The segments of `", ".join(f"{key}={value}")`: after the first, each carries the space after the comma. */
  function Segments(tags: seq<Tag>): (segs: seq<string>)
    ensures |segs| == |tags|
    ensures forall i :: 0 <= i < |tags| ==>
      segs[i] == (if i == 0 then "" else " ") + tags[i].key + "=" + tags[i].value
  {
    seq(|tags|, i requires 0 <= i < |tags| => (if i == 0 then "" else " ") + tags[i].key + "=" + tags[i].value)
  }

  /** `", ".join(f"{key}={value}" for each tag)`. */
  function FormatTags(tags: seq<Tag>): string
    requires |tags| > 0
  {
    Join(Segments(tags), ",")
  }

  /** A tag the grammar can carry: no `,` or `=`, no whitespace at the key's start or the value's end. */
  predicate Printable(t: Tag) {
    && ',' !in t.key && '=' !in t.key && ',' !in t.value && '=' !in t.value
    && (|t.key| == 0 || !IsWhitespace(t.key[0]))
    && (|t.value| == 0 || !IsWhitespace(t.value[|t.value| - 1]))
  }

  /** Each formatted segment parses back to its own tag. */
  lemma SegmentParses(tags: seq<Tag>, i: nat)
    requires i < |tags| && Printable(tags[i])
    ensures ParseTag(Segments(tags)[i]) == Success(tags[i])
  {
    var w := if i == 0 then "" else " ";
    assert Segments(tags)[i] == w + tags[i].key + "=" + tags[i].value + "";
    ParseTagOfPair(w, tags[i].key, tags[i].value, "");
  }

  /** Pieces that each unpack to their own tag unpack, together, to the list of those tags. */
  lemma {:induction false} ParsePiecesPointwise(pieces: seq<string>, tags: seq<Tag>)
    requires |pieces| == |tags|
    requires forall i :: 0 <= i < |pieces| ==> ParsePair(pieces[i]) == Success(tags[i])
    ensures ParsePieces(pieces) == Success(tags)
  {
    if |pieces| > 0 {
      ParsePiecesPointwise(pieces[1..], tags[1..]);
      assert tags == [tags[0]] + tags[1..];
    }
  }

  /** Raw segments that each parse to their own tag parse, together, to the list of those tags. */
  lemma ParseSegmentsPointwise(segs: seq<string>, tags: seq<Tag>)
    requires |segs| == |tags|
    requires forall i :: 0 <= i < |segs| ==> ParseTag(segs[i]) == Success(tags[i])
    ensures ParsePieces(StripAll(segs)) == Success(tags)
  {
    var pieces := StripAll(segs);
    forall i | 0 <= i < |segs| ensures ParsePair(pieces[i]) == Success(tags[i]) {
      assert ParseTag(segs[i]) == Success(tags[i]);
    }
    ParsePiecesPointwise(pieces, tags);
  }

  /** The formatted segments of printable tags parse back, one tag each. */
  lemma SegmentsParse(tags: seq<Tag>)
    requires forall i :: 0 <= i < |tags| ==> Printable(tags[i])
    ensures ParsePieces(StripAll(Segments(tags))) == Success(tags)
  {
    var segs := Segments(tags);
    forall i | 0 <= i < |tags| ensures ParseTag(segs[i]) == Success(tags[i]) {
      SegmentParses(tags, i);
    }
    ParseSegmentsPointwise(segs, tags);
  }

  /** Formatting a non-empty list of printable tags and parsing it back gives the same tags. */
  lemma ParseFormatRoundTrip(tags: seq<Tag>)
    requires |tags| > 0
    requires forall i :: 0 <= i < |tags| ==> Printable(tags[i])
    ensures ParseTags(FormatTags(tags)) == Success(tags)
  {
    var segs := Segments(tags);
    forall k | 0 <= k < |segs| ensures ',' !in segs[k] {
      assert forall j :: 0 <= j < |segs[k]| ==>
        segs[k][j] == ' ' || segs[k][j] == '=' || segs[k][j] in tags[k].key || segs[k][j] in tags[k].value;
    }
    SplitCharUnique(FormatTags(tags), ',', segs);
    SegmentsParse(tags);
  }

  /** `Owner=Fritz, Project=CRM` is how the two tags are written. */
  lemma OwnerProjectFormat()
    ensures FormatTags([Tag("Owner", "Fritz"), Tag("Project", "CRM")]) == "Owner=Fritz, Project=CRM"
  {
    var tags := [Tag("Owner", "Fritz"), Tag("Project", "CRM")];
    var segs := Segments(tags);
    assert segs[0] == "" + "Owner" + "=" + "Fritz" == "Owner=Fritz";
    assert segs[1] == " " + "Project" + "=" + "CRM" == " Project=CRM";
    assert Join(segs, ",") == segs[0] + "," + segs[1];
  }

  /** `Owner=Fritz, Project=CRM` parses to the two tags. */
  lemma OwnerProjectExample()
    ensures ParseTags("Owner=Fritz, Project=CRM") == Success([Tag("Owner", "Fritz"), Tag("Project", "CRM")])
  {
    var tags := [Tag("Owner", "Fritz"), Tag("Project", "CRM")];
    assert Printable(tags[0]) && Printable(tags[1]);
    ParseFormatRoundTrip(tags);
    OwnerProjectFormat();
  }
}
