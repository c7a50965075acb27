/**
 * `_extract_arn_from_error`: the ARN the tagging API rejected is the text
 * between the first "operation: " and the following " is" of the error.
 */
module ArnFromError {
  import opened Results
  import opened Text

  const Operation: string := "operation:"
  const OperationMarker: string := Operation + " "
  const IsMarker: string := " is"

  /** The ways one call of `_tag_arn_list` can raise instead of returning. */
  datatype TagError =
      /** IndexError: the error text has no "operation: " */
    | UnparsableInvalidParameter(text: string)
      /** ValueError from `list.remove`: the rejected ARN was not sent */
    | ArnNotInList(arn: string)
      /** the throttling retry did not end within the allowed number of retries */
    | ThrottleRetriesExhausted

  /** `str(e).split("operation: ")[1].split(" is")[0]` */
  function ExtractArnFromError(text: string): (r: Result<string, TagError>)
    ensures r.Failure? <==> !Contains(text, OperationMarker)
    ensures r.Failure? ==> r.error == UnparsableInvalidParameter(text)
    ensures r.Success? ==> !Contains(r.value, IsMarker)
  {
    var parts := Split(text, OperationMarker);
    if |parts| < 2 then Failure(UnparsableInvalidParameter(text))
    else
      SplitPiecesAreFree(parts[1], IsMarker);
      Success(Split(parts[1], IsMarker)[0])
  }

  /** A match that fits inside `a` does not see what follows `a`. */
  lemma MatchesAtPrefix(a: string, b: string, sub: string, j: nat)
    requires j + |sub| <= |a|
    ensures MatchesAt(a + b, sub, j) <==> MatchesAt(a, sub, j)
  {
    assert (a + b)[j..j + |sub|] == a[j..j + |sub|];
  }

  /** No "operation: " starts within the ARN or the " is" after it. */
  lemma NoMarkerBeforeIs(arn: string, tail: string, j: nat)
    requires ' ' !in arn
    requires !Contains(arn, Operation)
    requires j < |arn| + |IsMarker|
    ensures !MatchesAt(arn + IsMarker + tail, OperationMarker, j)
  {
    var rest := arn + IsMarker + tail;
    assert |OperationMarker| == 11 && |Operation| == 10;
    if j >= |arn| {
      assert rest[j] == IsMarker[j - |arn|];
      assert rest[j] != OperationMarker[0];
    } else if j + |Operation| <= |arn| {
      assert !MatchesAt(arn, Operation, j);
      assert OperationMarker[..|Operation|] == Operation;
      assert rest[j..j + |Operation|] == arn[j..j + |Operation|];
      if j + |OperationMarker| <= |rest| {
        assert rest[j..j + |OperationMarker|][..|Operation|] == rest[j..j + |Operation|];
      }
    } else {
      var m := |arn| - j;
      assert rest[|arn|] == ' ';
      assert OperationMarker[m] == Operation[m];
      assert Operation[m] in Operation;
      assert ' ' !in Operation;
      if j + |OperationMarker| <= |rest| {
        assert rest[j..j + |OperationMarker|][m] == rest[|arn|];
      }
    }
  }

  /**
   * For the API's message "... operation: <arn> is ..." the rejected ARN is
   * recovered, provided the marker does not occur earlier and the ARN holds
   * neither a blank nor "operation:".
   */
  lemma ExtractArnFromMessage(head: string, arn: string, tail: string)
    requires forall j: nat :: j < |head| ==> !MatchesAt(head + OperationMarker, OperationMarker, j)
    requires ' ' !in arn
    requires !Contains(arn, Operation)
    ensures ExtractArnFromError(head + OperationMarker + arn + IsMarker + tail) == Success(arn)
  {
    var rest := arn + IsMarker + tail;
    assert head + OperationMarker + rest == head + OperationMarker + arn + IsMarker + tail;
    assert rest[..|arn|] == arn && rest[|arn|..|arn| + |IsMarker|] == IsMarker;
    var piece := PieceAfterMarker(head, rest);
    forall j: nat | j < |arn| + |IsMarker| ensures !MatchesAt(rest, OperationMarker, j) {
      NoMarkerBeforeIs(arn, tail, j);
    }
    ArnBeforeIs(arn, rest, piece);
  }

  /** The piece after the first "operation: " is the text after `head` up to the next marker. */
  lemma PieceAfterMarker(head: string, rest: string) returns (piece: string)
    requires forall j: nat :: j < |head| ==> !MatchesAt(head + OperationMarker, OperationMarker, j)
    ensures |Split(head + OperationMarker + rest, OperationMarker)| >= 2
    ensures piece == Split(head + OperationMarker + rest, OperationMarker)[1]
    ensures piece == Split(rest, OperationMarker)[0]
  {
    var text := head + OperationMarker + rest;
    assert text == (head + OperationMarker) + rest;
    forall j: nat | j < |head| ensures !MatchesAt(text, OperationMarker, j) {
      MatchesAtPrefix(head + OperationMarker, rest, OperationMarker, j);
    }
    MatchesAtPrefix(head + OperationMarker, rest, OperationMarker, |head|);
    FirstMatch(text, OperationMarker, |head|);
    assert text[|head| + |OperationMarker|..] == rest;
    var parts := Split(text, OperationMarker);
    assert text[..|head|] == head;
    assert parts == [head] + Split(rest, OperationMarker);
    piece := parts[1];
  }

  /** When no marker starts within "<arn> is", the piece up to the next marker splits at " is" to the ARN. */
  lemma ArnBeforeIs(arn: string, rest: string, piece: string)
    requires ' ' !in arn
    requires |rest| >= |arn| + |IsMarker|
    requires rest[..|arn|] == arn && rest[|arn|..|arn| + |IsMarker|] == IsMarker
    requires forall j: nat :: j < |arn| + |IsMarker| ==> !MatchesAt(rest, OperationMarker, j)
    requires piece == Split(rest, OperationMarker)[0]
    ensures Split(piece, IsMarker)[0] == arn
  {
    var cut: nat := match IndexOf(rest, OperationMarker) case Some(k) => k case None => |rest|;
    assert cut >= |arn| + |IsMarker|;
    assert piece == rest[..cut];
    assert piece[..|arn|] == arn;
    assert piece[|arn|..|arn| + |IsMarker|] == rest[|arn|..|arn| + |IsMarker|];
    assert MatchesAt(piece, IsMarker, |arn|);
    forall j: nat | j < |arn| ensures !MatchesAt(piece, IsMarker, j) {
      assert piece[j] == arn[j] != ' ';
      assert IsMarker[0] == ' ';
    }
    FirstMatch(piece, IsMarker, |arn|);
  }
}
