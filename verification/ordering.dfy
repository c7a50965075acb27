/**
 * Python's string comparison: lexicographic by code point, a proper prefix
 * coming first.
 */
module Ordering {

  /** `a <= b` on Python strings. */
  predicate StrLe(a: string, b: string) {
    |a| == 0 || (|b| > 0 && (a[0] < b[0] || (a[0] == b[0] && StrLe(a[1..], b[1..]))))
  }

  lemma {:induction false} StrLeReflexive(a: string)
    ensures StrLe(a, a)
  {
    if |a| > 0 {
      StrLeReflexive(a[1..]);
    }
  }

  lemma {:induction false} StrLeTotal(a: string, b: string)
    ensures StrLe(a, b) || StrLe(b, a)
  {
    if |a| > 0 && |b| > 0 && a[0] == b[0] {
      StrLeTotal(a[1..], b[1..]);
    }
  }

  lemma {:induction false} StrLeAntisymmetric(a: string, b: string)
    requires StrLe(a, b) && StrLe(b, a)
    ensures a == b
  {
    if |a| > 0 {
      StrLeAntisymmetric(a[1..], b[1..]);
      assert a == [a[0]] + a[1..] && b == [b[0]] + b[1..];
    }
  }

  lemma {:induction false} StrLeTransitive(a: string, b: string, c: string)
    requires StrLe(a, b) && StrLe(b, c)
    ensures StrLe(a, c)
  {
    if |a| > 0 && a[0] == b[0] && b[0] == c[0] {
      StrLeTransitive(a[1..], b[1..], c[1..]);
    }
  }

  /** `"ec2" <= "iam"` and `"iam" <= "iam"`: the order of the services in the sort tests. */
  lemma ServiceOrderExample()
    ensures StrLe("ec2", "iam") && !StrLe("iam", "ec2")
    ensures StrLe("s3", "s3x") && !StrLe("s3x", "s3")
  {
    assert "ec2"[0] == 'e' && "iam"[0] == 'i';
    assert "s3x"[1..] == "3x" && "s3"[1..] == "3";
    assert "3x"[1..] == "x" && "3"[1..] == "";
  }
}
