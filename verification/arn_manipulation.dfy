/**
 * Post-scan ARN rewriting (taggercore/manipulation): scanned S3 bucket ARNs
 * carry a region and account that the tagging API rejects, so the S3
 * strategy rebuilds them as `arn:<partition>:s3:::<bucket>`; every other
 * service keeps its ARN.
 */
module ArnManipulation {
  import opened Text
  import opened Resources

  /** Python's `s[:k]`, where a negative `k` counts from the end. */
  function PrefixTo(s: string, k: int): (r: string)
    ensures k >= 0 ==> r == s[..if k <= |s| then k else |s|]
    ensures k < 0 ==> r == s[..if |s| + k >= 0 then |s| + k else 0]
  {
    if k >= 0 then (if k <= |s| then s[..k] else s)
    else if |s| + k >= 0 then s[..|s| + k] else []
  }

  /** `S3ArnManipulationStrategy.manipulate_arn`. */
  function S3ManipulateArn(arn: string): string {
    var start := Find(arn, "s3");
    var index := Find(arn, "/");
    PrefixTo(arn, start) + "s3:::" + arn[index + 1..]
  }

  /**
   * The text before the first `s3`, then `s3:::`, then everything after
   * the first `/` verbatim (later `/` included): region and account go.
   */
  lemma S3DropsRegionAndAccount(prefix: string, middle: string, bucket: string)
    requires '3' !in prefix
    requires '/' !in prefix && '/' !in middle
    ensures S3ManipulateArn(prefix + "s3" + middle + "/" + bucket) == prefix + "s3:::" + bucket
  {
    var arn := prefix + "s3" + middle + "/" + bucket;
    FirstS3After(prefix, middle + "/" + bucket);
    assert arn == prefix + "s3" + (middle + "/" + bucket);
    assert arn == (prefix + "s3" + middle) + ['/'] + bucket;
    assert '/' !in prefix + "s3" + middle;
    IndexOfCharAfter(prefix + "s3" + middle, '/', bucket);
    assert arn[|prefix + "s3" + middle| + 1..] == bucket;
  }

  /** With no `3` before it, the first `s3` in `prefix + "s3" + rest` is right after `prefix`. */
  lemma FirstS3After(prefix: string, rest: string)
    requires '3' !in prefix
    ensures Find(prefix + "s3" + rest, "s3") == |prefix|
  {
    var s := prefix + "s3" + rest;
    assert s[|prefix|..|prefix| + 2] == "s3";
    forall j: nat | j < |prefix|
      ensures !MatchesAt(s, "s3", j)
    {
      if j + 1 < |prefix| {
        assert s[j + 1] == prefix[j + 1] != '3';
      } else {
        assert s[j + 1] == 's';
      }
    }
    FirstMatch(s, "s3", |prefix|);
  }

  /** The scanned S3 bucket ARN of the test suite becomes `arn:aws:s3:::some-bucket`. */
  lemma S3BucketExample()
    ensures S3ManipulateArn("arn:aws:" + "s3" + ":eu-central-1:111111111111:bucket" + "/" + "some-bucket")
         == "arn:aws:" + "s3:::" + "some-bucket"
  {
    assert '3' !in "arn:aws:";
    assert '/' !in "arn:aws:" && '/' !in ":eu-central-1:111111111111:bucket";
    S3DropsRegionAndAccount("arn:aws:", ":eu-central-1:111111111111:bucket", "some-bucket");
  }

  /**
   * With no `/`, `find` gives -1 and the whole ARN is appended after
   * `s3:::`, so an already normalised ARN is not left alone.
   */
  lemma S3WithoutSlashAppendsWholeArn(prefix: string, bucket: string)
    requires '3' !in prefix
    requires '/' !in prefix && '/' !in bucket
    ensures var arn := prefix + "s3:::" + bucket;
            S3ManipulateArn(arn) == prefix + "s3:::" + arn && S3ManipulateArn(arn) != arn
  {
    var arn := prefix + "s3:::" + bucket;
    assert arn == prefix + "s3" + (":::" + bucket);
    FirstS3After(prefix, ":::" + bucket);
    assert '/' !in arn;
    ContainsChar(arn, '/');
  }

  /** With no `s3`, `find` gives -1 and `arn[:-1]` drops the last character. */
  lemma S3WithoutS3DropsLastChar(arn: string)
    requires |arn| > 0
    requires !Contains(arn, "s3")
    requires '/' !in arn
    ensures S3ManipulateArn(arn) == arn[..|arn| - 1] + "s3:::" + arn
  {
    ContainsChar(arn, '/');
  }

  // ---------------------------------------------------------------------
  // ArnManipulationStrategyFactory

  datatype ArnStrategy = S3Strategy | NoManipulation

  /** `_service_strategy_mapping`. */
  const ServiceStrategyMapping: map<string, ArnStrategy> := map["s3" := S3Strategy]

  /** `manipulation_strategy_for_service`: `dict.get` with the no-op fallback; never fails. */
  function StrategyForService(service: string): (s: ArnStrategy)
    ensures s == S3Strategy <==> service == "s3"
  {
    if service in ServiceStrategyMapping then ServiceStrategyMapping[service] else NoManipulation
  }

  /**
   * Applies a strategy. NoArnManipulationStrategy is not part of this model;
   * it is taken to return the ARN unchanged, as its name says.
   */
  function ApplyStrategy(strategy: ArnStrategy, arn: string): string {
    match strategy
    case S3Strategy => S3ManipulateArn(arn)
    case NoManipulation => arn
  }

  /** `RegionScanner.manipulate_arn`: rewrites the ARN of a scanned resource. */
  function ManipulateArn(r: Resource): (m: Resource)
    ensures m == r.(arn := m.arn)
    ensures r.service != "s3" ==> m == r
    ensures r.service == "s3" ==> m.arn == S3ManipulateArn(r.arn)
  {
    r.WithArn(ApplyStrategy(StrategyForService(r.service), r.arn))
  }
}
