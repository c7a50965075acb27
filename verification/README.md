# tagger in Dafny

This project models the decision and data-transformation core of *tagger*. Tagger is a Python tool that scans the resources of an AWS account, compares their tags with a desired tag set, reports the differences and applies the desired tags. The model keeps the tool's own vocabulary.

- **Resource** (`Resources`). A scanned resource whose `service` and `region` are the third and fourth `:`-separated fields of its ARN. Equality is by ARN.
  - `CompareTags` builds the ordered list of **tag diffs** (EXISTING, NEW_VALUE, NEW, EXISTING_NOT_IN_SCHEMA).
  - `TagDiffs.ResourceWithTagDiffs` decides whether a resource is **properly tagged**.
- **ARN manipulation** (`ArnManipulation`). The S3 strategy rewrites an S3 ARN to its region- and account-free form. The strategy factory dispatches on the service.
- **Bulk tagger** (`ResourceGroupTagger`, `Chunking`, `ArnFromError`). The `RegionTagger` and `GlobalTagger` share a Resource Groups Tagging API executor:
  - it splits the ARNs into lists of at most 20;
  - it folds the API's failure map into an accumulated failure map;
  - on an invalid-parameter error it isolates the ARN named in the message and retries without it;
  - on throttling it retries the same list;
  - it treats any other error as an empty answer.
  The remote API is a function from the call history and the request to a response. Every request the model sends is recorded.
- **IAM tagger** (`IamTagger`). It splits its resources into users and roles and tags each one in turn. A client error is recorded per ARN and the loop goes on; any other error stops it.
- **SuperTagger** (`SuperTagger`, `Grouping`, `Merging`, `Runs`). The orchestrator routes every resource to exactly one of three places:
  - a service tagger (IAM);
  - the region tagger of its region, grouped by first occurrence;
  - the global tagger.
  It runs the taggers and reduces their nested results into one: successes are concatenated, and a later failure message wins. The taggers of a loop run one after another through the shared call log; `Runs` states such a run once, for any step function, and proves that a run from given calls is unique.
- **Scanning helpers** (`Scanner`, `Ordering`).
  - `create_resource` turns a scanned item into a resource.
  - A stable sort orders resources by (service, type).
  - The regional and global scans keep what they do not exclude.
  - `scan_and_compare_resources` pairs each resource with its diffs.
- **Report** (`Report`). The CLI dashboard groups diffs by consecutive runs of a service (`itertools.groupby`, written into a dict) and counts the properly tagged resources of each service.
- **Tag input** (`TagParsing`, `Text`). The `Key=Value, Key=Value` parser shared by the CLI's `config` command and the lambda, with the whitespace stripping it relies on.
- **Lambda** (`TaggingLambda`). It reads the configuration from the environment with defaults. Tags come from the organization account or from the environment. Global resources join the regional ones only when `TAG_GLOBAL_RES` is `TRUE`.

`Results` (Option/Result), `Seqs` (filter, flatten and map), `Model` (Tag, TagDiff, TaggingResult) and `Sessions` (boto3 session choice) hold the shared vocabulary.

## Model

| member | source | states |
|---|---|---|
| Resources.NewResource | taggercore/taggercore/model/resource.py:37-39 | A resource exists exactly when its ARN has at least four `:`-fields; otherwise the indexing error becomes `MalformedArn`. It keeps arn, id and type. |
| Resources.FieldsOfArn | taggercore/taggercore/model/resource.py:37-39 | For an ARN joined from colon-free fields, `service` is the third field and `region` the fourth. |
| Resources.ServiceAndRegionFromArn | taggercore/taggercore/model/resource.py:37-39 | `arn:partition:service:region:…` gives exactly that service and region, whatever follows. |
| Resources.GlobalArnHasEmptyRegion | taggercore/taggercore/model/resource.py:37-39 | An IAM ARN `arn:aws:iam::account:path` has service `iam` and the empty region. |
| Resources.ShortArnIsRejected | taggercore/taggercore/model/resource.py:37-39 | A three-field ARN is rejected. |
| Resources.Equals | taggercore/taggercore/model/resource.py:57-58 | `__eq__` compares the ARNs alone. `Resources.EqualityIsByArn` states it: two resources built from the same ARN are equal and hash alike, whatever their id, type, tags or name. |
| Resources.EqualityIsByArn | taggercore/taggercore/model/resource.py:57-64 | Two resources built from the same ARN are equal and hash alike, whatever their id, type, tags or name. |
| Resources.WithArn | taggercore/taggercore/model/resource.py:86-88 | The `arn` setter. `Resources.WithArnKeepsParsedFields` states it: only the ARN changes, and service and region keep the values parsed from the original ARN. |
| Resources.WithArnKeepsParsedFields | taggercore/taggercore/model/resource.py:86-88 | Assigning a new ARN changes only the ARN: id, type, tags and name stay, and service and region keep the values parsed from the original ARN. |
| Resources.FirstIndexWithKey | taggercore/taggercore/model/resource.py:108-115 | The `next(...)` lookup gives the first current tag carrying the key, and no earlier tag carries it. |
| Resources.CompareTags | taggercore/taggercore/model/resource.py:102-125 | `compare_tags`. `Resources.CompareTagsSpec` and `Resources.NotInSchemaSpec` state it: one diff per desired tag, in order (EXISTING, NEW_VALUE or NEW), then one EXISTING_NOT_IN_SCHEMA diff per current tag whose key no desired tag has. |
| Resources.CompareTagsSpec | taggercore/taggercore/model/resource.py:102-125 | Diff i of the first \|desired\| diffs has the desired tag as new tag. It is EXISTING iff that tag is present, NEW_VALUE (old = first tag with that key) iff only the key is present, and NEW (no old tag) iff the key is absent. One EXISTING_NOT_IN_SCHEMA diff per out-of-schema current tag follows. |
| Resources.NotInSchemaSpec | taggercore/taggercore/model/resource.py:119-123 | The EXISTING_NOT_IN_SCHEMA entries are exactly the current tags whose key no desired tag has. |
| TagDiffs.ProperlyTagged | taggercore/taggercore/model/resource_with_tag_diffs.py:55-70 | `properly_tagged`. `TagDiffs.ProperlyTaggedIffAllProper` and `TagDiffs.ProperlyTaggedIffDesiredPresent` state it: properly tagged iff no diff is NEW or NEW_VALUE, iff every desired tag is already present. |
| TagDiffs.ProperlyTaggedIffAllProper | taggercore/taggercore/model/resource_with_tag_diffs.py:55-70 | Properly tagged iff every diff is EXISTING or EXISTING_NOT_IN_SCHEMA, i.e. iff no diff is NEW or NEW_VALUE. |
| TagDiffs.NoDiffsIsProper | taggercore/taggercore/model/resource_with_tag_diffs.py:55-63 | An empty diff list is properly tagged. |
| TagDiffs.OneImproperDiffSpoils | taggercore/taggercore/model/resource_with_tag_diffs.py:65-70 | A single NEW or NEW_VALUE diff makes the resource not properly tagged. |
| TagDiffs.ProperlyTaggedIgnoresOrder | taggercore/taggercore/model/resource_with_tag_diffs.py:55-63 | Reordering the diffs does not change the verdict. |
| TagDiffs.AccessorsDelegate | taggercore/taggercore/model/resource_with_tag_diffs.py:39-53 | service, region, arn and type are those of the wrapped resource. |
| TagDiffs.ProperlyTaggedIffDesiredPresent | taggercore/taggercore/model/resource_with_tag_diffs.py:55-70 | A resource's diffs against the desired tags are proper iff every desired tag already occurs among its current tags. |
| ArnManipulation.PrefixTo | taggercore/taggercore/manipulation/s3_arn_manipulation_strategy.py:30-32 | Python slicing `s[:k]`: a non-negative k is clamped to the length, and a negative k counts from the end. |
| ArnManipulation.S3ManipulateArn | taggercore/taggercore/manipulation/s3_arn_manipulation_strategy.py:29-32 | The S3 rewrite. `ArnManipulation.S3DropsRegionAndAccount` states the ordinary case (prefix, `s3:::`, everything after the first `/`); `ArnManipulation.S3WithoutSlashAppendsWholeArn` and `ArnManipulation.S3WithoutS3DropsLastChar` state what `find` returning -1 does. |
| ArnManipulation.S3DropsRegionAndAccount | taggercore/taggercore/manipulation/s3_arn_manipulation_strategy.py:29-32 | An S3 ARN becomes the text before the first `s3`, then `s3:::`, then everything after the first `/`, later slashes included. Region and account are dropped. |
| ArnManipulation.FirstS3After | taggercore/taggercore/manipulation/s3_arn_manipulation_strategy.py:30 | `find("s3")` reports the first occurrence. |
| ArnManipulation.S3BucketExample | taggercore/test/manipulation/test_s3_arn_manipulation_strategy.py:28-35 | `arn:aws:s3:eu-central-1:111111111111:bucket/some-bucket` becomes `arn:aws:s3:::some-bucket`. |
| ArnManipulation.S3WithoutSlashAppendsWholeArn | taggercore/taggercore/manipulation/s3_arn_manipulation_strategy.py:31-32 | Without `/`, `find` gives -1 and the whole input follows `s3:::`, so an already normalised ARN is not a fixed point. |
| ArnManipulation.S3WithoutS3DropsLastChar | taggercore/taggercore/manipulation/s3_arn_manipulation_strategy.py:30-32 | Without `s3`, the start is -1 and `arn[:-1]` drops the last character. |
| ArnManipulation.StrategyForService | taggercore/taggercore/manipulation/arn_manipulation_strategy_factory.py:34-43 | The S3 strategy is chosen exactly for the service `s3` (an exact match); every other service falls back to no manipulation. |
| ArnManipulation.ApplyStrategy | taggercore/taggercore/scanner/region_scanner.py:82-85 | Applying the chosen strategy to an ARN. `ArnManipulation.ManipulateArn` states it: the ARN is unchanged for non-S3 services and rewritten by the S3 strategy for `s3`. |
| ArnManipulation.ManipulateArn | taggercore/taggercore/scanner/region_scanner.py:80-86 | Only the ARN changes: unchanged for non-S3 services, rewritten by the S3 strategy for `s3`. |
| Sessions.InitSession | taggercore/taggercore/tagger/abstract_resource_group_api_tagger.py:151-161 | Credentials win, then the profile. With neither, the configuration error. |
| Chunking.ChunksFromSpec | taggercore/taggercore/tagger/abstract_resource_group_api_tagger.py:87-95 | The chunks from a start index concatenate to the rest of the list. All but the last have 20 ARNs, none has more, and their number is the ceiling of the remaining length over 20. |
| Chunking.SplitIntoSublists | taggercore/taggercore/tagger/abstract_resource_group_api_tagger.py:87-95 | `split_into_sublist`. `Chunking.SplitIntoSublistsSpec` states it: the sublists concatenate to the ARN list, there are max(1, ⌈n/20⌉) of them, all but the last hold 20 and none holds more. |
| Chunking.SplitIntoSublistsSpec | taggercore/taggercore/tagger/abstract_resource_group_api_tagger.py:87-95 | The sublists concatenate to the ARN list in order. There are max(1, ⌈n/20⌉) of them (one empty list for no ARNs), all but the last hold 20, and none holds more. |
| Chunking.TwentyThreeArnsMakeTwoLists | taggercore/test/tagger/test_region_tagger.py:86-134 | 23 ARNs split as 20 + 3. |
| ArnFromError.ExtractArnFromError | taggercore/taggercore/tagger/abstract_resource_group_api_tagger.py:123-124 | The ARN is found iff the message contains `operation: `. Otherwise the error carries the whole message. The extracted text never contains ` is`. |
| ArnFromError.ExtractArnFromMessage | taggercore/taggercore/tagger/abstract_resource_group_api_tagger.py:123-124 | For a message `…operation: <arn> is…` whose ARN has no space and no `operation:`, the extracted text is exactly the ARN. |
| ResourceGroupTagger.TagMap | taggercore/taggercore/tagger/abstract_resource_group_api_tagger.py:98 | The request's tag map has exactly the tag keys; for a duplicated key the last value wins. |
| ResourceGroupTagger.ExtractFailedResourceArns | taggercore/taggercore/tagger/abstract_resource_group_api_tagger.py:140-149 | Every ARN of FailedResourcesMap becomes a failure key, with its ErrorMessage or `""`. |
| ResourceGroupTagger.TransformResponse | taggercore/taggercore/tagger/abstract_resource_group_api_tagger.py:126-138 | The accumulated failures become the old ones overwritten by the new ones. The result reports that whole map as failed, and succeeds with the list's ARNs not among them. |
| ResourceGroupTagger.ResultFor | taggercore/taggercore/tagger/abstract_resource_group_api_tagger.py:135-138 | The successes are exactly the list's ARNs that are not failure keys, so successes and failures are disjoint; with no failing ARN, the whole list succeeds. The order is stated by ResultForInOrder. |
| ResourceGroupTagger.ResultForInOrder | taggercore/taggercore/tagger/abstract_resource_group_api_tagger.py:135-137 | The successes keep the list's order and repeats: the k-th success is the ARN at the k-th list position whose ARN has not failed. |
| ResourceGroupTagger.RemoveFirst | taggercore/taggercore/tagger/abstract_resource_group_api_tagger.py:109 | `list.remove` takes one occurrence out of the list, which must contain it: the length drops by one and the multiset loses exactly that one copy. Which copy and the order of the rest are stated by `ResourceGroupTagger.RemoveFirstKeepsOrder`. |
| ResourceGroupTagger.RemovalKeepsOthers | taggercore/taggercore/tagger/abstract_resource_group_api_tagger.py:109 | Removing an ARN keeps every other ARN and adds none. |
| ResourceGroupTagger.RemoveUnique | taggercore/taggercore/tagger/abstract_resource_group_api_tagger.py:109 | Removing an ARN that occurs once leaves no copy of it. |
| ResourceGroupTagger.FirstIndexOf | taggercore/taggercore/tagger/abstract_resource_group_api_tagger.py:109 | The position `list.remove` acts on: the ARN is there, and no earlier position holds it. |
| ResourceGroupTagger.RemoveFirstKeepsOrder | taggercore/taggercore/tagger/abstract_resource_group_api_tagger.py:109 | `list.remove` drops exactly the first occurrence: the result is the list before it followed by the list after it, in order. |
| ResourceGroupTagger.DirectSound | taggercore/taggercore/tagger/abstract_resource_group_api_tagger.py:118-121 | Answering a list with one request and transforming the response yields an outcome that reports every ARN, succeeds only with ARNs of the list and keeps the old failures. |
| ResourceGroupTagger.RetrySound | taggercore/taggercore/tagger/abstract_resource_group_api_tagger.py:101-112 | After a rejected ARN is recorded as failed, a sound outcome for the reduced list is a sound outcome for the original list. |
| ResourceGroupTagger.TagArnList | taggercore/taggercore/tagger/abstract_resource_group_api_tagger.py:97-121 | Every successful outcome reports each ARN of the list as succeeded or failed, succeeds only with ARNs of the list, keeps the earlier failures and sends only requests for sub-lists of it. Every failure it adds was named by an answer to one of its calls: a failed resource of a response, or the ARN an invalid-parameter error rejected. |
| ResourceGroupTagger.TagArnListInOrder | taggercore/taggercore/tagger/abstract_resource_group_api_tagger.py:97-138 | Every successful outcome's result is the list filtered by the final failure map: the list's non-failed ARNs in list order, repeats kept (line 135-137 filters the original list, which the retries shortened only by failed ARNs). The list it finally reports keeps the same non-failed ARNs in the same order. |
| ResourceGroupTagger.DirectNamed | taggercore/taggercore/tagger/abstract_resource_group_api_tagger.py:126-134 | A list answered directly adds as failures exactly ARNs its answer names. |
| ResourceGroupTagger.RetryNamed | taggercore/taggercore/tagger/abstract_resource_group_api_tagger.py:101-117 | After a rejection or a throttle, the failures of the retry are the earlier ones, the rejected ARN, or ARNs named by later answers. |
| ResourceGroupTagger.InvalidAnswer | taggercore/taggercore/tagger/abstract_resource_group_api_tagger.py:101-112 | A rejected ARN that is in the list is recorded with the exception's text, its first occurrence is removed, the rest is sent again, and the result is taken on the retry's list and state. |
| ResourceGroupTagger.InvalidParameterRecordsArn | taggercore/taggercore/tagger/abstract_resource_group_api_tagger.py:101-121 | Whatever the later answers, a successful run of a list whose first answer rejects an ARN names an ARN of the list, and reports it among the failures and not among the successes. |
| ResourceGroupTagger.RunStep | taggercore/taggercore/tagger/abstract_resource_group_api_tagger.py:74-82 | The per-list outcomes compose into a sound run over all lists. |
| ResourceGroupTagger.TagLists | taggercore/taggercore/tagger/abstract_resource_group_api_tagger.py:78-82 | Tagging the lists in order gives a sound run: one result per list, in list order, and result i is list i filtered by that result's failure map, so its successes are the list's non-failed ARNs in list order. Every failure in a result was a failure before the run or was named by an answer to one of its calls. |
| ResourceGroupTagger.RunNamedStep | taggercore/taggercore/tagger/abstract_resource_group_api_tagger.py:78-82 | The first list's failures and those of the rest of the run are both accounted for from the start of the run. |
| ResourceGroupTagger.NewBulkTagger | taggercore/taggercore/tagger/abstract_resource_group_api_tagger.py:46-50 | Construction fails exactly when no session can be opened, and keeps the scope, tags and resources. |
| ResourceGroupTagger.TagAll | taggercore/taggercore/tagger/abstract_resource_group_api_tagger.py:74-85 | One result per sublist, each reporting its list, and result i is sublist i filtered by that result's failure map (successes in list order). Earlier calls are kept. Every request carries at most 20 of the tagger's ARNs, for its endpoint region and tag map. Every failure reported was named by an answer to a call of this run, so failures of an earlier run are not carried over. |
| ResourceGroupTagger.RequestsStayWithinLists | taggercore/taggercore/tagger/abstract_resource_group_api_tagger.py:87-95 | Requests sent for the sublists hold at most 20 ARNs, all from the tagger's list. |
| ResourceGroupTagger.EveryArnIsReported | taggercore/taggercore/tagger/abstract_resource_group_api_tagger.py:74-82 | Every ARN of the tagger shows up as a success or a failure in some result. |
| ResourceGroupTagger.AllAcceptedLists | taggercore/taggercore/tagger/abstract_resource_group_api_tagger.py:74-82 | When the API accepts everything, list i's result succeeds with exactly list i and has no failures. |
| ResourceGroupTagger.TwentyThreeResourcesAllAccepted | taggercore/test/tagger/test_region_tagger.py:86-134 | 23 accepted resources give two results, the first 20 ARNs and the last 3. |
| ResourceGroupTagger.RejectedArnIsRemovedAndRestRetried | taggercore/test/tagger/test_region_tagger.py:136-172 | An invalid-parameter answer naming one ARN records that ARN as failed with the message and retries the rest. The result succeeds with the rest, and the retry is one ARN shorter. |
| ResourceGroupTagger.AcceptedListKeepsAll | taggercore/taggercore/tagger/abstract_resource_group_api_tagger.py:126-138 | An accepted list with no prior failure among its ARNs succeeds with the whole list and keeps the old failure map. |
| ResourceGroupTagger.ThrottledThenTaggedIsTransparent | taggercore/taggercore/tagger/abstract_resource_group_api_tagger.py:113-117 | A throttled answer followed by a normal one gives the same result as the normal answer alone. |
| ResourceGroupTagger.AlwaysThrottledExhaustsRetries | taggercore/taggercore/tagger/abstract_resource_group_api_tagger.py:113-117 | An API that always throttles ends in `ThrottleRetriesExhausted`. This stands in for the source's unbounded retry. |
| ResourceGroupTagger.OtherErrorCountsAsTagged | taggercore/taggercore/tagger/abstract_resource_group_api_tagger.py:118-121 | Any other error is read as an empty failure map: every ARN not already failed is reported successful. |
| ResourceGroupTagger.InvalidParameterAborts | taggercore/taggercore/tagger/abstract_resource_group_api_tagger.py:101-112 | An invalid-parameter message without `operation: `, or naming an ARN not in the list, stops tagging with that error instead of retrying. |
| IamTagger.NewIamTagger | taggercore/taggercore/tagger/iam_tagger.py:47-54 | Users are exactly the resources of type `user` and roles those of type `role`, in input order: the k-th user is the resource at the k-th position holding a user, and likewise for roles. Construction fails only when no session can be opened. |
| IamTagger.ArnsOf | taggercore/taggercore/tagger/iam_tagger.py:80-85 | The ARNs of the resources, one per resource and in order. |
| IamTagger.AccountedOk | taggercore/taggercore/tagger/iam_tagger.py:81-85 | After a successful call the resource's ARN is appended to the successes, and the result still accounts for the answers. |
| IamTagger.AccountedClientError | taggercore/taggercore/tagger/iam_tagger.py:86-89 | After a client error the resource's ARN maps to the error message, and the result still accounts for the answers. |
| IamTagger.CallsAnsweredStep | taggercore/taggercore/tagger/iam_tagger.py:80-83 | The next call tags the next resource by name with the tag list. Appending it and its answer keeps the calls in step with the answers. |
| IamTagger.AccountedCovers | taggercore/taggercore/tagger/iam_tagger.py:78-90 | Once every resource has an OK or client-error answer, each resource's ARN is a success or a failure key. |
| IamTagger.AllOkAccounted | taggercore/taggercore/tagger/iam_tagger.py:78-90 | When every call succeeds, the result is all ARNs in order with no failures. |
| IamTagger.OkArnsAllOk | taggercore/taggercore/tagger/iam_tagger.py:80-85 | With only OK answers, the successful ARNs are those of the resources answered so far, in order. |
| IamTagger.TagEach | taggercore/taggercore/tagger/iam_tagger.py:78-104 | The loop calls once per resource, in order, and keeps going after a client error. An unexpected error stops it and is returned; otherwise the result accounts for every answer. |
| IamTagger.AlwaysOkAnswers | taggercore/taggercore/tagger/iam_tagger.py:81-85 | An API that always accepts answers every call with OK. |
| IamTagger.TagCovered | taggercore/taggercore/tagger/iam_tagger.py:78-104 | Tagging one kind calls once per resource, in order. On success the result is accounted for by the client's answers to those calls: an ARN succeeds iff its call was answered OK, in call order, and a client error records that ARN with the message of its last failure. An always-accepting API gives all ARNs as successes. |
| IamTagger.CallsKept | taggercore/taggercore/tagger/iam_tagger.py:78-104 | The calls for users stay in place while the roles are tagged afterwards. |
| IamTagger.TagAll | taggercore/taggercore/tagger/iam_tagger.py:44-61 | Users are tagged first, then roles, one call each with the same tag list. On success it returns exactly two results, the users' and then the roles', each accounted for by the answers to that kind's calls. An always-accepting API gives both as plain success lists. |
| Grouping.WithKey | taggercore/taggercore/tagger/super_tagger.py:84-85 | A group holds only elements with the group's key. |
| Grouping.WithKeyMember | taggercore/taggercore/tagger/super_tagger.py:84-85 | An element is in the group of key k iff it is in the input and has key k. |
| Grouping.Add | taggercore/taggercore/tagger/super_tagger.py:85 | `setdefault(k, []).append(x)`. Its own contract gives the number of keys; `Grouping.AddSpec` states that keys stay distinct, only k's list grows by x at its end and a new key goes last. |
| Grouping.AddSpec | taggercore/taggercore/tagger/super_tagger.py:85 | `setdefault(k, []).append(x)` keeps the keys distinct, extends only k's list and appends a new key at the end. |
| Grouping.AddFresh | taggercore/taggercore/tagger/super_tagger.py:85 | A new key is appended with the one-element list. |
| Grouping.GroupBy | taggercore/taggercore/tagger/super_tagger.py:93-96 | The `setdefault` grouping loop. `Grouping.GroupBySpec` and `Grouping.GroupByOrder` state it: distinct keys in order of first occurrence, each list the input's elements with that key in input order. |
| Grouping.GroupBySpec | taggercore/taggercore/tagger/super_tagger.py:93-96 | The dict built with `setdefault` has distinct keys, in order of their first occurrence in the input. Each key's list is the input's elements with that key, in order, and is non-empty. Every element's key is present. |
| Grouping.GroupByShape | taggercore/taggercore/tagger/super_tagger.py:93-96 | Distinct keys, each key's list its elements in order and non-empty, every element's key present. |
| Grouping.GroupByOrder | taggercore/taggercore/tagger/super_tagger.py:93-96 | The keys come in order of first occurrence: an element with a later key is preceded by an element with each earlier key. |
| Grouping.OrderStep | taggercore/taggercore/tagger/super_tagger.py:95-96 | Adding one element keeps the keys in order of first occurrence. |
| Grouping.GroupByAbsent | taggercore/taggercore/tagger/super_tagger.py:93-96 | A key no element has is not a key of the grouping. |
| Merging.Merge | taggercore/taggercore/tagger/super_tagger.py:152-155 | Merging concatenates the successes and unions the failure keys; on a shared key the second result's message wins. |
| Merging.MergeAssociative | taggercore/taggercore/tagger/super_tagger.py:151-157 | The merge is associative, so the fold's grouping does not matter. |
| Merging.MergeIdentity | taggercore/taggercore/tagger/super_tagger.py:143-144 | `([], {})` is a two-sided identity of the merge. |
| Merging.ReduceToSingleResult | taggercore/taggercore/tagger/super_tagger.py:139-157 | An empty outer list gives `([], {})`. The reduction fails (the `reduce` error) exactly when the outer list is non-empty and every sublist is empty. |
| Merging.ReduceResults | taggercore/taggercore/tagger/super_tagger.py:151-157 | The `reduce` over the flattened results. `Merging.ReduceSuccesses`, `Merging.ReduceFailures` and `Merging.ReduceLastMessageWins` state it: successes concatenated in order, failures united, the last message for an ARN wins. |
| Merging.ReduceSuccesses | taggercore/taggercore/tagger/super_tagger.py:151-157 | The reduction's successes are the results' successes concatenated in order, so an ARN succeeds in the reduction iff it succeeds in some result. |
| Merging.ReduceFailures | taggercore/taggercore/tagger/super_tagger.py:151-157 | An ARN fails in the reduction iff it fails in some result. |
| Merging.ReduceLastMessageWins | taggercore/taggercore/tagger/super_tagger.py:151-157 | The failure message kept is the one of the last result that fails the ARN. |
| Merging.ReduceResultsAppend | taggercore/taggercore/tagger/super_tagger.py:151-157 | Reducing a concatenation is the merge of the two reductions. |
| SuperTagger.DestinationOf | taggercore/taggercore/tagger/super_tagger.py:72-78 | A resource goes to the service tagger iff its service is `iam`, and otherwise to a region tagger iff its region is non-empty. |
| SuperTagger.SplitResourcesForTaggers | taggercore/taggercore/tagger/super_tagger.py:65-80 | The three buckets together are as long as the input, and each holds only resources of its destination. The order within each bucket is stated by SplitKeepsOrder. |
| SuperTagger.SplitKeepsOrder | taggercore/taggercore/tagger/super_tagger.py:65-80 | Each bucket is the input filtered by that bucket's destination, so it keeps the input order. |
| SuperTagger.BucketIsFilter | taggercore/taggercore/tagger/super_tagger.py:65-80 | The list for any one destination is the input filtered by that destination, in input order. |
| SuperTagger.SplitIsPartition | taggercore/taggercore/tagger/super_tagger.py:65-80 | The three buckets together are a permutation of the input: each resource lands in exactly one. |
| SuperTagger.SplitRoutes | taggercore/taggercore/tagger/super_tagger.py:65-80 | A resource is in a bucket iff it is in the input and that bucket is its destination. |
| SuperTagger.InitServiceTaggers | taggercore/taggercore/tagger/super_tagger.py:82-91 | One IAM tagger per service group, built from that group's resources. |
| SuperTagger.InitRegionTaggers | taggercore/taggercore/tagger/super_tagger.py:93-100 | One region tagger per region group, scoped to that region, holding that group's resources. |
| SuperTagger.NewSuperTagger | taggercore/taggercore/tagger/super_tagger.py:53-63 | Construction fails exactly when no session can be opened, and keeps the resources and tags. |
| SuperTagger.RegionAndGlobalTaggers | taggercore/taggercore/tagger/super_tagger.py:93-103 | There is one region tagger per distinct region of the regional bucket, in order of the region's first occurrence, holding that region's resources in input order. There is exactly one global tagger, holding the global bucket even when it is empty. |
| SuperTagger.InitRegionTaggersGroup | taggercore/taggercore/tagger/super_tagger.py:93-100 | The region taggers built from the region grouping have distinct regions in order of first occurrence, non-empty lists in input order, and cover every region. |
| SuperTagger.TaggersFollowGroups | taggercore/taggercore/tagger/super_tagger.py:97-100 | Taggers built entry by entry from the grouping keep its first-occurrence order. |
| SuperTagger.TaggersFromGroups | taggercore/taggercore/tagger/super_tagger.py:93-100 | Taggers built entry by entry from a region grouping of the regional bucket hold each region's resources, are distinct, cover every region and keep first-occurrence order. |
| SuperTagger.IamArns | taggercore/taggercore/tagger/iam_tagger.py:57-61 | An IAM tagger reports on its users' ARNs and then its roles'. |
| SuperTagger.IamArnsHeld | taggercore/taggercore/tagger/iam_tagger.py:49-54 | A user's or role's ARN is among the IAM tagger's ARNs. |
| SuperTagger.GroupMember | taggercore/taggercore/tagger/super_tagger.py:82-100 | A resource lies in the group of its key, and a grouped resource comes from the input. |
| SuperTagger.RouteService | taggercore/taggercore/tagger/super_tagger.py:82-91 | An IAM user or role lands in some service tagger's users or roles, and a service tagger holds only input resources. |
| SuperTagger.IamTaggerHolds | taggercore/taggercore/tagger/iam_tagger.py:49-54 | An IAM tagger holds a resource as user or role exactly when its group has it with that type. |
| SuperTagger.RouteRegional | taggercore/taggercore/tagger/super_tagger.py:93-100 | A regional resource lands in the region tagger of its own region, and region taggers hold only input resources. |
| SuperTagger.RouteGlobal | taggercore/taggercore/tagger/super_tagger.py:102-103 | A global resource lands in the global tagger, which holds only input resources. |
| SuperTagger.NewSuperTaggerRoutes | taggercore/taggercore/tagger/super_tagger.py:53-103 | The constructor routes every resource to the tagger its destination names, and the taggers hold nothing else. |
| SuperTagger.BulkReports | taggercore/taggercore/tagger/abstract_resource_group_api_tagger.py:74-82 | A bulk tagger's results report every one of its ARNs and succeed only with them. |
| SuperTagger.IamReports | taggercore/taggercore/tagger/iam_tagger.py:57-61 | The IAM tagger's two results report its users' and roles' ARNs. |
| SuperTagger.ReduceReports | taggercore/taggercore/tagger/super_tagger.py:139-157 | Reducing results that report their lists succeeds, and reports every listed ARN and only listed ARNs as successes. |
| SuperTagger.TagRegionTaggers | taggercore/taggercore/tagger/super_tagger.py:117-120 | The loop over the region taggers. On success there is one result list per tagger, and together they are a complete run: tagger i's `tag_all`, started from the calls tagger i-1 left (the first from the given calls), gave result list i, and the last left the calls returned. On failure the run stopped at some tagger k: the taggers before it ran in turn and tagger k's error is the error. |
| SuperTagger.TagRegionTaggersReports | taggercore/taggercore/tagger/super_tagger.py:117-120 | Every region tagger's result list reports that tagger's ARNs, and the calls made before the run are kept. |
| SuperTagger.TagRegions | taggercore/taggercore/tagger/super_tagger.py:117-121 | With no region tagger the result is `([], {})`. On success the result is exactly the reduction of the result lists of a complete run of the region taggers in order (and `Runs.RunOutcomeUnique` makes that run the only one); on failure the run stopped at some tagger with that error. |
| SuperTagger.TagRegionsReports | taggercore/taggercore/tagger/super_tagger.py:117-121 | Every ARN of every region tagger is reported, only those ARNs succeed, and earlier calls are kept. |
| SuperTagger.NonRegionalReports | taggercore/taggercore/tagger/super_tagger.py:123-129 | The service taggers' results followed by the global tagger's reduce to a result reporting every non-regional ARN and succeeding only with them. |
| SuperTagger.TagNonRegional | taggercore/taggercore/tagger/super_tagger.py:123-129 | Each service tagger, then the global tagger. On success the result is the reduction of the service taggers' results, in tagger order, followed by the global tagger's results. Each service result is that tagger's run, accounted for by the answers to its own IAM calls. Every non-regional ARN is reported, only those succeed, and earlier calls are kept. |
| SuperTagger.TagService | taggercore/taggercore/tagger/super_tagger.py:123-126 | One service tagger's results report its ARNs and are accounted for by the answers to the IAM calls it made. |
| SuperTagger.BulkArnsHeld | taggercore/taggercore/tagger/abstract_resource_group_api_tagger.py:62-64 | A held resource's ARN is among the tagger's ARNs. |
| SuperTagger.BulkArnResource | taggercore/taggercore/tagger/abstract_resource_group_api_tagger.py:62-64 | Every ARN of a bulk tagger belongs to one of its resources. |
| SuperTagger.IamArnResource | taggercore/taggercore/tagger/iam_tagger.py:49-54 | Every ARN of an IAM tagger belongs to one of its users or roles. |
| SuperTagger.ResourceReported | taggercore/taggercore/tagger/super_tagger.py:131-137 | Every routed resource a tagger handles is a success or a failure key of the merged result. |
| SuperTagger.SuccessIsResource | taggercore/taggercore/tagger/super_tagger.py:131-137 | Every success of the merged result is the ARN of an input resource. |
| SuperTagger.TagAll | taggercore/taggercore/tagger/super_tagger.py:131-137 | Regions are tagged first, and a regional error is the result before any non-regional call. The result merges the non-regional result (the reduction of the service taggers' runs followed by the global tagger's results) with the regional one. Every reportable resource is reported and only input ARNs succeed. |
| SuperTagger.NonRegionalThenRegional | taggercore/taggercore/tagger/super_tagger.py:131-137 | In that merge the successes are the non-regional results' successes in order, then the regional ones. An ARN fails iff a non-regional result or the regional result lists it, and the regional message wins. |
| Runs.RanAllCons | taggercore/taggercore/tagger/super_tagger.py:119-120 | After a successful first tagger, a complete run of the rest from the calls it left is a complete run of all of them, ending where the rest ended. |
| Runs.StoppedCons | taggercore/taggercore/tagger/super_tagger.py:119-120 | After a successful first tagger, a stop among the rest is a stop of the whole run with the same error. |
| Runs.RanDetermined | taggercore/taggercore/tagger/super_tagger.py:119-120 | Two runs of the same taggers from the same calls agree on every result and every intermediate call log. |
| Runs.RunOutcomeUnique | taggercore/taggercore/tagger/super_tagger.py:119-120 | From given calls the taggers either all run, with exactly one outcome, or stop with exactly one error; never both. |
| Ordering.StrLeTotal | taggercore/taggercore/scanner/util.py:41 | Python's string comparison used as the sort key is total. |
| Ordering.StrLeTransitive | taggercore/taggercore/scanner/util.py:41 | … and transitive. |
| Ordering.StrLeAntisymmetric | taggercore/taggercore/scanner/util.py:41 | … and antisymmetric. |
| Ordering.ServiceOrderExample | taggercore/taggercore/scanner/util.py:41 | `ec2` sorts before `iam`, and a prefix before its extension. |
| Scanner.CreateResource | taggercore/taggercore/scanner/util.py:29-37 | A scanned item becomes the resource with its arn, id and type. There is one `Tag(key, value)` per tag entry, in order. It fails exactly when the ARN is too short. |
| Scanner.SortKeyTotal | taggercore/taggercore/scanner/util.py:41 | The (service, type) key order is total, and mutual ≤ means an equal key. |
| Scanner.SortKeyTransitive | taggercore/taggercore/scanner/util.py:41 | The (service, type) key order is transitive. |
| Scanner.Insert | taggercore/taggercore/scanner/util.py:41 | Inserting adds exactly the one resource. |
| Scanner.InsertSorted | taggercore/taggercore/scanner/util.py:41 | Inserting into a sorted list keeps it sorted. |
| Scanner.InsertStable | taggercore/taggercore/scanner/util.py:41 | Insertion puts the new resource after every resource with the same key. |
| Scanner.SortResources | taggercore/taggercore/scanner/util.py:40-41 | The sorted list is a permutation of the input. |
| Scanner.SortResourcesSpec | taggercore/taggercore/scanner/util.py:40-41 | The output is sorted by (service, type). For every key it lists the input's resources with that key in input order: the sort is stable. |
| Scanner.CreateAll | taggercore/taggercore/scanner/global_scanner.py:44-48 | All items convert iff each does, one resource per item in order. |
| Scanner.Included | taggercore/taggercore/scanner/global_scanner.py:44-48 | The kept items are exactly the scanned items whose type is not excluded. |
| Scanner.ScanItems | taggercore/taggercore/scanner/global_scanner.py:40-50 | A scan fails exactly when an included item has a malformed ARN. Otherwise it holds exactly the resources created from the included items, sorted, keeping scan order within each (service, type) key, and none of an excluded type. |
| Scanner.RegionItems | taggercore/taggercore/scanner/region_scanner.py:62-78 | The regional scan covers the services other than the global ones, each at its regional URI. |
| Scanner.RegionScan | taggercore/taggercore/scanner/region_scanner.py:48-60 | A region scan is sorted, excludes the given types and rewrites every ARN by its service's strategy. |
| Scanner.GlobalScan | taggercore/taggercore/scanner/global_scanner.py:34-50 | The global scan of route53, cloudfront and iam fails exactly when an included item has a malformed ARN. Otherwise it holds exactly the resources created from the included items, sorted and stable per key, without excluded types. |
| Scanner.PairWithDiffs | taggercore/taggercore/usecase/scan_and_compare.py:45-50 | One entry per resource, in order, carrying that resource's diffs against the tags. |
| Scanner.PairWithDiffsSpec | taggercore/taggercore/usecase/scan_and_compare.py:45-50 | An entry is properly tagged iff every desired tag is among its resource's current tags. |
| Scanner.PairConcatenation | taggercore/taggercore/usecase/scan_and_compare.py:42-50 | Pairing regional + global keeps the regional resources first and then the global ones, in scan order. |
| Scanner.ScanAndCompare | taggercore/taggercore/usecase/scan_and_compare.py:42-50 | Succeeds iff both the regional and the global scan succeed, and is then the regional resources followed by the global ones, each paired with its diffs against the tags. |
| Scanner.ScanAndCompareSpec | taggercore/taggercore/usecase/scan_and_compare.py:42-50 | The entries are the regional scan then the global scan, length \|regional\| + \|global\|. Neither part holds an excluded type (the unsupported and untaggable regional types, and the untaggable global ones). Each entry carries its diffs. |
| Scanner.PairedScans | taggercore/taggercore/usecase/scan_and_compare.py:42-50 | Pairing two scans, each free of its excluded types, keeps both properties entry by entry. |
| Report.Runs | taggercli/taggercli/commands/report.py:90-93 | `groupby` yields no run only for no input, at most one run per element, and the last run has the last element's key. |
| Report.RunsConcat | taggercli/taggercli/commands/report.py:90-93 | The runs concatenate back to the input. |
| Report.RunsWellFormed | taggercli/taggercli/commands/report.py:90-93 | Every run is non-empty and all its elements carry its key. |
| Report.RunsMaximal | taggercli/taggercli/commands/report.py:90-93 | Adjacent runs have different keys. |
| Report.Put | taggercli/taggercli/commands/report.py:90-93 | `d[k] = v` on an insertion-ordered dict. Its contract: an existing key keeps the number of entries, a new key is appended last with its value; `Report.PutSpec` states the overwrite in place. |
| Report.PutSpec | taggercli/taggercli/commands/report.py:90-93 | Writing a key into the dict keeps keys distinct, overwrites that key's value in place and leaves the other entries alone. |
| Report.DictOfRuns | taggercli/taggercli/commands/report.py:90-93 | The dict comprehension over `groupby` runs. `Report.DictOfRunsDistinct`, `Report.DictOfRunsKeys` and `Report.LaterRunOverwrites` state it: distinct keys, every run's key present, a later run with the same key overwriting the earlier one. |
| Report.DictOfDistinctRuns | taggercli/taggercli/commands/report.py:90-93 | Runs with distinct keys are written into the dict unchanged. |
| Report.DictOfRunsDistinct | taggercli/taggercli/commands/report.py:90-93 | The dict comprehension yields distinct keys. |
| Report.DictOfRunsKeys | taggercli/taggercli/commands/report.py:90-93 | Every run's key is a key of the dict. |
| Report.DictCoversElements | taggercli/taggercli/commands/report.py:90-93 | Every resource's service is a key of the dict. |
| Report.DictOfRunsNonEmpty | taggercli/taggercli/commands/report.py:90-93 | Every service's list in the dict is non-empty. |
| Report.ContiguousRunsAreGroups | taggercli/taggercli/commands/report.py:90-93 | For input contiguous by service, the runs are the grouping by service in first-appearance order. |
| Report.ContiguousDictIsGrouping | taggercli/taggercli/commands/report.py:90-93 | For input contiguous by service, each service maps to all its resources in order. |
| Report.LaterRunOverwrites | taggercli/taggercli/commands/report.py:90-93 | A service in two non-adjacent runs keeps only the later run; the key stays at its first position. |
| Report.CountProperlyTagged | taggercli/taggercli/commands/report.py:112-115 | The properly tagged count never exceeds the number of resources. |
| Report.CountProperlyTaggedSpec | taggercli/taggercli/commands/report.py:112-115 | The count equals the number of resources iff all are properly tagged, and is 0 iff none is. |
| Report.MetricsByService | taggercli/taggercli/commands/report.py:106-122 | The metrics fail (division by zero) iff some service has no resources. Otherwise there is one entry per service, with its number of resources and properly tagged count. |
| Report.PrepareDashboard | taggercli/taggercli/commands/report.py:85-103 | `prepare_data_for_dashboard_template` without the timestamp. `Report.PrepareDashboardSpec` states it: it never fails, services are distinct and cover every resource, one metric per service. |
| Report.PrepareDashboardSpec | taggercli/taggercli/commands/report.py:85-103 | The dashboard data is always computable. Its services are distinct, non-empty and cover every resource. There is one metric per service, with the properly tagged count bounded by the list length. |
| Report.SortedDashboardGroupsByService | taggercli/taggercli/commands/report.py:90-97 | For input contiguous by service, the dashboard groups are exactly the grouping by service. |
| Text.Find | taggercore/taggercore/manipulation/s3_arn_manipulation_strategy.py:30-31 | `str.find` gives the first match, or -1 exactly when there is none. |
| Text.Split | taggercli/taggercli/commands/config.py:57 | `str.split` with a non-empty separator. Its contract: at least one part; `Text.JoinSplit` and `Text.SplitPiecesAreFree` state that the parts join back to the input and none holds the separator. |
| Text.JoinSplit | taggercli/taggercli/commands/config.py:57 | `str.split` loses nothing: joining the parts with the separator gives back the input. |
| Text.SplitPiecesAreFree | taggercli/taggercli/commands/config.py:57 | No part of a split contains the separator. |
| Text.SplitJoinChar | taggercli/taggercli/commands/config.py:57 | Splitting a join of separator-free parts on a one-character separator gives the parts back. |
| Text.Strip | taggercli/taggercli/commands/config.py:51-52 | `remove_whitespace`. Its contract: the result has no whitespace at either end; `Text.StripPadded` and `Text.StripIdempotent` state that only the padding goes and stripping twice changes nothing. |
| Text.TrimStart | taggercli/taggercli/commands/config.py:51-52 | `lstrip` removes exactly the leading whitespace. |
| Text.TrimEnd | taggercli/taggercli/commands/config.py:51-52 | `rstrip` removes exactly the trailing whitespace. |
| Text.StripPadded | taggercli/taggercli/commands/config.py:51-52 | Stripping whitespace padding around a trimmed text gives the text back. |
| Text.StripIdempotent | taggercli/taggercli/commands/config.py:51-52 | `remove_whitespace` is idempotent. |
| Text.Upper | taggerlambda/src/tagging_lambda.py:68-69 | Upper-casing maps each character by itself and keeps the length. |
| Text.UpperIdempotent | taggerlambda/src/tagging_lambda.py:68-69 | Upper-casing twice is upper-casing once. |
| TagParsing.ParsePair | taggercli/taggercli/commands/config.py:60-65 | A malformed segment yields IllegalInput carrying that segment. |
| TagParsing.ParsePairSpec | taggercli/taggercli/commands/config.py:60-61 | A parsed pair re-joins with `=` to the segment, and neither key nor value contains `=`. |
| TagParsing.ParsePairOfTag | taggercli/taggercli/commands/config.py:60-61 | `key=value` with no further `=` parses to exactly that tag. |
| TagParsing.ParsePairNeedsOneEquals | taggercli/taggercli/commands/config.py:60-65 | A segment parses only if it has exactly one `=`. |
| TagParsing.ParseTag | taggercli/taggercli/commands/config.py:59-65 | Parsing one segment. `TagParsing.ParseTagSpec` and `TagParsing.RejectedSegment` state it: a segment gives `Tag(key, value)` iff its stripped form is `key=value` with exactly one `=`, and otherwise the ValueError becomes the format error. |
| TagParsing.ParseTagSpec | taggercli/taggercli/commands/config.py:59-61 | A segment parses to `Tag(key, value)` iff its stripped form is `key=value` with no other `=`. |
| TagParsing.ParseTagOfPair | taggercli/taggercli/commands/config.py:59-61 | Whitespace around a segment is dropped; whitespace inside, around `=`, is kept. |
| TagParsing.EmptyPartsAccepted | taggercli/taggercli/commands/config.py:60-61 | `=` parses to a tag with empty key and value. |
| TagParsing.StripAll | taggercli/taggercli/commands/config.py:59 | Every segment is stripped, one result per segment. |
| TagParsing.ParsePieces | taggercli/taggercli/commands/config.py:57-66 | The segments parse iff each does. The tags come one per segment in order; otherwise the error of a failing segment. |
| TagParsing.ParseTags | taggercli/taggercli/commands/config.py:55-66 | A successful parse gives one tag per `,`-separated segment. |
| TagParsing.ParseTagsSegments | taggercli/taggercli/commands/config.py:55-66 | The input parses iff every segment does, and tag i is segment i's tag. |
| TagParsing.EmptyInputRejected | taggercli/taggercli/commands/config.py:57-65 | Empty input is rejected: it is one segment without `=`. |
| TagParsing.SpaceSeparatedTagsRejected | taggercli/test/commands/test_config_command.py:58-66 | `Owner=Fritz Project=CRM`-shaped input, with tags separated by a space, is rejected. |
| TagParsing.RejectedSegment | taggercli/taggercli/commands/config.py:59-65 | A single segment with two `=` is rejected. |
| TagParsing.SingleSegment | taggercli/taggercli/commands/config.py:57 | Input without `,` is one segment. |
| TagParsing.Segments | taggercli/taggercli/commands/config.py:55-66 | The formatted segments are `key=value`, one per tag, with a space before every segment but the first. |
| TagParsing.ParseFormatRoundTrip | taggercli/taggercli/commands/config.py:55-66 | Joining `key=value` with `, ` parses back to the same tags, when no key or value holds `,` or `=`, no key starts with whitespace and no value ends with it. |
| TagParsing.OwnerProjectFormat | taggercli/test/commands/test_config_command.py:35-56 | The two test tags format as `Owner=Fritz, Project=CRM`. |
| TagParsing.OwnerProjectExample | taggercli/test/commands/test_config_command.py:35-56 | `Owner=Fritz, Project=CRM` parses to `[Tag(Owner, Fritz), Tag(Project, CRM)]`. |
| TaggingLambda.FetchLambdaEnvConfig | taggerlambda/src/tagging_lambda.py:62-71 | The configuration exists iff ACCOUNT_ID, ACCOUNT_ROLE and REGION are set. A missing one is reported. The required values are copied, and the two switches come out upper-case. |
| TaggingLambda.EnvConfigDefaults | taggerlambda/src/tagging_lambda.py:62-71 | Unset variables default: ORGA_ROLE and TAGS to `""`, TAG_GLOBAL_RES to `TRUE`, TAG_MODE to `ACCOUNT`. |
| TaggingLambda.EnvConfigGiven | taggerlambda/src/tagging_lambda.py:62-71 | Set variables are taken as given, with TAG_GLOBAL_RES and TAG_MODE upper-cased. |
| TaggingLambda.CredentialsForRole | taggerlambda/src/tagging_lambda.py:88-107 | An empty role fails with ConfigurationError naming the variable. Otherwise the credentials are for that role under `<variable>_SESSION`. |
| TaggingLambda.FetchTagsForAccount | taggerlambda/src/tagging_lambda.py:110-123 | One tag per organization tag entry, in order. A ClientError of the lookup is re-raised, and the tags are fetched iff the lookup answers. |
| TaggingLambda.FetchTagsFromEnv | taggerlambda/src/tagging_lambda.py:126-137 | TAGS uses the `config` grammar: the same tags, or ConfigurationError exactly when that parse fails. |
| TaggingLambda.FetchTags | taggerlambda/src/tagging_lambda.py:74-85 | ACCOUNT mode asks the organization with the ORGA_ROLE credentials. It fails iff the role is empty or the lookup raises; an empty role fails first, otherwise the lookup's error is re-raised. ENV parses TAGS. Any other mode gives no tags. |
| TaggingLambda.EmptyRoleFailsFirst | taggerlambda/test/test_lambda.py:233-237 | With an empty ORGA_ROLE the error comes before any organizations lookup: the answer is the same whatever the organization holds. |
| TaggingLambda.MissingTagsRejected | taggerlambda/test/test_lambda.py:182-184 | In ENV mode a missing TAGS defaults to `""`, which is rejected. |
| TaggingLambda.ScanRegion | taggerlambda/src/tagging_lambda.py:53 | The regional scan excludes the unsupported and untaggable regional types. |
| TaggingLambda.ScanGlobal | taggerlambda/src/tagging_lambda.py:54-55 | The global scan excludes the untaggable global types. |
| TaggingLambda.PrepareTagging | taggerlambda/src/tagging_lambda.py:41-58 | A failed tag fetch is the handler's error. Otherwise the tagging input carries the fetched tags, the account id and credentials for ACCOUNT_ROLE, and an empty ACCOUNT_ROLE fails once the tags are fetched. |
| TaggingLambda.PrepareGlobalSwitch | taggerlambda/src/tagging_lambda.py:53-58 | The resources are the regional scan followed by the global scan when TAG_GLOBAL_RES is `TRUE`, and the regional scan alone otherwise. |
| TaggingLambda.LambdaHandler | taggerlambda/src/tagging_lambda.py:40-58 | A missing required variable stops the handler with that error; otherwise it prepares the tagging input from the configuration. |
| TaggingLambda.HandlerTagsGlobal | taggerlambda/src/tagging_lambda.py:54-58 | With TAG_GLOBAL_RES unset or any casing of `true`, the input is the regional resources followed by the global ones. |
| TaggingLambda.HandlerSkipsGlobal | taggerlambda/src/tagging_lambda.py:54-58 | With TAG_GLOBAL_RES set to anything else, the input is the regional resources alone. |
| TaggingLambda.EmptyAccountRoleFails | taggerlambda/src/tagging_lambda.py:43-45 | An empty ACCOUNT_ROLE makes the handler fail. |
| TaggingLambda.OrganizationsErrorStopsPreparation | taggerlambda/src/tagging_lambda.py:38-43 | In ACCOUNT mode with a nonempty organizations role, a ClientError of the tag lookup is the error of the whole preparation, whatever the scans would give. |
| TaggingLambda.OrganizationsErrorStopsHandler | taggerlambda/test/test_lambda.py:251-271 | In ACCOUNT mode with an organizations role, a ClientError of the tag lookup stops the handler with that error, whatever the scans would give. |

## Left out

- boto3, STS, organizations and the Resource Groups Tagging API. The clients are not modelled. The tagging API and the IAM client are functions from the call history and the request to a response, and the organizations lookup and STS are parameters. `time.sleep(30)` before a throttle retry has no observable effect here.
- skew. The scan results (`skew.scan` per service URI, and `arn.service.choices()`) are a `Skew` function and a list of services given as parameters.
- ResourceGroupTagger.TagArnList: the source retries a throttled list without bound. The model retries while a `fuel` argument lasts and then stops with `ThrottleRetriesExhausted`. The same fuel bounds every list of a run.
- ResourceGroupTagger.TagArnList: in the source the failure dict a result holds is the tagger's own accumulated dict, which a later invalid-parameter retry of the same run mutates in place (abstract_resource_group_api_tagger.py:110). The model gives each result an immutable snapshot of the map when it is built.
- ResourceGroupTagger.TagArnList: the source records a rejected ARN with the InvalidParameterException object itself (abstract_resource_group_api_tagger.py:110), while response failures are `ErrorMessage` strings. The model records the exception's text, the string `str(exception)` the source parses, so a failure map holds strings only.
- ResourceGroupTagger.RemoveFirst: its own contract gives the length and the multiset; that the first occurrence is the one dropped and the rest keep their order is stated for all inputs by ResourceGroupTagger.RemoveFirstKeepsOrder, kept out of the function's contract because every caller would then carry that sequence-slicing fact into its own proof.
- ResourceGroupTagger.TagArnList: its own contract states soundness and the origin of failures; that the result is the list's non-failed ARNs in list order is stated for all inputs by ResourceGroupTagger.TagArnListInOrder, kept out of the function's contract for the same reason of proof size.
- ResourceGroupTagger.ResultFor: its own contract states which ARNs succeed; the list order of the successes is stated by ResultForInOrder, kept out of the function's contract so that the proofs unfolding every list outcome stay small.
- SuperTagger.SplitResourcesForTaggers: its own contract states lengths and destinations; that each bucket is the input filtered by its destination, in input order, is stated by SplitKeepsOrder, kept apart for the same reason.
- ResourceGroupTagger.TagArnList: when the invalid-parameter message has no `operation: `, or names an ARN not in the list, the source raises IndexError or ValueError out of `tag_all`. The model returns the matching `TagError`.
- IamTagger.TagEach: an exception other than ClientError propagates in the source. The model stops with `UnexpectedIamError` for that resource, and the partial result is lost as in the source.
- ArnManipulation.StrategyForService: the source of `NoArnManipulationStrategy` is not part of this model; it is assumed to return the ARN unchanged.
- Merging.ReduceToSingleResult: `functools.reduce` of a non-empty outer list of empty lists raises TypeError. The model returns `ReduceOfEmptySequence`.
- Report.MetricsByService: the float ratio `properly / number` is kept as the two counts. An empty list would divide by zero; the model returns `DivisionByZero`, and PrepareDashboardSpec shows it cannot happen for groupby's runs.
- Text.Strip: Python's `lstrip`/`rstrip` strip the Unicode whitespace set. The model strips ASCII whitespace (space, tab, newline, carriage return, vertical tab, form feed).
- Text.Upper: `str.upper` is modelled on ASCII letters only; other characters are left unchanged.
- TagParsing.ParseFormatRoundTrip: an empty tag list formats to `""`, which does not parse back (it is one segment without `=`), so the round trip needs at least one tag.
- The global configuration singletons (taggercore/taggercore/config/config.py, taggercli/taggercli/config/config.py) are replaced by explicit `credentials` and `profile` parameters.
- TaggingLambda.LambdaHandler: `set_config`, `perform_tagging` and `log_tagging_result` are not modelled. The handler stops at the tagging input it would pass to `perform_tagging`, and the SuperTagger models the tagging itself.
- The `region` setter of a resource (taggercore/taggercore/model/resource.py:74-76) is not modelled; no operation of the core calls it.
- TaggingLambda.CredentialsForRole: the STS `assume_role` answer and its ClientError are not modelled. Credentials are identified by role and session name.
- The `Tag(None, None)` placeholder that compare_tags puts in place of a missing old or new tag is `None` of an `Option<Tag>` in the model. Of a resource's `kwargs`, only `name` is kept.
- The CLI (typer prompts, console output, `tag.py`, `create_config_file`, `read_config_file`), the Jinja dashboard rendering, `strftime`, file writes and logging are output only.
- taggerlambda/src/lambda.py is an older copy of the lambda that reads the environment at import time; it is not part of this model.
- The usecase wrappers `perform_tagging` and `scan` only wire the scanner and the SuperTagger together under the global configuration; they are not modelled separately.
