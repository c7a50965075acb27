/**
 * IamTagger: IAM users and roles cannot be tagged through the Resource
 * Groups Tagging API, so each one is tagged with its own IAM call. A client
 * error marks that resource as failed; any other exception ends the run.
 */
module IamTagger {
  import opened Results
  import opened Seqs
  import opened Model
  import opened Resources
  import opened Sessions

  const UserType: string := "user"
  const RoleType: string := "role"

  /** `tag_user(UserName=..., Tags=...)` or `tag_role(RoleName=..., Tags=...)`. */
  datatype IamCall = TagUser(userName: Option<string>, tags: seq<Tag>) | TagRole(roleName: Option<string>, tags: seq<Tag>)

  /** What one IAM call comes back with; `message` is the error response's message. */
  datatype IamResponse = IamOk | IamClientError(message: string) | IamUnexpected

  /** The IAM client: the answer to a call, given every call made before it. */
  type IamApi = (seq<IamCall>, IamCall) -> IamResponse

  /** An exception other than ClientError escaped while tagging this ARN. */
  datatype IamError = UnexpectedIamError(arn: string)

  datatype IamKind = Users | Roles

  /** The call that tags one resource of the given kind by its `name`. */
  function CallFor(kind: IamKind, resource: Resource, tags: seq<Tag>): IamCall {
    match kind
    case Users => TagUser(resource.name, tags)
    case Roles => TagRole(resource.name, tags)
  }

  /** The answer the client gave to the call at index `from + i`, the `i`-th call made from `from` on. */
  function Answer(api: IamApi, calls: seq<IamCall>, from: nat, i: nat): IamResponse
    requires from + i < |calls|
  {
    api(calls[..from + i], calls[from + i])
  }

  /** The client's answers to the calls made from `from` on, in order. */
  function AnswersFrom(api: IamApi, calls: seq<IamCall>, from: nat): (answers: seq<IamResponse>)
    requires from <= |calls|
    ensures |answers| == |calls| - from
    ensures forall i :: 0 <= i < |answers| ==> answers[i] == Answer(api, calls, from, i)
  {
    seq(|calls| - from, i requires 0 <= i < |calls| - from => Answer(api, calls, from, i))
  }

  /** The ARNs of the resources whose call succeeded, in call order. */
  function OkArns(resources: seq<Resource>, answers: seq<IamResponse>): seq<string>
    requires |answers| <= |resources|
  {
    if |answers| == 0 then []
    else OkArns(resources, answers[..|answers| - 1]) +
         (if answers[|answers| - 1].IamOk? then [resources[|answers| - 1].arn] else [])
  }

  /**
   * The result after the calls for the first `|answers|` resources: the
   * successes are exactly the ARNs whose call succeeded, in order; the
   * failures are exactly the ARNs whose call got a client error, each with
   * the message of its last failure.
   */
  ghost predicate Accounted(resources: seq<Resource>, answers: seq<IamResponse>, result: TaggingResult)
    requires |answers| <= |resources|
  {
    OksAccounted(resources, answers, result.successfulArns) && FailuresAccounted(resources, answers, result.failedArns)
  }

  /** The successes are exactly the ARNs whose call succeeded, in order. */
  ghost predicate OksAccounted(resources: seq<Resource>, answers: seq<IamResponse>, successes: seq<string>)
    requires |answers| <= |resources|
  {
    && successes == OkArns(resources, answers)
    && (forall i :: 0 <= i < |answers| && answers[i].IamOk? ==> resources[i].arn in successes)
    && (forall a :: a in successes ==>
          exists i :: 0 <= i < |answers| && resources[i].arn == a && answers[i].IamOk?)
  }

  /** The failures are exactly the ARNs whose call got a client error, each with the message of its last failure. */
  ghost predicate FailuresAccounted(resources: seq<Resource>, answers: seq<IamResponse>, failed: map<string, string>)
    requires |answers| <= |resources|
  {
    && (forall i :: 0 <= i < |answers| && answers[i].IamClientError? ==> resources[i].arn in failed)
    && (forall i ::
          (&& 0 <= i < |answers|
           && answers[i].IamClientError?
           && (forall j :: i < j < |answers| ==> resources[j].arn != resources[i].arn))
          ==> failed[resources[i].arn] == answers[i].message)
    && (forall a :: a in failed ==>
          exists i :: 0 <= i < |answers| && resources[i].arn == a && answers[i].IamClientError?)
  }

  /** One more answer, a success: its ARN is appended to the successes. */
  lemma AccountedOk(resources: seq<Resource>, answers: seq<IamResponse>, result: TaggingResult)
    requires |answers| < |resources|
    requires Accounted(resources, answers, result)
    ensures Accounted(resources, answers + [IamOk],
                      result.(successfulArns := result.successfulArns + [resources[|answers|].arn]))
  {
    OksAfterOk(resources, answers, result.successfulArns);
    FailuresAfterOk(resources, answers, result.failedArns);
  }

  /** One more answer, a client error: the ARN is recorded with its message. */
  lemma AccountedClientError(resources: seq<Resource>, answers: seq<IamResponse>, result: TaggingResult, message: string)
    requires |answers| < |resources|
    requires Accounted(resources, answers, result)
    ensures Accounted(resources, answers + [IamClientError(message)],
                      result.(failedArns := result.failedArns[resources[|answers|].arn := message]))
  {
    OksAfterClientError(resources, answers, result.successfulArns, message);
    FailuresAfterClientError(resources, answers, result.failedArns, message);
  }

  /** A success appends its ARN to the successes. */
  lemma OksAfterOk(resources: seq<Resource>, answers: seq<IamResponse>, successes: seq<string>)
    requires |answers| < |resources|
    requires OksAccounted(resources, answers, successes)
    ensures OksAccounted(resources, answers + [IamOk], successes + [resources[|answers|].arn])
  {
    var after := answers + [IamOk];
    assert after[..|after| - 1] == answers;
    assert forall i :: 0 <= i < |answers| ==> after[i] == answers[i];
  }

  /** A success leaves the failures as they were. */
  lemma FailuresAfterOk(resources: seq<Resource>, answers: seq<IamResponse>, failed: map<string, string>)
    requires |answers| < |resources|
    requires FailuresAccounted(resources, answers, failed)
    ensures FailuresAccounted(resources, answers + [IamOk], failed)
  {
    var after := answers + [IamOk];
    assert forall i :: 0 <= i < |answers| ==> after[i] == answers[i];
  }

  /** A client error leaves the successes as they were. */
  lemma OksAfterClientError(resources: seq<Resource>, answers: seq<IamResponse>, successes: seq<string>, message: string)
    requires |answers| < |resources|
    requires OksAccounted(resources, answers, successes)
    ensures OksAccounted(resources, answers + [IamClientError(message)], successes)
  {
    var after := answers + [IamClientError(message)];
    assert after[..|after| - 1] == answers;
    assert forall i :: 0 <= i < |answers| ==> after[i] == answers[i];
  }

  /** A client error records its ARN with its message. */
  lemma FailuresAfterClientError(resources: seq<Resource>, answers: seq<IamResponse>, failed: map<string, string>, message: string)
    requires |answers| < |resources|
    requires FailuresAccounted(resources, answers, failed)
    ensures FailuresAccounted(resources, answers + [IamClientError(message)], failed[resources[|answers|].arn := message])
  {
    var after := answers + [IamClientError(message)];
    assert forall i :: 0 <= i < |answers| ==> after[i] == answers[i];
  }

  /** The calls made from `from` on tag the resources in order, and `answers` are the client's answers to them. */
  ghost predicate CallsAnswered(api: IamApi, kind: IamKind, resources: seq<Resource>, tags: seq<Tag>,
                                calls0: seq<IamCall>, calls: seq<IamCall>, answers: seq<IamResponse>)
  {
    && |answers| <= |resources|
    && |calls| == |calls0| + |answers|
    && calls[..|calls0|] == calls0
    && (forall i :: 0 <= i < |answers| ==> calls[|calls0| + i] == CallFor(kind, resources[i], tags))
    && (forall i :: 0 <= i < |answers| ==> answers[i] == Answer(api, calls, |calls0|, i))
  }

  /** One more call and its answer. */
  lemma CallsAnsweredStep(api: IamApi, kind: IamKind, resources: seq<Resource>, tags: seq<Tag>,
                          calls0: seq<IamCall>, calls: seq<IamCall>, answers: seq<IamResponse>)
    requires |answers| < |resources|
    requires CallsAnswered(api, kind, resources, tags, calls0, calls, answers)
    ensures var call := CallFor(kind, resources[|answers|], tags);
      CallsAnswered(api, kind, resources, tags, calls0, calls + [call], answers + [api(calls, call)])
  {
    var call := CallFor(kind, resources[|answers|], tags);
    var after := calls + [call];
    forall i | 0 <= i < |answers| ensures Answer(api, after, |calls0|, i) == Answer(api, calls, |calls0|, i) {
      assert after[..|calls0| + i] == calls[..|calls0| + i];
    }
    assert after[..|calls0| + |answers|] == calls;
    assert after[..|calls0|] == calls[..|calls0|];
  }

  /** A client that accepts every call. */
  ghost predicate AlwaysOk(api: IamApi) {
    forall calls, call :: api(calls, call) == IamOk
  }

  /** A result accounts for exactly these resources: each ARN is a success or a failure, and no other ARN appears. */
  ghost predicate Covers(resources: seq<Resource>, result: TaggingResult) {
    && (forall i :: 0 <= i < |resources| ==>
          resources[i].arn in result.successfulArns || resources[i].arn in result.failedArns)
    && (forall a :: a in result.successfulArns || a in result.failedArns ==>
          exists i :: 0 <= i < |resources| && resources[i].arn == a)
  }

  /** Answers to every resource, none unexpected: the result covers them. */
  lemma AccountedCovers(resources: seq<Resource>, answers: seq<IamResponse>, result: TaggingResult)
    requires |answers| == |resources|
    requires forall i :: 0 <= i < |answers| ==> !answers[i].IamUnexpected?
    requires Accounted(resources, answers, result)
    ensures Covers(resources, result)
  {
    forall i | 0 <= i < |resources|
      ensures resources[i].arn in result.successfulArns || resources[i].arn in result.failedArns
    {
      assert answers[i].IamOk? || answers[i].IamClientError?;
    }
  }

  /** Only successes: the result lists all the ARNs, in order, and no failure. */
  lemma {:induction false} AllOkAccounted(resources: seq<Resource>, answers: seq<IamResponse>, result: TaggingResult)
    requires |answers| == |resources|
    requires forall i :: 0 <= i < |answers| ==> answers[i].IamOk?
    requires Accounted(resources, answers, result)
    ensures result == AllTagged(resources)
  {
    OkArnsAllOk(resources, answers);
    assert result.failedArns.Keys == {};
    assert resources[..|answers|] == resources;
  }

  /** The ARNs of the resources, in order. */
  function ArnsOf(resources: seq<Resource>): (arns: seq<string>)
    ensures |arns| == |resources|
    ensures forall i :: 0 <= i < |resources| ==> arns[i] == resources[i].arn
  {
    if |resources| == 0 then [] else ArnsOf(resources[..|resources| - 1]) + [resources[|resources| - 1].arn]
  }

  /** The result of tagging every resource successfully. */
  function AllTagged(resources: seq<Resource>): TaggingResult {
    TaggingResult(ArnsOf(resources), map[])
  }

  lemma {:induction false} OkArnsAllOk(resources: seq<Resource>, answers: seq<IamResponse>)
    requires |answers| <= |resources|
    requires forall i :: 0 <= i < |answers| ==> answers[i].IamOk?
    ensures OkArns(resources, answers) == ArnsOf(resources[..|answers|])
  {
    if |answers| > 0 {
      var n := |answers|;
      OkArnsAllOk(resources, answers[..n - 1]);
      assert resources[..n][..n - 1] == resources[..n - 1];
    }
  }

  /**
   * `_tag_users` / `_tag_roles`: one call per resource, in order. An ARN
   * whose call succeeded is appended to the successes; one whose call got a
   * client error is recorded with the message, a later failure of the same
   * ARN overwriting an earlier one. Any other exception ends the run; the
   * answers received up to then are returned alongside.
   */
  method TagEach(api: IamApi, kind: IamKind, resources: seq<Resource>, tags: seq<Tag>, calls0: seq<IamCall>)
    returns (r: Result<TaggingResult, IamError>, calls: seq<IamCall>, answers: seq<IamResponse>)
    ensures CallsAnswered(api, kind, resources, tags, calls0, calls, answers)
    ensures forall i :: 0 <= i < |answers| - 1 ==> !answers[i].IamUnexpected?
    ensures r.Success? ==> |answers| == |resources| && (|answers| == 0 || !answers[|answers| - 1].IamUnexpected?)
    ensures r.Success? ==> Accounted(resources, answers, r.value)
    ensures r.Failure? ==>
      && |answers| > 0
      && answers[|answers| - 1].IamUnexpected?
      && r.error == UnexpectedIamError(resources[|answers| - 1].arn)
  {
    var result := TaggingResult([], map[]);
    calls := calls0;
    answers := [];
    while |answers| < |resources|
      invariant CallsAnswered(api, kind, resources, tags, calls0, calls, answers)
      invariant forall i :: 0 <= i < |answers| ==> !answers[i].IamUnexpected?
      invariant Accounted(resources, answers, result)
      decreases |resources| - |answers|
    {
      var k := |answers|;
      var call := CallFor(kind, resources[k], tags);
      var answer := api(calls, call);
      CallsAnsweredStep(api, kind, resources, tags, calls0, calls, answers);
      calls := calls + [call];
      if answer.IamUnexpected? {
        answers := answers + [answer];
        return Failure(UnexpectedIamError(resources[k].arn)), calls, answers;
      }
      match answer {
        case IamOk =>
          AccountedOk(resources, answers, result);
          result := result.(successfulArns := result.successfulArns + [resources[k].arn]);
        case IamClientError(message) =>
          AccountedClientError(resources, answers, result, message);
          result := result.(failedArns := result.failedArns[resources[k].arn := message]);
      }
      answers := answers + [answer];
    }
    r := Success(result);
  }

  /** An IamTagger: its session, and the users and the roles among its resources, in order. */
  datatype IamTaggerState = IamTaggerState(session: Session, resources: seq<Resource>, tags: seq<Tag>,
                                           users: seq<Resource>, roles: seq<Resource>)

  /** The test of `_filter_resources_by_type`: the resource has the given type. */
  function OfType(resourceType: string): Resource -> bool {
    (x: Resource) => x.resourceType == resourceType
  }

  /**
   * `IamTagger.__init__`, which opens the session first and fails exactly
   * when that does. The users are the resources of type `user` and the roles
   * those of type `role`, each in input order: the `k`-th user is the
   * resource at the `k`-th position holding a user.
   */
  function NewIamTagger(resources: seq<Resource>, tags: seq<Tag>,
                        credentials: Option<map<string, string>>, profile: Option<string>)
    : (r: Result<IamTaggerState, ConfigError>)
    ensures r.Failure? <==> !HasCredentials(credentials) && !HasProfile(profile)
    ensures r.Success? ==> r.value.resources == resources && r.value.tags == tags
    ensures r.Success? ==> forall i :: 0 <= i < |r.value.users| ==>
      r.value.users[i] in resources && r.value.users[i].resourceType == UserType
    ensures r.Success? ==> forall i :: 0 <= i < |resources| && resources[i].resourceType == UserType ==>
      resources[i] in r.value.users
    ensures r.Success? ==> forall i :: 0 <= i < |r.value.roles| ==>
      r.value.roles[i] in resources && r.value.roles[i].resourceType == RoleType
    ensures r.Success? ==> forall i :: 0 <= i < |resources| && resources[i].resourceType == RoleType ==>
      resources[i] in r.value.roles
    ensures r.Success? ==>
      && |r.value.users| == |Selected(resources, OfType(UserType))|
      && forall k :: 0 <= k < |r.value.users| ==> r.value.users[k] == resources[Selected(resources, OfType(UserType))[k]]
    ensures r.Success? ==>
      && |r.value.roles| == |Selected(resources, OfType(RoleType))|
      && forall k :: 0 <= k < |r.value.roles| ==> r.value.roles[k] == resources[Selected(resources, OfType(RoleType))[k]]
  {
    var session :- InitSession(credentials, profile);
    FilterInOrder(resources, OfType(UserType));
    FilterInOrder(resources, OfType(RoleType));
    Success(IamTaggerState(session, resources, tags, Filter(resources, OfType(UserType)), Filter(resources, OfType(RoleType))))
  }

  /** Under a client that accepts every call, every answer is a success. */
  lemma AlwaysOkAnswers(api: IamApi, kind: IamKind, resources: seq<Resource>, tags: seq<Tag>,
                        calls0: seq<IamCall>, calls: seq<IamCall>, answers: seq<IamResponse>)
    requires AlwaysOk(api)
    requires CallsAnswered(api, kind, resources, tags, calls0, calls, answers)
    ensures forall i :: 0 <= i < |answers| ==> answers[i].IamOk?
  {
  }

  /**
   * A successful `tag_resources` run of `tagger` that made exactly the calls
   * after `calls0` in `calls`: two results, the users' accounted for by the
   * answers to the user calls and the roles' by the answers to the role calls.
   */
  ghost predicate RunAccounted(tagger: IamTaggerState, api: IamApi, calls0: seq<IamCall>, calls: seq<IamCall>,
                               results: seq<TaggingResult>)
  {
    && |calls| == |calls0| + |tagger.users| + |tagger.roles|
    && calls[..|calls0|] == calls0
    && |results| == 2
    && Accounted(tagger.users, AnswersFrom(api, calls[..|calls0| + |tagger.users|], |calls0|), results[0])
    && Accounted(tagger.roles, AnswersFrom(api, calls, |calls0| + |tagger.users|), results[1])
  }

  /**
   * `tag_resources`: the users, then the roles; always two results, users
   * first. Resources of any other type are never sent.
   */
  method TagAll(tagger: IamTaggerState, api: IamApi, calls0: seq<IamCall>)
    returns (r: Result<seq<TaggingResult>, IamError>, calls: seq<IamCall>)
    ensures |calls0| <= |calls| <= |calls0| + |tagger.users| + |tagger.roles| && calls[..|calls0|] == calls0
    ensures forall i :: 0 <= i < |tagger.users| && |calls0| + i < |calls| ==>
      calls[|calls0| + i] == CallFor(Users, tagger.users[i], tagger.tags)
    ensures forall i :: 0 <= i < |tagger.roles| && |calls0| + |tagger.users| + i < |calls| ==>
      calls[|calls0| + |tagger.users| + i] == CallFor(Roles, tagger.roles[i], tagger.tags)
    ensures r.Success? ==> |calls| == |calls0| + |tagger.users| + |tagger.roles|
    ensures r.Success? ==> |r.value| == 2 && Covers(tagger.users, r.value[0]) && Covers(tagger.roles, r.value[1])
    ensures r.Success? ==>
      && Accounted(tagger.users, AnswersFrom(api, calls[..|calls0| + |tagger.users|], |calls0|), r.value[0])
      && Accounted(tagger.roles, AnswersFrom(api, calls, |calls0| + |tagger.users|), r.value[1])
    ensures AlwaysOk(api) ==>
      r == Success([AllTagged(tagger.users), AllTagged(tagger.roles)])
  {
    var users, afterUsers := TagCovered(api, Users, tagger.users, tagger.tags, calls0);
    if users.Failure? {
      return Failure(users.error), afterUsers;
    }
    var roles, afterRoles := TagCovered(api, Roles, tagger.roles, tagger.tags, afterUsers);
    CallsKept(calls0, afterUsers, afterRoles, Users, tagger.users, tagger.tags);
    assert afterRoles[..|afterUsers|] == afterUsers;
    calls := afterRoles;
    if roles.Failure? {
      return Failure(roles.error), calls;
    }
    BothAccounted(api, tagger, calls0, afterUsers, calls, users.value, roles.value);
    r := Success([users.value, roles.value]);
  }

  /** The users' result is accounted for by the user calls and the roles' result by the role calls. */
  lemma BothAccounted(api: IamApi, tagger: IamTaggerState, calls0: seq<IamCall>, afterUsers: seq<IamCall>, calls: seq<IamCall>,
                      users: TaggingResult, roles: TaggingResult)
    requires |afterUsers| == |calls0| + |tagger.users| && |calls| == |afterUsers| + |tagger.roles|
    requires calls[..|afterUsers|] == afterUsers
    requires Accounted(tagger.users, AnswersFrom(api, afterUsers, |calls0|), users)
    requires Accounted(tagger.roles, AnswersFrom(api, calls, |afterUsers|), roles)
    ensures Accounted(tagger.users, AnswersFrom(api, calls[..|calls0| + |tagger.users|], |calls0|), [users, roles][0])
    ensures Accounted(tagger.roles, AnswersFrom(api, calls, |calls0| + |tagger.users|), [users, roles][1])
  {
    AnswersKept(api, afterUsers, calls, |calls0|);
  }

  /** The answers to the calls from `from` on do not change when later calls are made. */
  lemma AnswersKept(api: IamApi, calls: seq<IamCall>, later: seq<IamCall>, from: nat)
    requires from <= |calls| <= |later| && later[..|calls|] == calls
    ensures AnswersFrom(api, later[..|calls|], from) == AnswersFrom(api, calls, from)
  {
  }

  /** The calls made for one kind, in order, answered in full on success, with every outcome covered. */
  predicate KindCalls(kind: IamKind, resources: seq<Resource>, tags: seq<Tag>, calls0: seq<IamCall>, calls: seq<IamCall>) {
    && |calls0| <= |calls| <= |calls0| + |resources|
    && calls[..|calls0|] == calls0
    && (forall i :: 0 <= i < |resources| && |calls0| + i < |calls| ==>
          calls[|calls0| + i] == CallFor(kind, resources[i], tags))
  }

  /**
   * `TagEach` without the answers, which the calls determine: the calls in
   * order; on success one per resource, the result accounted for by the
   * client's answers to them and covering the resources.
   */
  method TagCovered(api: IamApi, kind: IamKind, resources: seq<Resource>, tags: seq<Tag>, calls0: seq<IamCall>)
    returns (r: Result<TaggingResult, IamError>, calls: seq<IamCall>)
    ensures KindCalls(kind, resources, tags, calls0, calls)
    ensures r.Success? ==> |calls| == |calls0| + |resources| && Covers(resources, r.value)
    ensures r.Success? ==> Accounted(resources, AnswersFrom(api, calls, |calls0|), r.value)
    ensures AlwaysOk(api) ==> r == Success(AllTagged(resources))
  {
    var answers;
    r, calls, answers := TagEach(api, kind, resources, tags, calls0);
    assert answers == AnswersFrom(api, calls, |calls0|);
    if AlwaysOk(api) {
      AlwaysOkAnswers(api, kind, resources, tags, calls0, calls, answers);
    }
    if r.Success? {
      AccountedCovers(resources, answers, r.value);
      if AlwaysOk(api) {
        AllOkAccounted(resources, answers, r.value);
      }
    }
  }

  /** Appending a later run's calls keeps an earlier run's calls in place. */
  lemma CallsKept(calls0: seq<IamCall>, calls: seq<IamCall>, later: seq<IamCall>,
                  kind: IamKind, resources: seq<Resource>, tags: seq<Tag>)
    requires KindCalls(kind, resources, tags, calls0, calls)
    requires |calls| <= |later| && later[..|calls|] == calls
    ensures later[..|calls0|] == calls0
    ensures forall i :: 0 <= i < |resources| && |calls0| + i < |calls| ==>
      later[|calls0| + i] == CallFor(kind, resources[i], tags)
  {
    assert later[..|calls0|] == calls[..|calls0|];
    forall i | 0 <= i < |resources| && |calls0| + i < |calls|
      ensures later[|calls0| + i] == CallFor(kind, resources[i], tags)
    {
      assert later[|calls0| + i] == later[..|calls|][|calls0| + i];
    }
  }
}
