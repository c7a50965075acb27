/**
 * The tagging lambda's configuration and input assembly
 * (taggerlambda/src/tagging_lambda.py): environment defaults, the tag
 * source chosen by `TAG_MODE`, the empty-role check made before any role
 * is assumed, and the switch that adds the global scan.
 */
module TaggingLambda {
  import opened Results
  import opened Text
  import opened Model
  import opened Resources
  import opened TagParsing
  import Scanner
  import SuperTagger

  /** The process environment. */
  type Env = map<string, string>

  /** `os.environ.get(name, default)`. */
  function EnvGet(env: Env, name: string, default: string): string {
    if name in env then env[name] else default
  }

  datatype LambdaConfig = LambdaConfig(
    orgaRole: string, accountId: string, accountRole: string, region: string,
    tagGlobalRes: string, tagMode: string, tags: string)

  datatype LambdaError =
    | MissingVariable(name: string)   // KeyError from `os.environ[name]`
    | InvalidRole(variable: string)   // ConfigurationError: the role variable is empty
    | MalformedTags                   // ConfigurationError: `TAGS` is not `Key=Value, ...`
    | ScanFailed(cause: ResourceError)
    | OrganizationsFailed(accountId: string, message: string)   // ClientError from `list_tags_for_resource`, re-raised

  /** The required variables, in the order the config dictionary reads them. */
  const Required: seq<string> := ["ACCOUNT_ID", "ACCOUNT_ROLE", "REGION"]

  /** `fetch_lambda_env_config`: the first missing required variable raises, the others have defaults. */
  function FetchLambdaEnvConfig(env: Env): (r: Result<LambdaConfig, LambdaError>)
    ensures r.Failure? <==> !("ACCOUNT_ID" in env && "ACCOUNT_ROLE" in env && "REGION" in env)
    ensures r.Failure? ==> r.error.MissingVariable? && r.error.name in Required && r.error.name !in env
    ensures r.Success? ==>
      r.value.accountId == env["ACCOUNT_ID"] && r.value.accountRole == env["ACCOUNT_ROLE"] &&
      r.value.region == env["REGION"]
    ensures r.Success? ==> Upper(r.value.tagGlobalRes) == r.value.tagGlobalRes && Upper(r.value.tagMode) == r.value.tagMode
  {
    if "ACCOUNT_ID" !in env then Failure(MissingVariable("ACCOUNT_ID"))
    else if "ACCOUNT_ROLE" !in env then Failure(MissingVariable("ACCOUNT_ROLE"))
    else if "REGION" !in env then Failure(MissingVariable("REGION"))
    else
      UpperIdempotent(EnvGet(env, "TAG_GLOBAL_RES", "TRUE"));
      UpperIdempotent(EnvGet(env, "TAG_MODE", "ACCOUNT"));
      Success(LambdaConfig(
        EnvGet(env, "ORGA_ROLE", ""), env["ACCOUNT_ID"], env["ACCOUNT_ROLE"], env["REGION"],
        Upper(EnvGet(env, "TAG_GLOBAL_RES", "TRUE")), Upper(EnvGet(env, "TAG_MODE", "ACCOUNT")),
        EnvGet(env, "TAGS", "")))
  }

  lemma UpperTrue()
    ensures Upper("TRUE") == "TRUE"
  {
    assert Upper("TRUE")[0] == 'T' && Upper("TRUE")[1] == 'R' && Upper("TRUE")[2] == 'U' && Upper("TRUE")[3] == 'E';
  }

  lemma UpperAccount()
    ensures Upper("ACCOUNT") == "ACCOUNT"
  {
    var u := Upper("ACCOUNT");
    assert u[0] == 'A' && u[1] == 'C' && u[2] == 'C' && u[3] == 'O' && u[4] == 'U' && u[5] == 'N' && u[6] == 'T';
  }

  /** Unset optional variables take their defaults: no organizations role, global scan on, account tag mode, no tags. */
  lemma EnvConfigDefaults(env: Env)
    requires FetchLambdaEnvConfig(env).Success?
    ensures var c := FetchLambdaEnvConfig(env).value;
      && ("ORGA_ROLE" !in env ==> c.orgaRole == "")
      && ("TAG_GLOBAL_RES" !in env ==> c.tagGlobalRes == "TRUE")
      && ("TAG_MODE" !in env ==> c.tagMode == "ACCOUNT")
      && ("TAGS" !in env ==> c.tags == "")
  {
    UpperTrue();
    UpperAccount();
  }

  /** Set optional variables are taken as given, the two switches upper-cased. */
  lemma EnvConfigGiven(env: Env)
    requires FetchLambdaEnvConfig(env).Success?
    ensures var c := FetchLambdaEnvConfig(env).value;
      && ("ORGA_ROLE" in env ==> c.orgaRole == env["ORGA_ROLE"])
      && ("TAG_GLOBAL_RES" in env ==> c.tagGlobalRes == Upper(env["TAG_GLOBAL_RES"]))
      && ("TAG_MODE" in env ==> c.tagMode == Upper(env["TAG_MODE"]))
      && ("TAGS" in env ==> c.tags == env["TAGS"])
  {
  }

  /** The credentials STS issues for assuming `role` under `sessionName`. */
  datatype Credentials = Credentials(role: string, sessionName: string)

  /**
   * `get_iam_credentials_for_role`: an empty role is a configuration error
   * naming the variable, raised before STS is asked; otherwise the role is
   * assumed under the session `<variable>_SESSION`.
   */
  function CredentialsForRole(role: string, variable: string): (r: Result<Credentials, LambdaError>)
    ensures r.Failure? <==> role == ""
    ensures r.Failure? ==> r.error == InvalidRole(variable)
    ensures r.Success? ==> r.value.role == role && r.value.sessionName == variable + "_SESSION"
  {
    if role == "" then Failure(InvalidRole(variable)) else Success(Credentials(role, variable + "_SESSION"))
  }

  /**
   * The organizations service: the `(Key, Value)` tags it lists for an
   * account, given credentials, or the message of the ClientError it raises.
   */
  type Organizations = (Credentials, string) -> Result<seq<(string, string)>, string>

  /**
   * `fetch_tags_for_account`: one tag per listed pair, in order; a ClientError
   * of the lookup is re-raised.
   */
  function FetchTagsForAccount(orgs: Organizations, credentials: Credentials, accountId: string): (r: Result<seq<Tag>, LambdaError>)
    ensures r.Failure? <==> orgs(credentials, accountId).Failure?
    ensures r.Failure? ==> r.error == OrganizationsFailed(accountId, orgs(credentials, accountId).error)
    ensures r.Success? ==> |r.value| == |orgs(credentials, accountId).value|
    ensures r.Success? ==> forall i :: 0 <= i < |r.value| ==>
      r.value[i] == Tag(orgs(credentials, accountId).value[i].0, orgs(credentials, accountId).value[i].1)
  {
    match orgs(credentials, accountId)
    case Failure(message) => Failure(OrganizationsFailed(accountId, message))
    case Success(pairs) => Success(seq(|pairs|, i requires 0 <= i < |pairs| => Tag(pairs[i].0, pairs[i].1)))
  }

  /** `fetch_tags_from_env`: the `TAGS` variable in the `Key=Value, ...` grammar. */
  function FetchTagsFromEnv(config: LambdaConfig): (r: Result<seq<Tag>, LambdaError>)
    ensures r.Success? <==> ParseTags(config.tags).Success?
    ensures r.Success? ==> r.value == ParseTags(config.tags).value
    ensures r.Failure? ==> r.error == MalformedTags
  {
    match ParseTags(config.tags)
    case Success(tags) => Success(tags)
    case Failure(_) => Failure(MalformedTags)
  }

  /**
   * `fetch_tags`: `ACCOUNT` asks organizations under the organizations role,
   * `ENV` parses `TAGS`, any other mode gives no tags. In account mode an
   * empty role fails first; otherwise the lookup's ClientError is re-raised.
   */
  function FetchTags(config: LambdaConfig, orgs: Organizations): (r: Result<seq<Tag>, LambdaError>)
    ensures config.tagMode != "ACCOUNT" && config.tagMode != "ENV" ==> r == Success([])
    ensures config.tagMode == "ENV" ==> r == FetchTagsFromEnv(config)
    ensures config.tagMode == "ACCOUNT" ==>
      (r.Failure? <==> config.orgaRole == "" || orgs(OrgaCredentials(config), config.accountId).Failure?)
    ensures config.tagMode == "ACCOUNT" && config.orgaRole == "" ==> r == Failure(InvalidRole("ORGA_ROLE"))
    ensures config.tagMode == "ACCOUNT" && config.orgaRole != "" && r.Failure? ==>
      r.error == OrganizationsFailed(config.accountId, orgs(OrgaCredentials(config), config.accountId).error)
    ensures config.tagMode == "ACCOUNT" && config.orgaRole != "" ==>
      r == FetchTagsForAccount(orgs, OrgaCredentials(config), config.accountId)
  {
    if config.tagMode == "ACCOUNT" then
      var credentials :- CredentialsForRole(config.orgaRole, "ORGA_ROLE");
      FetchTagsForAccount(orgs, credentials, config.accountId)
    else if config.tagMode == "ENV" then FetchTagsFromEnv(config)
    else Success([])
  }

  /** The credentials account mode asks organizations with: the organizations role under `ORGA_ROLE_SESSION`. */
  function OrgaCredentials(config: LambdaConfig): Credentials {
    Credentials(config.orgaRole, "ORGA_ROLE" + "_SESSION")
  }

  /** The organizations session name, spelled out. */
  lemma OrgaSessionName()
    ensures "ORGA_ROLE" + "_SESSION" == "ORGA_ROLE_SESSION"
  {
  }

  /** An empty organizations role fails in account mode whatever organizations would answer. */
  lemma EmptyRoleFailsFirst(config: LambdaConfig, orgs1: Organizations, orgs2: Organizations)
    requires config.tagMode == "ACCOUNT" && config.orgaRole == ""
    ensures FetchTags(config, orgs1) == FetchTags(config, orgs2) == Failure(InvalidRole("ORGA_ROLE"))
  {
  }

  /** In `ENV` mode an unset `TAGS` is the empty string, which is rejected. */
  lemma MissingTagsRejected(env: Env, orgs: Organizations)
    requires FetchLambdaEnvConfig(env).Success?
    requires "TAGS" !in env && FetchLambdaEnvConfig(env).value.tagMode == "ENV"
    ensures FetchTags(FetchLambdaEnvConfig(env).value, orgs) == Failure(MalformedTags)
  {
    EmptyInputRejected();
  }

  /** `scan_region(region)`, its malformed ARN reported as a scan failure. */
  function ScanRegion(skew: Scanner.Skew, services: seq<string>, region: string): (r: Result<seq<Resource>, LambdaError>)
    ensures r.Success? <==> Scanner.RegionScan(skew, services, region, Scanner.RegionalExclusions).Success?
    ensures r.Success? ==> r.value == Scanner.RegionScan(skew, services, region, Scanner.RegionalExclusions).value
  {
    match Scanner.RegionScan(skew, services, region, Scanner.RegionalExclusions)
    case Success(resources) => Success(resources)
    case Failure(e) => Failure(ScanFailed(e))
  }

  /** `scan_global()`, its malformed ARN reported as a scan failure. */
  function ScanGlobal(skew: Scanner.Skew): (r: Result<seq<Resource>, LambdaError>)
    ensures r.Success? <==> Scanner.GlobalScan(skew, SuperTagger.GlobalResTypeNotTaggable).Success?
    ensures r.Success? ==> r.value == Scanner.GlobalScan(skew, SuperTagger.GlobalResTypeNotTaggable).value
  {
    match Scanner.GlobalScan(skew, SuperTagger.GlobalResTypeNotTaggable)
    case Success(resources) => Success(resources)
    case Failure(e) => Failure(ScanFailed(e))
  }

  /** What `lambda_handler` hands to `perform_tagging`, with the account credentials it installs. */
  datatype TaggingInput = TaggingInput(resources: seq<Resource>, tags: seq<Tag>, credentials: Credentials, accountId: string)

  /** The global resources the handler adds: a global scan only when the switch reads `TRUE`. */
  function GlobalResources(config: LambdaConfig, skew: Scanner.Skew): Result<seq<Resource>, LambdaError> {
    if config.tagGlobalRes == "TRUE" then ScanGlobal(skew) else Success([])
  }

  /** The steps of `lambda_handler` after the config is read: tags, account credentials, then the scans. */
  function PrepareTagging(config: LambdaConfig, orgs: Organizations, skew: Scanner.Skew, services: seq<string>)
    : (r: Result<TaggingInput, LambdaError>)
    ensures FetchTags(config, orgs).Failure? ==> r == Failure(FetchTags(config, orgs).error)
    ensures r.Success? ==> FetchTags(config, orgs) == Success(r.value.tags)
    ensures r.Success? ==> r.value.accountId == config.accountId && r.value.credentials.role == config.accountRole
    ensures config.accountRole == "" && FetchTags(config, orgs).Success? ==> r == Failure(InvalidRole("ACCOUNT_ROLE"))
  {
    var tags :- FetchTags(config, orgs);
    var credentials :- CredentialsForRole(config.accountRole, "ACCOUNT_ROLE");
    var regional :- ScanRegion(skew, services, config.region);
    var global :- GlobalResources(config, skew);
    Success(TaggingInput(regional + global, tags, credentials, config.accountId))
  }

  /** The input is the regional scan followed by the global one exactly when the switch reads `TRUE`. */
  lemma PrepareGlobalSwitch(config: LambdaConfig, orgs: Organizations, skew: Scanner.Skew, services: seq<string>)
    requires PrepareTagging(config, orgs, skew, services).Success?
    ensures ScanRegion(skew, services, config.region).Success?
    ensures config.tagGlobalRes == "TRUE" ==> ScanGlobal(skew).Success?
    ensures config.tagGlobalRes == "TRUE" ==>
      PrepareTagging(config, orgs, skew, services).value.resources ==
        ScanRegion(skew, services, config.region).value + ScanGlobal(skew).value
    ensures config.tagGlobalRes != "TRUE" ==>
      PrepareTagging(config, orgs, skew, services).value.resources == ScanRegion(skew, services, config.region).value
  {
    if config.tagGlobalRes != "TRUE" {
      var r := PrepareTagging(config, orgs, skew, services);
      assert r.value.resources == ScanRegion(skew, services, config.region).value + [];
    }
  }

  /** `lambda_handler` up to `perform_tagging`. */
  function LambdaHandler(env: Env, orgs: Organizations, skew: Scanner.Skew, services: seq<string>)
    : (r: Result<TaggingInput, LambdaError>)
    ensures FetchLambdaEnvConfig(env).Failure? ==> r == Failure(FetchLambdaEnvConfig(env).error)
    ensures FetchLambdaEnvConfig(env).Success? ==> r == PrepareTagging(FetchLambdaEnvConfig(env).value, orgs, skew, services)
  {
    var config :- FetchLambdaEnvConfig(env);
    PrepareTagging(config, orgs, skew, services)
  }

  /** With the switch unset or reading `true` in any case, the input is the regional scan followed by the global one. */
  lemma HandlerTagsGlobal(env: Env, orgs: Organizations, skew: Scanner.Skew, services: seq<string>)
    requires LambdaHandler(env, orgs, skew, services).Success?
    requires "TAG_GLOBAL_RES" !in env || Upper(env["TAG_GLOBAL_RES"]) == "TRUE"
    ensures FetchLambdaEnvConfig(env).Success?
    ensures ScanRegion(skew, services, env["REGION"]).Success? && ScanGlobal(skew).Success?
    ensures LambdaHandler(env, orgs, skew, services).value.resources ==
      ScanRegion(skew, services, env["REGION"]).value + ScanGlobal(skew).value
  {
    var config := FetchLambdaEnvConfig(env).value;
    EnvConfigDefaults(env);
    EnvConfigGiven(env);
    PrepareGlobalSwitch(config, orgs, skew, services);
  }

  /** With the switch set to anything other than `true`, the input is the regional scan alone. */
  lemma HandlerSkipsGlobal(env: Env, orgs: Organizations, skew: Scanner.Skew, services: seq<string>)
    requires LambdaHandler(env, orgs, skew, services).Success?
    requires "TAG_GLOBAL_RES" in env && Upper(env["TAG_GLOBAL_RES"]) != "TRUE"
    ensures FetchLambdaEnvConfig(env).Success?
    ensures ScanRegion(skew, services, env["REGION"]).Success?
    ensures LambdaHandler(env, orgs, skew, services).value.resources == ScanRegion(skew, services, env["REGION"]).value
  {
    var config := FetchLambdaEnvConfig(env).value;
    EnvConfigGiven(env);
    PrepareGlobalSwitch(config, orgs, skew, services);
  }

  /**
   * In account mode with an organizations role, a ClientError of the tag
   * lookup stops the preparation with that error, whatever the scans would give.
   */
  lemma OrganizationsErrorStopsPreparation(config: LambdaConfig, orgs: Organizations, skew: Scanner.Skew, services: seq<string>)
    requires config.tagMode == "ACCOUNT" && config.orgaRole != ""
    requires orgs(OrgaCredentials(config), config.accountId).Failure?
    ensures PrepareTagging(config, orgs, skew, services) ==
      Failure(OrganizationsFailed(config.accountId, orgs(OrgaCredentials(config), config.accountId).error))
  {
  }

  /** The same from the handler's environment: the lookup's ClientError is what the handler raises. */
  lemma OrganizationsErrorStopsHandler(env: Env, orgs: Organizations, skew: Scanner.Skew, services: seq<string>)
    requires FetchLambdaEnvConfig(env).Success?
    requires FetchLambdaEnvConfig(env).value.tagMode == "ACCOUNT" && "ORGA_ROLE" in env && env["ORGA_ROLE"] != ""
    requires orgs(Credentials(env["ORGA_ROLE"], "ORGA_ROLE_SESSION"), env["ACCOUNT_ID"]).Failure?
    ensures LambdaHandler(env, orgs, skew, services) ==
      Failure(OrganizationsFailed(env["ACCOUNT_ID"], orgs(Credentials(env["ORGA_ROLE"], "ORGA_ROLE_SESSION"), env["ACCOUNT_ID"]).error))
  {
    EnvConfigGiven(env);
    var config := FetchLambdaEnvConfig(env).value;
    OrgaSessionName();
    OrganizationsErrorStopsPreparation(config, orgs, skew, services);
  }

  /** An empty account role fails the handler, whatever the scans would give. */
  lemma EmptyAccountRoleFails(env: Env, orgs: Organizations, skew: Scanner.Skew, services: seq<string>)
    requires FetchLambdaEnvConfig(env).Success? && env["ACCOUNT_ROLE"] == ""
    ensures LambdaHandler(env, orgs, skew, services).Failure?
  {
  }
}
