/**
 * Session set-up shared by the bulk taggers and the service taggers
 * (`init_session` in both base classes): explicit credentials win, then a
 * named profile, and with neither the configuration is rejected.
 */
module Sessions {
  import opened Results

  /** The boto3 session a tagger would open. */
  datatype Session = CredentialsSession(credentials: map<string, string>) | ProfileSession(profile: string)

  /** TaggercoreConfigError: "No profile and no credentials found". */
  datatype ConfigError = NoProfileAndNoCredentials

  /** Python truthiness of the configured credentials: set and non-empty. */
  predicate HasCredentials(credentials: Option<map<string, string>>) {
    credentials.Some? && |credentials.value| > 0
  }

  /** Python truthiness of the configured profile: set and non-empty. */
  predicate HasProfile(profile: Option<string>) {
    profile.Some? && profile.value != ""
  }

  /** `init_session`, with the global configuration passed in. */
  function InitSession(credentials: Option<map<string, string>>, profile: Option<string>)
    : (r: Result<Session, ConfigError>)
    ensures r.Failure? <==> !HasCredentials(credentials) && !HasProfile(profile)
    ensures HasCredentials(credentials) ==> r == Success(CredentialsSession(credentials.value))
    ensures !HasCredentials(credentials) && HasProfile(profile) ==> r == Success(ProfileSession(profile.value))
  {
    if HasCredentials(credentials) then Success(CredentialsSession(credentials.value))
    else if !HasProfile(profile) then Failure(NoProfileAndNoCredentials)
    else Success(ProfileSession(profile.value))
  }
}
