/**
 * `Settings::new` (src/config/settings.rs) with the process environment
 * given as a map from variable name to value.
 */
module Config {
  import opened Common

  datatype Settings = Settings(slackBotToken: string, slackApiBaseUrl: string)

  datatype SettingError = MissingEnvVar(name: string)

  const TokenVar: string := "SLACK_BOT_TOKEN"
  const BaseUrlVar: string := "SLACK_API_BASE_URL"
  const DefaultBaseUrl: string := "https://slack.com/api"

  /** The `Display` text thiserror derives for a setting error. */
  function SettingErrorMessage(e: SettingError): (m: string)
    ensures m == "Missing environment variable " + e.name
  {
    match e
    case MissingEnvVar(name) => "Missing environment variable " + name
  }

  /**
   * `trim_end_matches('/')`: the longest prefix of `s` that does not end
   * with `/`, obtained by removing every trailing `/`.
   */
  function TrimTrailingSlashes(s: string): (r: string)
    ensures r <= s
    ensures r == [] || r[|r| - 1] != '/'
    ensures forall i :: |r| <= i < |s| ==> s[i] == '/'
    decreases |s|
  {
    if s != [] && s[|s| - 1] == '/' then TrimTrailingSlashes(s[..|s| - 1]) else s
  }

  /** Trimming again changes nothing. */
  lemma TrimIdempotent(s: string)
    ensures TrimTrailingSlashes(TrimTrailingSlashes(s)) == TrimTrailingSlashes(s)
  {
  }

  /**
   * The trimmed string is the only prefix of `s` that neither ends with `/`
   * nor leaves anything but `/` behind.
   */
  lemma TrimUnique(s: string, p: string)
    requires p <= s
    requires p == [] || p[|p| - 1] != '/'
    requires forall i :: |p| <= i < |s| ==> s[i] == '/'
    ensures TrimTrailingSlashes(s) == p
  {
  }

  /**
   * `Settings::new`: the token is required and kept as given; the base URL
   * defaults to `https://slack.com/api` and loses its trailing slashes.
   */
  function New(env: map<string, string>): (r: Result<Settings, SettingError>)
    ensures TokenVar !in env <==> r == Err(MissingEnvVar(TokenVar))
    ensures r.Ok? <==> TokenVar in env
    ensures r.Ok? ==> r.value.slackBotToken == env[TokenVar]
    ensures r.Ok? && BaseUrlVar !in env ==> r.value.slackApiBaseUrl == DefaultBaseUrl
    ensures r.Ok? && BaseUrlVar in env ==>
      r.value.slackApiBaseUrl <= env[BaseUrlVar] &&
      (forall i :: |r.value.slackApiBaseUrl| <= i < |env[BaseUrlVar]| ==> env[BaseUrlVar][i] == '/')
    ensures r.Ok? ==> r.value.slackApiBaseUrl == [] || r.value.slackApiBaseUrl[|r.value.slackApiBaseUrl| - 1] != '/'
  {
    if TokenVar !in env then Err(MissingEnvVar(TokenVar))
    else
      var raw := if BaseUrlVar in env then env[BaseUrlVar] else DefaultBaseUrl;
      assert TrimTrailingSlashes(DefaultBaseUrl) == DefaultBaseUrl;
      Ok(Settings(env[TokenVar], TrimTrailingSlashes(raw)))
  }
}
