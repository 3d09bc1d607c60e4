/** The run-time profile read from `CARGO_PROFILE`. */
module Config {
  import opened Wrappers

  datatype Env = DEV | RELEASE

  const UNKNOWN_ENVIRONMENT: string := "Error parsing Config::env : Unknown environment"

  /** `Env::from_str`: exactly "dev" and "release", matched case-sensitively. */
  function ParseEnv(s: string): (r: Result<Env, string>)
    ensures r == Success(DEV) <==> s == "dev"
    ensures r == Success(RELEASE) <==> s == "release"
    ensures r.Failure? ==> r.error == UNKNOWN_ENVIRONMENT
  {
    if s == "dev" then Success(DEV)
    else if s == "release" then Success(RELEASE)
    else Failure(UNKNOWN_ENVIRONMENT)
  }

  /** The name each profile is parsed from. */
  function EnvName(e: Env): string {
    match e
    case DEV => "dev"
    case RELEASE => "release"
  }

  lemma ParseEnvRoundTrip(e: Env)
    ensures ParseEnv(EnvName(e)) == Success(e)
  {
  }

  /** Any other spelling, a capitalised one included, is refused. */
  lemma CapitalisedEnvRefused()
    ensures ParseEnv("Dev").Failure? && ParseEnv("RELEASE").Failure?
  {
    assert "Dev"[0] != "dev"[0];
    assert "RELEASE"[0] != "release"[0];
  }

  datatype Settings = Settings(env: Env)

  /** `Config::build`: the process panics (here: no configuration) when `CARGO_PROFILE` is
      unset or names an unknown profile. */
  function Build(profile: Option<string>): (r: Option<Settings>)
    ensures r.Some? <==> profile.Some? && ParseEnv(profile.value).Success?
    ensures r.Some? ==> EnvName(r.value.env) == profile.value
  {
    match profile
    case None => None
    case Some(s) =>
      match ParseEnv(s)
      case Success(env) => Some(Settings(env))
      case Failure(_) => None
  }
}
