/**
 * The startup configuration and the checks the program performs on it before
 * any network activity (main.go, lines 50-70).
 */
module Configuration {
  import opened Wrappers

  /** Go's `time.Duration` counts nanoseconds. */
  const Second: int := 1_000_000_000
  const Hour: int := 3600 * Second

  /** The value of the `interval` flag when neither the flag nor its variable is set. */
  const DefaultInterval: int := Hour

  /** The options read at startup; `interval` is in nanoseconds. */
  datatype Config = Config(token: string, domain: string, name: string, interval: int)

  /** One kind per startup check; each is fatal to the process. */
  datatype ConfigError = TokenRequired | DomainRequired | NameRequired | IntervalTooShort

  /** The position of each check in the order the program performs them. */
  function Rank(e: ConfigError): nat
  {
    match e
    case TokenRequired => 0
    case DomainRequired => 1
    case NameRequired => 2
    case IntervalTooShort => 3
  }

  /** Whether the check `e`, taken on its own, fails for `c`. */
  predicate Violates(c: Config, e: ConfigError)
  {
    match e
    case TokenRequired => c.token == ""
    case DomainRequired => c.domain == ""
    case NameRequired => c.name == ""
    case IntervalTooShort => c.interval < Second
  }

  /** A configuration that passes every check. */
  predicate Valid(c: Config)
  {
    forall e: ConfigError :: !Violates(c, e)
  }

  /**
   * The startup checks, in the program's order: the first failing check is the
   * one reported, and `None` (Go's `nil`) means the program goes on to run.
   */
  function Validate(c: Config): (err: Option<ConfigError>)
    ensures err.None? <==> Valid(c)
    ensures err.Some? ==> Violates(c, err.value)
    ensures err.Some? ==> forall e: ConfigError :: Rank(e) < Rank(err.value) ==> !Violates(c, e)
  {
    if c.token == "" then
      assert Violates(c, TokenRequired);
      Some(TokenRequired)
    else if c.domain == "" then
      assert Violates(c, DomainRequired);
      Some(DomainRequired)
    else if c.name == "" then
      assert Violates(c, NameRequired);
      Some(NameRequired)
    else if c.interval < Second then
      assert Violates(c, IntervalTooShort);
      Some(IntervalTooShort)
    else
      None
  }

  /**
   * The interval bound is inclusive at one second, and the default interval of
   * one hour passes it.
   */
  lemma IntervalBound(token: string, domain: string, name: string)
    requires token != "" && domain != "" && name != ""
    ensures Validate(Config(token, domain, name, Second)).None?
    ensures Validate(Config(token, domain, name, Second - 1)) == Some(IntervalTooShort)
    ensures Validate(Config(token, domain, name, DefaultInterval)).None?
  {
  }
}
