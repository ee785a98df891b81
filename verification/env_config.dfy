/** Host and configuration-file resolution of the load tests
    (load_testing/env.py, and the host fallback chain at the top of
    load_testing/locustfile.py).

    Environment variables, `os.path.abspath`, `os.path.exists` and the YAML
    parser are inputs of the model (`Environment`); what is modelled is the
    order in which overrides win, how missing or empty values fall back to
    defaults, and which failures become a `ConfigError`. */
module EnvConfig {
  import opened Common

  // ---------------------------------------------------------------- hosts

  /** Python truthiness of a `str | None`. */
  predicate Truthy(h: Option<string>) {
    h.Some? && h.value != ""
  }

  /** `s.rstrip('/')`: drop every trailing slash. */
  function RStripSlash(s: string): (r: string)
    ensures r <= s
    ensures r == [] || r[|r| - 1] != '/'
    ensures forall i :: |r| <= i < |s| ==> s[i] == '/'
  {
    if s != [] && s[|s| - 1] == '/' then RStripSlash(s[..|s| - 1]) else s
  }

  /** A string that is not made of slashes only keeps a non-empty stem. */
  predicate HasNonSlash(s: string) {
    exists i :: 0 <= i < |s| && s[i] != '/'
  }

  /** `_normalize_host`: `None` for a missing or empty host, otherwise the
      host with its trailing slashes removed. */
  function NormalizeHost(host: Option<string>): (r: Option<string>)
    ensures r.Some? <==> Truthy(host)
    ensures r.Some? ==> r.value <= host.value
    ensures r.Some? ==> r.value == [] || r.value[|r.value| - 1] != '/'
    ensures r.Some? ==> forall i :: |r.value| <= i < |host.value| ==> host.value[i] == '/'
  {
    if !Truthy(host) then None else Some(RStripSlash(host.value))
  }

  /** Stripping a string with no trailing slash changes nothing. */
  lemma RStripSlashNoTrailing(s: string)
    requires s == [] || s[|s| - 1] != '/'
    ensures RStripSlash(s) == s
  {
  }

  /** Normalizing twice is normalizing once, for every host that has at
      least one character other than '/'. */
  lemma NormalizeHostIdempotent(host: string)
    requires HasNonSlash(host)
    ensures NormalizeHost(NormalizeHost(Some(host))) == NormalizeHost(Some(host))
  {
    var r := RStripSlash(host);
    var i :| 0 <= i < |host| && host[i] != '/';
    assert i < |r|;
    RStripSlashNoTrailing(r);
  }

  /** A host made only of slashes normalizes to the empty string, which a
      second normalization turns into `None`. */
  lemma NormalizeSlashesOnly(host: string)
    requires host != [] && !HasNonSlash(host)
    ensures NormalizeHost(Some(host)) == Some("")
    ensures NormalizeHost(NormalizeHost(Some(host))) == None
  {
    var r := RStripSlash(host);
    if r != [] {
      assert false;
    }
  }

  /** The host settings at the top of load_testing/env.py. */
  datatype HostSettings = HostSettings(
    albHost: Option<string>,
    purchaseServiceHost: Option<string>,
    queryServiceHost: Option<string>)

  const DEFAULT_ALB_HOST: string := "http://ticketing-alb-1896570314.us-west-2.elb.amazonaws.com"

  /** As shipped: the ALB host set, no per-service override. */
  const DefaultHostSettings: HostSettings := HostSettings(Some(DEFAULT_ALB_HOST), None, None)

  /** `service_override or ALB_HOST`, normalized when truthy. */
  function ServiceHost(serviceOverride: Option<string>, alb: Option<string>): (r: Option<string>)
    ensures Truthy(serviceOverride) ==> r == NormalizeHost(serviceOverride)
    ensures !Truthy(serviceOverride) && Truthy(alb) ==> r == NormalizeHost(alb)
    ensures !Truthy(serviceOverride) && !Truthy(alb) ==> r == None
  {
    var h := if Truthy(serviceOverride) then serviceOverride else alb;
    if Truthy(h) then NormalizeHost(h) else None
  }

  /** `purchase_host`: PURCHASE_SERVICE_HOST beats ALB_HOST beats `None`. */
  function PurchaseHost(cfg: HostSettings): (r: Option<string>)
    ensures Truthy(cfg.purchaseServiceHost) ==> r == NormalizeHost(cfg.purchaseServiceHost)
    ensures !Truthy(cfg.purchaseServiceHost) ==> r == NormalizeHost(cfg.albHost)
  {
    ServiceHost(cfg.purchaseServiceHost, cfg.albHost)
  }

  /** `query_host`: QUERY_SERVICE_HOST beats ALB_HOST beats `None`. */
  function QueryHost(cfg: HostSettings): (r: Option<string>)
    ensures Truthy(cfg.queryServiceHost) ==> r == NormalizeHost(cfg.queryServiceHost)
    ensures !Truthy(cfg.queryServiceHost) ==> r == NormalizeHost(cfg.albHost)
  {
    ServiceHost(cfg.queryServiceHost, cfg.albHost)
  }

  /** The effective hosts never end in '/', and a result is `None` exactly
      when neither the override nor the ALB host is set to a non-empty
      string. */
  lemma ServiceHostShape(serviceOverride: Option<string>, alb: Option<string>)
    ensures var r := ServiceHost(serviceOverride, alb);
      && (r.None? <==> !Truthy(serviceOverride) && !Truthy(alb))
      && (r.Some? ==> r.value == [] || r.value[|r.value| - 1] != '/')
  {
  }

  /** The purchase override has no influence on the query host. */
  lemma QueryHostIgnoresPurchaseOverride(cfg: HostSettings, h: Option<string>)
    ensures QueryHost(cfg.(purchaseServiceHost := h)) == QueryHost(cfg)
  {
  }

  /** With the shipped settings both services are reached through the ALB. */
  lemma DefaultHostsUseAlb()
    ensures PurchaseHost(DefaultHostSettings) == Some(DEFAULT_ALB_HOST)
    ensures QueryHost(DefaultHostSettings) == Some(DEFAULT_ALB_HOST)
  {
    RStripSlashNoTrailing(DEFAULT_ALB_HOST);
  }

  /** `os.getenv(name, default)`: the value when the variable is set, even
      to the empty string; the default otherwise. */
  function GetEnvOr(getenv: string -> Option<string>, name: string, default: string): string {
    getenv(name).GetOr(default)
  }

  /** The module-level host chain of load_testing/locustfile.py. With the
      settings module importable (`settings` is `Some`), its hosts win and
      the service variables or the localhost defaults fill in falsy ones;
      without it, a non-empty ALB_HOST variable (slashes stripped) is the
      fallback for unset service variables, and otherwise the localhost
      defaults are. Returns the purchase and the query host. */
  function LocustHosts(settings: Option<HostSettings>, getenv: string -> Option<string>): (r: (string, string))
    ensures settings.Some? && Truthy(PurchaseHost(settings.value)) ==> r.0 == PurchaseHost(settings.value).value
    ensures settings.Some? && Truthy(QueryHost(settings.value)) ==> r.1 == QueryHost(settings.value).value
    ensures settings.Some? && !Truthy(PurchaseHost(settings.value)) ==> r.0 == GetEnvOr(getenv, "PURCHASE_SERVICE_HOST", "http://localhost:8081")
    ensures settings.None? && getenv("PURCHASE_SERVICE_HOST").Some? ==> r.0 == getenv("PURCHASE_SERVICE_HOST").value
    ensures settings.None? && getenv("PURCHASE_SERVICE_HOST").None? && Truthy(getenv("ALB_HOST")) ==> r.0 == RStripSlash(getenv("ALB_HOST").value)
    ensures settings.None? && getenv("PURCHASE_SERVICE_HOST").None? && !Truthy(getenv("ALB_HOST")) ==> r.0 == "http://localhost:8081"
    ensures settings.Some? && !Truthy(QueryHost(settings.value)) ==> r.1 == GetEnvOr(getenv, "QUERY_SERVICE_HOST", "http://localhost:8082")
    ensures settings.None? && getenv("QUERY_SERVICE_HOST").Some? ==> r.1 == getenv("QUERY_SERVICE_HOST").value
    ensures settings.None? && getenv("QUERY_SERVICE_HOST").None? && Truthy(getenv("ALB_HOST")) ==> r.1 == RStripSlash(getenv("ALB_HOST").value)
    ensures settings.None? && getenv("QUERY_SERVICE_HOST").None? && !Truthy(getenv("ALB_HOST")) ==> r.1 == "http://localhost:8082"
  {
    match settings
    case Some(cfg) =>
      var ph := PurchaseHost(cfg);
      var qh := QueryHost(cfg);
      ( if Truthy(ph) then ph.value else GetEnvOr(getenv, "PURCHASE_SERVICE_HOST", "http://localhost:8081"),
        if Truthy(qh) then qh.value else GetEnvOr(getenv, "QUERY_SERVICE_HOST", "http://localhost:8082") )
    case None =>
      var alb := getenv("ALB_HOST");
      if Truthy(alb) then
        var stripped := RStripSlash(alb.value);
        (GetEnvOr(getenv, "PURCHASE_SERVICE_HOST", stripped), GetEnvOr(getenv, "QUERY_SERVICE_HOST", stripped))
      else
        (GetEnvOr(getenv, "PURCHASE_SERVICE_HOST", "http://localhost:8081"),
         GetEnvOr(getenv, "QUERY_SERVICE_HOST", "http://localhost:8082"))
  }

  // ---------------------------------------------------------------- files

  /** `os.path.join(a, b)` for a relative component `b`. */
  function Join(a: string, b: string): (r: string)
    ensures a <= r
    ensures |r| >= |b| && r[|r| - |b|..] == b
    ensures a != [] && a[|a| - 1] != '/' ==> r == a + "/" + b
    ensures a == [] || a[|a| - 1] == '/' ==> r == a + b
  {
    if a == [] || a[|a| - 1] == '/' then a + b else a + "/" + b
  }

  /** `resources_root(service)`: `<repo_root>/<service>/src/main/resources`. */
  function ResourcesRoot(repoRoot: string, service: string): string {
    Join(Join(Join(Join(repoRoot, service), "src"), "main"), "resources")
  }

  /** What the process sees of its surroundings. */
  datatype Environment = Environment(
    getenv: string -> Option<string>,
    repoRoot: string,
    absPath: string -> string,
    fileExists: string -> bool,
    parse: string -> ParseOutcome)

  /** `venues_file` / `events_file`: the absolute form of the variable's
      value when it is set and non-empty, else the named file under the
      PurchaseService resources. */
  function ConfigFile(env: Environment, variable: string, fileName: string): (path: string)
    ensures Truthy(env.getenv(variable)) ==> path == env.absPath(env.getenv(variable).value)
    ensures !Truthy(env.getenv(variable)) ==> path == ResourcesRoot(env.repoRoot, "PurchaseService") + "/" + fileName
  {
    var v := env.getenv(variable);
    if Truthy(v) then env.absPath(v.value)
    else Join(ResourcesRoot(env.repoRoot, "PurchaseService"), fileName)
  }

  function VenuesFile(env: Environment): (path: string)
    ensures Truthy(env.getenv("VENUES_FILE")) ==> path == env.absPath(env.getenv("VENUES_FILE").value)
    ensures !Truthy(env.getenv("VENUES_FILE")) ==> path == ResourcesRoot(env.repoRoot, "PurchaseService") + "/" + "venues.yml"
  {
    ConfigFile(env, "VENUES_FILE", "venues.yml")
  }

  function EventsFile(env: Environment): (path: string)
    ensures Truthy(env.getenv("EVENTS_FILE")) ==> path == env.absPath(env.getenv("EVENTS_FILE").value)
    ensures !Truthy(env.getenv("EVENTS_FILE")) ==> path == ResourcesRoot(env.repoRoot, "PurchaseService") + "/" + "events.yml"
  {
    ConfigFile(env, "EVENTS_FILE", "events.yml")
  }

  // ----------------------------------------------------------------- YAML

  /** A parsed YAML value (mappings keyed by strings; floats and dates are
      not modelled). */
  datatype Yaml =
    | YNull
    | YBool(b: bool)
    | YInt(i: int)
    | YStr(s: string)
    | YList(items: seq<Yaml>)
    | YMap(entries: map<string, Yaml>)

  /** Python truthiness of a parsed value. */
  predicate YTruthy(y: Yaml) {
    match y
    case YNull => false
    case YBool(b) => b
    case YInt(i) => i != 0
    case YStr(s) => s != ""
    case YList(items) => items != []
    case YMap(entries) => entries != map[]
  }

  const EmptyMap: Yaml := YMap(map[])

  /** The parser either produces a value or raises. */
  datatype ParseOutcome = Parsed(doc: Yaml) | Unparseable

  /** `ConfigError` and its three causes. */
  datatype ConfigError = PathNotProvided | FileNotFound(path: string) | ParseError(path: string)

  /** `load_yaml_file`: the empty path, a path that does not exist and a
      parse failure raise `ConfigError`, checked in that order; a falsy
      parse result (an empty document, `null`, `{}` ...) becomes `{}`. */
  function LoadYamlFile(env: Environment, path: string): (r: Result<Yaml, ConfigError>)
    ensures path == "" ==> r == Err(PathNotProvided)
    ensures path != "" && !env.fileExists(path) ==> r == Err(FileNotFound(path))
    ensures path != "" && env.fileExists(path) && env.parse(path).Unparseable? ==> r == Err(ParseError(path))
    ensures r.Ok? <==> path != "" && env.fileExists(path) && env.parse(path).Parsed?
    ensures r.Ok? ==> YTruthy(r.value) || r.value == EmptyMap
    ensures r.Ok? && YTruthy(env.parse(path).doc) ==> r.value == env.parse(path).doc
    ensures r.Ok? && !YTruthy(env.parse(path).doc) ==> r.value == EmptyMap
  {
    if path == "" then Err(PathNotProvided)
    else if !env.fileExists(path) then Err(FileNotFound(path))
    else
      match env.parse(path)
      case Unparseable => Err(ParseError(path))
      case Parsed(doc) => Ok(if YTruthy(doc) then doc else EmptyMap)
  }

  /** Failures of `load_venues` / `load_events`: a `ConfigError`, or the
      `AttributeError` of calling `.get` on a value that is not a mapping. */
  datatype LoadError = Config(error: ConfigError) | NotAMapping

  /** `value.get(key, {})`. */
  function GetOrEmpty(value: Yaml, key: string): (r: Result<Yaml, LoadError>)
    ensures r.Err? <==> !value.YMap?
    ensures value.YMap? && key in value.entries ==> r == Ok(value.entries[key])
    ensures value.YMap? && key !in value.entries ==> r == Ok(EmptyMap)
  {
    match value
    case YMap(m) => Ok(if key in m then m[key] else EmptyMap)
    case _ => Err(NotAMapping)
  }

  /** `load_venues`: `data["venues"]["map"]`, `{}` for a missing level. A
      file that does not load gives its `ConfigError`; a falsy document
      gives `{}`; the `AttributeError` arises exactly when the loaded
      document, or its `venues` entry, is not a mapping. */
  function LoadVenues(env: Environment): (r: Result<Yaml, LoadError>)
    ensures VenuesFile(env) == "" ==> r == Err(Config(PathNotProvided))
    ensures VenuesFile(env) != "" && !env.fileExists(VenuesFile(env)) ==> r == Err(Config(FileNotFound(VenuesFile(env))))
    ensures VenuesFile(env) != "" && env.fileExists(VenuesFile(env)) && env.parse(VenuesFile(env)).Unparseable?
      ==> r == Err(Config(ParseError(VenuesFile(env))))
    ensures (VenuesFile(env) != "" && env.fileExists(VenuesFile(env)) && env.parse(VenuesFile(env)).Parsed?
             && !YTruthy(env.parse(VenuesFile(env)).doc))
      ==> r == Ok(EmptyMap)
    ensures r == Err(NotAMapping) ==> env.parse(VenuesFile(env)).Parsed? && YTruthy(env.parse(VenuesFile(env)).doc)
    ensures var loaded := LoadYamlFile(env, VenuesFile(env));
      r == Err(NotAMapping) <==>
        loaded.Ok? && (!loaded.value.YMap? || ("venues" in loaded.value.entries && !loaded.value.entries["venues"].YMap?))
  {
    match LoadYamlFile(env, VenuesFile(env))
    case Err(e) => Err(Config(e))
    case Ok(data) =>
      match GetOrEmpty(data, "venues")
      case Err(e) => Err(e)
      case Ok(venues) => GetOrEmpty(venues, "map")
  }

  /** `load_events`: `data["events"]`, `{}` when missing. A file that does
      not load gives its `ConfigError`; a falsy document gives `{}`; the
      `AttributeError` needs a truthy document that is not a mapping. */
  function LoadEvents(env: Environment): (r: Result<Yaml, LoadError>)
    ensures EventsFile(env) == "" ==> r == Err(Config(PathNotProvided))
    ensures EventsFile(env) != "" && !env.fileExists(EventsFile(env)) ==> r == Err(Config(FileNotFound(EventsFile(env))))
    ensures EventsFile(env) != "" && env.fileExists(EventsFile(env)) && env.parse(EventsFile(env)).Unparseable?
      ==> r == Err(Config(ParseError(EventsFile(env))))
    ensures (EventsFile(env) != "" && env.fileExists(EventsFile(env)) && env.parse(EventsFile(env)).Parsed?
             && !YTruthy(env.parse(EventsFile(env)).doc))
      ==> r == Ok(EmptyMap)
    ensures r == Err(NotAMapping) <==> LoadYamlFile(env, EventsFile(env)).Ok? && !LoadYamlFile(env, EventsFile(env)).value.YMap?
  {
    match LoadYamlFile(env, EventsFile(env))
    case Err(e) => Err(Config(e))
    case Ok(data) => GetOrEmpty(data, "events")
  }

  /** `load_venues` on a file that loads: the venue map when both levels
      are present, `{}` when either level is missing (in particular for an
      empty document), and an error only when a level is present but is
      not a mapping. A file that does not load gives its `ConfigError`. */
  lemma LoadVenuesCases(env: Environment)
    ensures var loaded := LoadYamlFile(env, VenuesFile(env));
      && (loaded.Err? ==> LoadVenues(env) == Err(Config(loaded.error)))
      && (loaded.Ok? && loaded.value.YMap? && "venues" !in loaded.value.entries ==> LoadVenues(env) == Ok(EmptyMap))
      && ((loaded.Ok? && loaded.value.YMap? && "venues" in loaded.value.entries
           && loaded.value.entries["venues"].YMap? && "map" !in loaded.value.entries["venues"].entries)
          ==> LoadVenues(env) == Ok(EmptyMap))
      && ((loaded.Ok? && loaded.value.YMap? && "venues" in loaded.value.entries
           && loaded.value.entries["venues"].YMap? && "map" in loaded.value.entries["venues"].entries)
          ==> LoadVenues(env) == Ok(loaded.value.entries["venues"].entries["map"]))
      && (LoadVenues(env) == Err(NotAMapping) ==> loaded.Ok? && loaded.value != EmptyMap)
  {
  }

  /** An empty or `null` venues document yields the empty venue map. */
  lemma EmptyDocumentNoVenues(env: Environment)
    requires VenuesFile(env) != "" && env.fileExists(VenuesFile(env))
    requires env.parse(VenuesFile(env)) == Parsed(YNull)
    ensures LoadVenues(env) == Ok(EmptyMap)
  {
  }

  /** `load_events`: the events entry, `{}` when it is missing, the
      `ConfigError` of a file that does not load. */
  lemma LoadEventsCases(env: Environment)
    ensures var loaded := LoadYamlFile(env, EventsFile(env));
      && (loaded.Err? ==> LoadEvents(env) == Err(Config(loaded.error)))
      && (loaded.Ok? && loaded.value.YMap? && "events" !in loaded.value.entries ==> LoadEvents(env) == Ok(EmptyMap))
      && (loaded.Ok? && loaded.value.YMap? && "events" in loaded.value.entries ==> LoadEvents(env) == Ok(loaded.value.entries["events"]))
  {
  }
}
