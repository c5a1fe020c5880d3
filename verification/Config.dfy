// The runtime configuration: its shape, its normal form, and what makes it valid.

module Config {
  import opened Basics
  import opened Text

  // A duration the user explicitly set to "0"; a plain zero means absent.
  const DISABLED: int := -1

  const SECOND: int := 1_000_000_000
  const MINUTE: int := 60 * SECOND

  const DEFAULT_SWITCH_WINDOW: int := 5 * SECOND
  const DEFAULT_SWITCH_WINDOW_MAX: int := 3 * MINUTE
  const DEFAULT_COMMAND_FRESHNESS: int := 30 * SECOND
  const DEFAULT_WINDOW_DISCOVERY_INTERVAL: int := 1 * SECOND
  const DEFAULT_TUNNEL_PRUNE_AFTER: int := 60 * SECOND
  const DEFAULT_LEARNED_ENDPOINT_TTL: int := 720 * 60 * MINUTE
  const DEFAULT_LEARNED_MAX_PER_PROFILE: int := 16
  const DEFAULT_PROMOTE_AFTER_REFRESHES: int := 3
  const DEFAULT_ENDPOINT_WARN_THRESHOLD: int := 256
  const DEFAULT_VERIFY_INTERVAL: int := 1 * MINUTE
  const DEFAULT_ENDPOINT_REFRESH: int := 1 * MINUTE
  const DEFAULT_TUNNEL_WATCH: int := 1 * SECOND
  const DEFAULT_REDIAL_WINDOW: int := 30 * SECOND
  const DEFAULT_REDIAL_WINDOW_MAX: int := 10 * MINUTE
  const DEFAULT_REDIAL_MIN_UPTIME: int := 15 * SECOND
  const DEFAULT_PAUSE_MAX: int := 30 * MINUTE
  const DEFAULT_ENDPOINT_GRACE: int := 15 * MINUTE
  const DEFAULT_REDIAL_BUDGET: int := 2 * MINUTE
  const DEFAULT_REDIAL_BUDGET_WINDOW: int := 15 * MINUTE
  const MIN_REDIAL_GRANT: int := 5 * SECOND
  const MAX_PROFILE_NAME: int := 64

  datatype Profile = Profile(name: string, endpoints: seq<string>, tunnelHint: string)

  datatype Advanced = Advanced(
    switchWindowMax: int,
    redialWindowMax: int,
    commandFreshness: int,
    windowDiscoveryInterval: int,
    tunnelPruneAfter: int,
    learnedEndpointTTL: int,
    learnedMaxPerProfile: int,
    promoteAfterRefreshes: int,
    endpointWarnThreshold: int,
    verifyInterval: int,
    livenessRedial: bool,
    redialMinUptime: int,
    redialBudget: int,
    redialBudgetWindow: int,
    windowProtocols: seq<string>,
    windowPorts: seq<int>)

  datatype VPN = VPN(
    tunnelInterfaces: seq<string>,
    endpoints: seq<string>,
    autoDetect: bool,
    autoDiscoverEndpoints: bool,
    allowPhysicalDNS: bool,
    allowGeoProviders: bool,
    allowLocalNetwork: bool,
    autoArm: bool,
    armAtBoot: bool,
    endpointRefresh: int,
    endpointGrace: int,
    tunnelWatch: int,
    profiles: seq<Profile>,
    switchWindow: int,
    redialWindow: int,
    pauseMax: int,
    advanced: Advanced)

  datatype Control = Control(
    enabled: bool,
    socket: string,
    group: string,
    allowSwitchOps: bool,
    allowPauseOps: bool,
    allowConfigOps: bool)

  // None is a nil slice: absent, where an empty one is a choice.
  datatype Config = Config(
    pollInterval: int,
    blockedCountries: Option<seq<string>>,
    hysteresis: int,
    providers: Option<seq<string>>,
    providerQuorum: bool,
    logLevel: string,
    vpn: VPN,
    control: Control,
    retired: seq<string>)

  // The user-settable keys: top-level and control.*, vpn.*, vpn.advanced.*.
  datatype MainKey =
    | KeyBlockedCountries | KeyControlAllowConfigOps | KeyControlAllowPauseOps | KeyControlAllowSwitchOps
    | KeyControlEnabled | KeyControlGroup | KeyControlSocket | KeyHysteresis | KeyLogLevel | KeyPollInterval
    | KeyProviderQuorum | KeyProviders

  datatype VPNKey =
    | KeyAllowGeoProviders | KeyAllowLocalNetwork | KeyAllowPhysicalDNS | KeyArmAtBoot | KeyAutoArm
    | KeyAutoDetect | KeyAutoDiscoverEndpoints | KeyEndpointGrace | KeyEndpointRefresh | KeyEndpoints
    | KeyPauseMax | KeyRedialWindow | KeySwitchWindow | KeyTunnelInterfaces | KeyTunnelWatch

  datatype AdvancedKey =
    | KeyCommandFreshness | KeyEndpointWarnThreshold | KeyLearnedEndpointTTL | KeyLearnedMaxPerProfile
    | KeyLivenessRedial | KeyPromoteAfterRefreshes | KeyRedialBudget | KeyRedialBudgetWindow
    | KeyRedialMinUptime | KeyRedialWindowMax | KeySwitchWindowMax | KeyTunnelPruneAfter | KeyVerifyInterval
    | KeyWindowDiscoveryInterval | KeyWindowPorts | KeyWindowProtocols

  datatype Key = Main(main: MainKey) | Vpn(vpn: VPNKey) | Adv(adv: AdvancedKey)

  // ---- normal form ----

  function CleanCountry(c: string): string {
    Upper(Trim(c))
  }

  // Upper-cased, trimmed, first occurrences only, blanks gone.
  function Countries(cs: seq<string>): seq<string> {
    if |cs| == 0 then []
    else
      var kept := Countries(cs[..|cs| - 1]);
      var u := CleanCountry(cs[|cs| - 1]);
      if u == "" || u in kept then kept else kept + [u]
  }

  function TrimAll(ss: seq<string>): (r: seq<string>)
    ensures |r| == |ss| && forall i :: 0 <= i < |ss| ==> r[i] == Trim(ss[i])
  {
    seq(|ss|, i requires 0 <= i < |ss| => Trim(ss[i]))
  }

  function CleanProfile(p: Profile): Profile {
    Profile(Trim(p.name), TrimAll(p.endpoints), Trim(p.tunnelHint))
  }

  function CleanProfiles(ps: seq<Profile>): (r: seq<Profile>)
    ensures |r| == |ps| && forall i :: 0 <= i < |ps| ==> r[i] == CleanProfile(ps[i])
  {
    seq(|ps|, i requires 0 <= i < |ps| => CleanProfile(ps[i]))
  }

  function CleanProtocols(ps: seq<string>): (r: seq<string>)
    ensures |r| == |ps| && forall i :: 0 <= i < |ps| ==> r[i] == Lower(Trim(ps[i]))
  {
    seq(|ps|, i requires 0 <= i < |ps| => Lower(Trim(ps[i])))
  }

  // Not positive means absent.
  function Positive(d: int, default_: int): int {
    if d <= 0 then default_ else d
  }

  // Only zero means absent; a negative value is an opt-out.
  function NonZero(d: int, default_: int): int {
    if d == 0 then default_ else d
  }

  function NormalAdvanced(a: Advanced): Advanced {
    Advanced(
      Positive(a.switchWindowMax, DEFAULT_SWITCH_WINDOW_MAX),
      Positive(a.redialWindowMax, DEFAULT_REDIAL_WINDOW_MAX),
      Positive(a.commandFreshness, DEFAULT_COMMAND_FRESHNESS),
      Positive(a.windowDiscoveryInterval, DEFAULT_WINDOW_DISCOVERY_INTERVAL),
      Positive(a.tunnelPruneAfter, DEFAULT_TUNNEL_PRUNE_AFTER),
      Positive(a.learnedEndpointTTL, DEFAULT_LEARNED_ENDPOINT_TTL),
      Positive(a.learnedMaxPerProfile, DEFAULT_LEARNED_MAX_PER_PROFILE),
      Positive(a.promoteAfterRefreshes, DEFAULT_PROMOTE_AFTER_REFRESHES),
      Positive(a.endpointWarnThreshold, DEFAULT_ENDPOINT_WARN_THRESHOLD),
      NonZero(a.verifyInterval, DEFAULT_VERIFY_INTERVAL),
      a.livenessRedial,
      NonZero(a.redialMinUptime, DEFAULT_REDIAL_MIN_UPTIME),
      Positive(a.redialBudget, DEFAULT_REDIAL_BUDGET),
      Positive(a.redialBudgetWindow, DEFAULT_REDIAL_BUDGET_WINDOW),
      CleanProtocols(a.windowProtocols),
      a.windowPorts)
  }

  function NormalVPN(v: VPN): VPN {
    v.(tunnelInterfaces := TrimAll(v.tunnelInterfaces),
       endpoints := TrimAll(v.endpoints),
       profiles := CleanProfiles(v.profiles),
       endpointRefresh := Positive(v.endpointRefresh, DEFAULT_ENDPOINT_REFRESH),
       endpointGrace := Positive(v.endpointGrace, DEFAULT_ENDPOINT_GRACE),
       tunnelWatch := Positive(v.tunnelWatch, DEFAULT_TUNNEL_WATCH),
       switchWindow := NonZero(v.switchWindow, DEFAULT_SWITCH_WINDOW),
       redialWindow := NonZero(v.redialWindow, DEFAULT_REDIAL_WINDOW),
       pauseMax := NonZero(v.pauseMax, DEFAULT_PAUSE_MAX),
       advanced := NormalAdvanced(v.advanced))
  }

  const DEFAULT_BLOCKED: seq<string> := ["IR", "RU", "KP"]

  function NormalCountries(b: Option<seq<string>>): Option<seq<string>> {
    match b
    case None => Some(DEFAULT_BLOCKED)
    case Some(cs) => Some(Countries(cs))
  }

  function Normal(c: Config): Config {
    c.(blockedCountries := NormalCountries(c.blockedCountries),
       logLevel := Lower(Trim(c.logLevel)),
       vpn := NormalVPN(c.vpn))
  }

  // ---- Normalize is a projection ----

  predicate CleanList(cs: seq<string>) {
    |cs| == 0 ||
    var n := |cs| - 1;
    CleanList(cs[..n]) && cs[n] != "" && cs[n] !in cs[..n] && CleanCountry(cs[n]) == cs[n]
  }

  lemma {:induction false} CountriesAreClean(cs: seq<string>)
    ensures CleanList(Countries(cs))
  {
    if |cs| > 0 {
      var kept, u := Countries(cs[..|cs| - 1]), CleanCountry(cs[|cs| - 1]);
      CountriesAreClean(cs[..|cs| - 1]);
      UpperTrimTwice(cs[|cs| - 1]);
      assert (kept + [u])[..|kept|] == kept;
    }
  }

  lemma {:induction false} CleanListStays(cs: seq<string>)
    requires CleanList(cs)
    ensures Countries(cs) == cs
  {
    if |cs| > 0 { CleanListStays(cs[..|cs| - 1]); }
  }

  lemma CleanSnoc(cs: seq<string>, u: string)
    requires CleanList(cs) && u != "" && u !in cs && Trimmed(u) && Upper(u) == u
    ensures CleanList(cs + [u])
  {
    assert (cs + [u])[..|cs|] == cs;
  }

  lemma CleanDefault()
    ensures CleanList(DEFAULT_BLOCKED)
  {
    CleanSnoc([], "IR");
    CleanSnoc(["IR"], "RU");
    CleanSnoc(["IR", "RU"], "KP");
    assert [] + ["IR"] == ["IR"] && ["IR"] + ["RU"] == ["IR", "RU"] && ["IR", "RU"] + ["KP"] == DEFAULT_BLOCKED;
  }

  lemma CountriesTwice(b: Option<seq<string>>)
    ensures NormalCountries(NormalCountries(b)) == NormalCountries(b)
  {
    CleanDefault();
    CleanListStays(DEFAULT_BLOCKED);
    if b.Some? {
      CountriesAreClean(b.value);
      CleanListStays(Countries(b.value));
    }
  }

  lemma TrimAllTwice(ss: seq<string>)
    ensures TrimAll(TrimAll(ss)) == TrimAll(ss)
  {
    forall i | 0 <= i < |ss| { TrimTwice(ss[i]); }
  }

  lemma CleanProfilesTwice(ps: seq<Profile>)
    ensures CleanProfiles(CleanProfiles(ps)) == CleanProfiles(ps)
  {
    forall i | 0 <= i < |ps|
      ensures CleanProfile(CleanProfile(ps[i])) == CleanProfile(ps[i])
    {
      TrimTwice(ps[i].name);
      TrimTwice(ps[i].tunnelHint);
      TrimAllTwice(ps[i].endpoints);
    }
  }

  lemma CleanProtocolsTwice(ps: seq<string>)
    ensures CleanProtocols(CleanProtocols(ps)) == CleanProtocols(ps)
  {
    forall i | 0 <= i < |ps| { LowerTrimTwice(ps[i]); }
  }

  // Normalising a normal config changes nothing, whatever the first pass had to do.
  lemma NormalTwice(c: Config)
    ensures Normal(Normal(c)) == Normal(c)
  {
    CountriesTwice(c.blockedCountries);
    LowerTrimTwice(c.logLevel);
    TrimAllTwice(c.vpn.tunnelInterfaces);
    TrimAllTwice(c.vpn.endpoints);
    CleanProfilesTwice(c.vpn.profiles);
    CleanProtocolsTwice(c.vpn.advanced.windowProtocols);
  }

  // ---- normalising in place ----

  class ConfigRef {
    var c: Config

    constructor (c: Config)
      ensures this.c == c
    {
      this.c := c;
    }

    method Normalize()
      modifies this
      ensures c == Normal(old(c))
    {
      hide TrimAll, CleanProfiles, NormalAdvanced, NormalCountries;
      NormalizeCountries();
      var tunnels := TrimEach(c.vpn.tunnelInterfaces);
      var endpoints := TrimEach(c.vpn.endpoints);
      var profiles := CleanEachProfile(c.vpn.profiles);
      var v := c.vpn;
      c := c.(logLevel := Lower(Trim(c.logLevel)),
              vpn := v.(tunnelInterfaces := tunnels, endpoints := endpoints, profiles := profiles,
                        endpointRefresh := Positive(v.endpointRefresh, DEFAULT_ENDPOINT_REFRESH),
                        endpointGrace := Positive(v.endpointGrace, DEFAULT_ENDPOINT_GRACE),
                        tunnelWatch := Positive(v.tunnelWatch, DEFAULT_TUNNEL_WATCH),
                        switchWindow := NonZero(v.switchWindow, DEFAULT_SWITCH_WINDOW),
                        redialWindow := NonZero(v.redialWindow, DEFAULT_REDIAL_WINDOW),
                        pauseMax := NonZero(v.pauseMax, DEFAULT_PAUSE_MAX)));
      NormalizeAdvanced();
    }

    method NormalizeCountries()
      modifies this
      ensures c == old(c).(blockedCountries := NormalCountries(old(c).blockedCountries))
    {
      match c.blockedCountries {
        case None => c := c.(blockedCountries := Some(DEFAULT_BLOCKED));
        case Some(cs) =>
          if |cs| > 0 {
            var out := Deduplicate(cs);
            c := c.(blockedCountries := Some(out));
          } else {
            assert cs == [];
          }
      }
    }

    method NormalizeAdvanced()
      modifies this
      ensures c == old(c).(vpn := old(c).vpn.(advanced := NormalAdvanced(old(c).vpn.advanced)))
    {
      var a := c.vpn.advanced;
      a := a.(switchWindowMax := Positive(a.switchWindowMax, DEFAULT_SWITCH_WINDOW_MAX),
              redialWindowMax := Positive(a.redialWindowMax, DEFAULT_REDIAL_WINDOW_MAX),
              commandFreshness := Positive(a.commandFreshness, DEFAULT_COMMAND_FRESHNESS),
              windowDiscoveryInterval := Positive(a.windowDiscoveryInterval, DEFAULT_WINDOW_DISCOVERY_INTERVAL),
              tunnelPruneAfter := Positive(a.tunnelPruneAfter, DEFAULT_TUNNEL_PRUNE_AFTER),
              learnedEndpointTTL := Positive(a.learnedEndpointTTL, DEFAULT_LEARNED_ENDPOINT_TTL));
      a := a.(learnedMaxPerProfile := Positive(a.learnedMaxPerProfile, DEFAULT_LEARNED_MAX_PER_PROFILE),
              promoteAfterRefreshes := Positive(a.promoteAfterRefreshes, DEFAULT_PROMOTE_AFTER_REFRESHES),
              endpointWarnThreshold := Positive(a.endpointWarnThreshold, DEFAULT_ENDPOINT_WARN_THRESHOLD),
              redialMinUptime := NonZero(a.redialMinUptime, DEFAULT_REDIAL_MIN_UPTIME),
              verifyInterval := NonZero(a.verifyInterval, DEFAULT_VERIFY_INTERVAL),
              redialBudget := Positive(a.redialBudget, DEFAULT_REDIAL_BUDGET),
              redialBudgetWindow := Positive(a.redialBudgetWindow, DEFAULT_REDIAL_BUDGET_WINDOW));
      var ps := a.windowProtocols;
      for i := 0 to |ps|
        invariant |ps| == |a.windowProtocols|
        invariant forall j :: 0 <= j < i ==> ps[j] == Lower(Trim(a.windowProtocols[j]))
        invariant forall j :: i <= j < |ps| ==> ps[j] == a.windowProtocols[j]
      {
        ps := ps[i := Lower(Trim(ps[i]))];
      }
      assert ps == CleanProtocols(a.windowProtocols);
      c := c.(vpn := c.vpn.(advanced := a.(windowProtocols := ps)));
    }
  }

  method Deduplicate(cs: seq<string>) returns (out: seq<string>)
    ensures out == Countries(cs)
  {
    var seen: set<string> := {};
    out := [];
    for i := 0 to |cs|
      invariant out == Countries(cs[..i])
      invariant seen == set u | u in out
    {
      assert cs[..i + 1][..i] == cs[..i];
      var u := Upper(Trim(cs[i]));
      if u != "" && u !in seen {
        seen := seen + {u};
        out := out + [u];
      }
    }
    assert cs[..|cs|] == cs;
  }

  method CleanEachProfile(ps: seq<Profile>) returns (out: seq<Profile>)
    ensures out == CleanProfiles(ps)
  {
    out := ps;
    for i := 0 to |ps|
      invariant |out| == |ps|
      invariant forall j :: 0 <= j < i ==> out[j] == CleanProfile(ps[j])
      invariant forall j :: i <= j < |ps| ==> out[j] == ps[j]
    {
      var eps := TrimEach(out[i].endpoints);
      out := out[i := Profile(Trim(out[i].name), eps, Trim(out[i].tunnelHint))];
    }
  }

  method TrimEach(ss: seq<string>) returns (out: seq<string>)
    ensures out == TrimAll(ss)
  {
    out := ss;
    for i := 0 to |ss|
      invariant |out| == |ss|
      invariant forall j :: 0 <= j < i ==> out[j] == Trim(ss[j])
      invariant forall j :: i <= j < |ss| ==> out[j] == ss[j]
    {
      out := out[i := Trim(out[i])];
    }
  }

  // ---- validity ----

  predicate ValidNameChar(c: char) {
    'a' <= c <= 'z' || 'A' <= c <= 'Z' || '0' <= c <= '9' || c == '.' || c == '_' || c == '-'
  }

  predicate ValidProfileName(name: string) {
    0 < |name| <= MAX_PROFILE_NAME && forall c <- name :: ValidNameChar(c)
  }

  // `plausible` stands for classifyTarget: an IP literal or a hostname.
  predicate ValidProfiles(ps: seq<Profile>, plausible: string -> bool) {
    && (forall p <- ps :: ValidProfileName(p.name) && |p.endpoints| > 0 && forall e <- p.endpoints :: plausible(e))
    && (forall i, j :: 0 <= i < j < |ps| ==> Lower(ps[i].name) != Lower(ps[j].name))
  }

  predicate ValidAdvanced(a: Advanced) {
    && (forall p <- a.windowProtocols :: Lower(Trim(p)) in ["udp", "tcp"])
    && (forall n <- a.windowPorts :: 1 <= n <= 65535)
  }

  // The rules that tie one key to another.
  predicate ValidWindows(v: VPN) {
    && (v.switchWindow > 0 ==> v.switchWindow <= Positive(v.advanced.switchWindowMax, DEFAULT_SWITCH_WINDOW_MAX))
    && (v.redialWindow > 0 ==> v.redialWindow <= Positive(v.advanced.redialWindowMax, DEFAULT_REDIAL_WINDOW_MAX))
    && (v.redialWindow > 0 && v.advanced.redialBudget > 0 ==>
          v.advanced.redialBudget >= Min(MIN_REDIAL_GRANT, v.redialWindow))
  }

  predicate Valid(c: Config, plausible: string -> bool) {
    && c.pollInterval > 0
    && c.hysteresis >= 1
    && c.providers.Some? && |c.providers.value| > 0
    && (c.blockedCountries.Some? ==> forall code <- c.blockedCountries.value :: |code| == 2)
    && (forall e <- c.vpn.endpoints :: plausible(e))
    && ValidProfiles(c.vpn.profiles, plausible)
    && ValidAdvanced(c.vpn.advanced)
    && ValidWindows(c.vpn)
  }

  datatype Invalid =
    | PollInterval | Hysteresis | NoProvider | Country(code: string) | Endpoint(ep: string)
    | ProfileNameMissing(at: nat) | ProfileName(name: string) | DuplicateProfile(name: string)
    | ProfileEmpty(name: string) | ProfileEndpoint(name: string, ep: string)
    | WindowProtocol(proto: string) | WindowPort(port: int)
    | SwitchWindowTooLong | RedialWindowTooLong | RedialBudgetTooSmall

  // What each complaint says of a config, told of its fields.
  predicate BadProfiles(ps: seq<Profile>, plausible: string -> bool, e: Invalid) {
    match e
    case ProfileNameMissing(at) => at < |ps| && ps[at].name == ""
    case ProfileName(name) =>
      && (exists p <- ps :: p.name == name)
      && (|name| > 64 || exists c <- name ::
            !('a' <= c <= 'z') && !('A' <= c <= 'Z') && !('0' <= c <= '9') && c !in ['.', '_', '-'])
    case DuplicateProfile(name) => exists i, j :: 0 <= i < j < |ps| && ps[j].name == name && EqualFold(ps[i].name, name)
    case ProfileEmpty(name) => exists p <- ps :: p.name == name && |p.endpoints| == 0
    case ProfileEndpoint(name, ep) => exists p <- ps :: p.name == name && ep in p.endpoints && !plausible(ep)
    case _ => false
  }

  predicate BadAdvanced(a: Advanced, e: Invalid) {
    match e
    case WindowProtocol(proto) =>
      proto in a.windowProtocols && Lower(Trim(proto)) != "udp" && Lower(Trim(proto)) != "tcp"
    case WindowPort(port) => port in a.windowPorts && (port < 1 || port > 65535)
    case _ => false
  }

  predicate BadWindows(v: VPN, e: Invalid) {
    match e
    case SwitchWindowTooLong =>
      var max := v.advanced.switchWindowMax;
      v.switchWindow > if max > 0 then max else DEFAULT_SWITCH_WINDOW_MAX
    case RedialWindowTooLong =>
      var max := v.advanced.redialWindowMax;
      v.redialWindow > if max > 0 then max else DEFAULT_REDIAL_WINDOW_MAX
    case RedialBudgetTooSmall =>
      && v.redialWindow > 0 && v.advanced.redialBudget > 0
      && v.advanced.redialBudget < 5 * SECOND && v.advanced.redialBudget < v.redialWindow
    case _ => false
  }

  predicate Faulty(c: Config, plausible: string -> bool, e: Invalid) {
    match e
    case PollInterval => c.pollInterval <= 0
    case Hysteresis => c.hysteresis < 1
    case NoProvider => c.providers.None? || c.providers.value == []
    case Country(code) => c.blockedCountries.Some? && code in c.blockedCountries.value && |code| != 2
    case Endpoint(ep) => ep in c.vpn.endpoints && !plausible(ep)
    case _ =>
      || BadProfiles(c.vpn.profiles, plausible, e) || BadAdvanced(c.vpn.advanced, e) || BadWindows(c.vpn, e)
  }

  method ValidateProfiles(ps: seq<Profile>, plausible: string -> bool) returns (err: Option<Invalid>)
    ensures err.None? <==> ValidProfiles(ps, plausible)
    ensures err.Some? ==> BadProfiles(ps, plausible, err.value)
  {
    var seen: set<string> := {};
    for i := 0 to |ps|
      invariant ValidProfiles(ps[..i], plausible)
      invariant forall k :: k in seen <==> exists j :: 0 <= j < i && Lower(ps[j].name) == k
    {
      var p := ps[i];
      assert p in ps;
      if p.name == "" {
        return Some(ProfileNameMissing(i));
      }
      if !ValidProfileName(p.name) {
        return Some(ProfileName(p.name));
      }
      var key := Lower(p.name);
      if key in seen {
        return Some(DuplicateProfile(p.name));
      }
      seen := seen + {key};
      if |p.endpoints| == 0 {
        return Some(ProfileEmpty(p.name));
      }
      for k := 0 to |p.endpoints|
        invariant forall e <- p.endpoints[..k] :: plausible(e)
      {
        if !plausible(p.endpoints[k]) {
          return Some(ProfileEndpoint(p.name, p.endpoints[k]));
        }
        assert p.endpoints[..k + 1] == p.endpoints[..k] + [p.endpoints[k]];
      }
      assert p.endpoints[..|p.endpoints|] == p.endpoints;
      assert ps[..i + 1] == ps[..i] + [p];
    }
    assert ps[..|ps|] == ps;
    err := None;
  }

  method ValidateAdvanced(a: Advanced) returns (err: Option<Invalid>)
    ensures err.None? <==> ValidAdvanced(a)
    ensures err.Some? ==> BadAdvanced(a, err.value)
  {
    for i := 0 to |a.windowProtocols|
      invariant forall p <- a.windowProtocols[..i] :: Lower(Trim(p)) in ["udp", "tcp"]
    {
      var p := a.windowProtocols[i];
      if Lower(Trim(p)) !in ["udp", "tcp"] {
        return Some(WindowProtocol(p));
      }
      assert a.windowProtocols[..i + 1] == a.windowProtocols[..i] + [p];
    }
    assert a.windowProtocols[..|a.windowProtocols|] == a.windowProtocols;
    for i := 0 to |a.windowPorts|
      invariant forall n <- a.windowPorts[..i] :: 1 <= n <= 65535
    {
      var n := a.windowPorts[i];
      assert n in a.windowPorts;
      if n < 1 || n > 65535 {
        return Some(WindowPort(n));
      }
      assert a.windowPorts[..i + 1] == a.windowPorts[..i] + [n];
    }
    assert a.windowPorts[..|a.windowPorts|] == a.windowPorts;
    err := None;
  }

  method ValidateSwitchWindow(v: VPN) returns (err: Option<Invalid>)
    ensures err.None? <==> ValidWindows(v)
    ensures err.Some? ==> BadWindows(v, err.value)
  {
    var smax := v.advanced.switchWindowMax;
    if smax <= 0 {
      smax := DEFAULT_SWITCH_WINDOW_MAX;
    }
    if v.switchWindow > 0 && v.switchWindow > smax {
      return Some(SwitchWindowTooLong);
    }
    var rmax := v.advanced.redialWindowMax;
    if rmax <= 0 {
      rmax := DEFAULT_REDIAL_WINDOW_MAX;
    }
    if v.redialWindow > 0 && v.redialWindow > rmax {
      return Some(RedialWindowTooLong);
    }
    var floor := Min(MIN_REDIAL_GRANT, v.redialWindow);
    if v.redialWindow > 0 && v.advanced.redialBudget > 0 && v.advanced.redialBudget < floor {
      return Some(RedialBudgetTooSmall);
    }
    err := None;
  }

  predicate FineProfile(p: Profile, plausible: string -> bool) {
    ValidProfileName(p.name) && |p.endpoints| > 0 && forall e <- p.endpoints :: plausible(e)
  }

  lemma BadProfile(ps: seq<Profile>, plausible: string -> bool, i: nat) returns (e: Invalid)
    requires i < |ps| && !FineProfile(ps[i], plausible)
    ensures BadProfiles(ps, plausible, e)
  {
    var p := ps[i];
    assert p in ps;
    if p.name == "" {
      e := ProfileNameMissing(i);
    } else if !ValidProfileName(p.name) {
      e := ProfileName(p.name);
    } else if |p.endpoints| == 0 {
      e := ProfileEmpty(p.name);
    } else {
      var ep :| ep in p.endpoints && !plausible(ep);
      e := ProfileEndpoint(p.name, ep);
    }
  }

  lemma ProfilesIff(ps: seq<Profile>, plausible: string -> bool)
    ensures ValidProfiles(ps, plausible) <==> forall e :: !BadProfiles(ps, plausible, e)
  {
    if ValidProfiles(ps, plausible) {
      forall e ensures !BadProfiles(ps, plausible, e) { NoBadProfile(ps, plausible, e); }
    } else if i: nat :| i < |ps| && !FineProfile(ps[i], plausible) {
      var _ := BadProfile(ps, plausible, i);
    } else {
      forall p <- ps ensures FineProfile(p, plausible) {
        var k :| 0 <= k < |ps| && ps[k] == p;
      }
      var i, j :| 0 <= i < j < |ps| && Lower(ps[i].name) == Lower(ps[j].name);
      assert BadProfiles(ps, plausible, DuplicateProfile(ps[j].name));
    }
  }

  lemma NoBadProfile(ps: seq<Profile>, plausible: string -> bool, e: Invalid)
    requires ValidProfiles(ps, plausible)
    ensures !BadProfiles(ps, plausible, e)
  {
    hide Lower;
  }

  lemma AdvancedIff(a: Advanced)
    ensures ValidAdvanced(a) <==> forall e :: !BadAdvanced(a, e)
  {
    hide Lower, Trim;
    if !ValidAdvanced(a) {
      if p :| p in a.windowProtocols && Lower(Trim(p)) !in ["udp", "tcp"] {
        assert BadAdvanced(a, WindowProtocol(p));
      } else {
        var n :| n in a.windowPorts && !(1 <= n <= 65535);
        assert BadAdvanced(a, WindowPort(n));
      }
    }
  }

  lemma WindowsIff(v: VPN)
    ensures ValidWindows(v) <==> forall e :: !BadWindows(v, e)
  {
    if !ValidWindows(v) {
      assert || BadWindows(v, SwitchWindowTooLong) || BadWindows(v, RedialWindowTooLong)
             || BadWindows(v, RedialBudgetTooSmall);
    }
  }

  // A config is valid exactly when there is nothing to complain of.
  lemma ValidIff(c: Config, plausible: string -> bool)
    ensures Valid(c, plausible) <==> forall e :: !Faulty(c, plausible, e)
  {
    hide ValidProfiles, ValidAdvanced, ValidWindows, BadProfiles, BadAdvanced, BadWindows;
    ProfilesIff(c.vpn.profiles, plausible);
    AdvancedIff(c.vpn.advanced);
    WindowsIff(c.vpn);
    OwnFaults(c, plausible);
    if !Valid(c, plausible) {
      if !ValidProfiles(c.vpn.profiles, plausible) {
        var e :| BadProfiles(c.vpn.profiles, plausible, e);
        assert Faulty(c, plausible, e);
      } else if !ValidAdvanced(c.vpn.advanced) {
        var e :| BadAdvanced(c.vpn.advanced, e);
        assert Faulty(c, plausible, e);
      } else if !ValidWindows(c.vpn) {
        var e :| BadWindows(c.vpn, e);
        assert Faulty(c, plausible, e);
      } else if c.pollInterval <= 0 {
        assert Faulty(c, plausible, PollInterval);
      } else if c.hysteresis < 1 {
        assert Faulty(c, plausible, Hysteresis);
      } else if !(c.providers.Some? && |c.providers.value| > 0) {
        assert Faulty(c, plausible, NoProvider);
      } else if e :| e in c.vpn.endpoints && !plausible(e) {
        assert Faulty(c, plausible, Endpoint(e));
      } else {
        var code :| code in c.blockedCountries.value && |code| != 2;
        assert Faulty(c, plausible, Country(code));
      }
    }
  }

  // The complaints the blocks make are none of the config's own.
  lemma OwnFaults(c: Config, plausible: string -> bool)
    ensures forall e ::
              BadProfiles(c.vpn.profiles, plausible, e) || BadAdvanced(c.vpn.advanced, e) || BadWindows(c.vpn, e) ==>
              Faulty(c, plausible, e)
  {
  }

  method Validate(c: Config, plausible: string -> bool) returns (err: Option<Invalid>)
    ensures err.None? <==> Valid(c, plausible)
    ensures match err case None => forall e :: !Faulty(c, plausible, e) case Some(e) => Faulty(c, plausible, e)
  {
    ValidIff(c, plausible);
    OwnFaults(c, plausible);
    hide ValidProfiles, ValidAdvanced, ValidWindows, BadProfiles, BadAdvanced, BadWindows;
    if c.pollInterval <= 0 {
      return Some(PollInterval);
    }
    if c.hysteresis < 1 {
      return Some(Hysteresis);
    }
    if c.providers.None? || |c.providers.value| == 0 {
      return Some(NoProvider);
    }
    var codes := if c.blockedCountries.Some? then c.blockedCountries.value else [];
    for i := 0 to |codes|
      invariant forall code <- codes[..i] :: |code| == 2
    {
      if |codes[i]| != 2 {
        return Some(Country(codes[i]));
      }
      assert codes[..i + 1] == codes[..i] + [codes[i]];
    }
    assert codes[..|codes|] == codes;
    var eps := c.vpn.endpoints;
    for i := 0 to |eps|
      invariant forall e <- eps[..i] :: plausible(e)
    {
      if !plausible(eps[i]) {
        return Some(Endpoint(eps[i]));
      }
      assert eps[..i + 1] == eps[..i] + [eps[i]];
    }
    assert eps[..|eps|] == eps;
    err := ValidateProfiles(c.vpn.profiles, plausible);
    if err.Some? {
      return;
    }
    err := ValidateAdvanced(c.vpn.advanced);
    if err.Some? {
      return;
    }
    err := ValidateSwitchWindow(c.vpn);
  }
}
