// The configuration as it is stored, and the way in and out of it.
//
// A written duration is the number it denotes; printing and parsing durations are library
// code that round-trips. Text that does not parse is Garbled.

module ConfigFile {
  import opened Basics
  import opened Text
  import opened Config

  datatype Written = Absent | Duration(d: int) | Garbled

  datatype FileProfile = FileProfile(name: string, endpoints: seq<string>, tunnelHint: string)

  datatype FileAdvanced = FileAdvanced(
    switchWindowMax: Written,
    redialWindowMax: Written,
    commandFreshness: Written,
    windowDiscoveryInterval: Written,
    tunnelPruneAfter: Written,
    learnedEndpointTTL: Written,
    learnedMaxPerProfile: int,
    promoteAfterRefreshes: int,
    endpointWarnThreshold: int,
    verifyInterval: Written,
    livenessRedial: Option<bool>,
    windowProtocols: seq<string>,
    windowPorts: seq<int>,
    redialMinUptime: Written,
    redialBudget: Written,
    redialBudgetWindow: Written)

  datatype FileVPN = FileVPN(
    enabled: Option<bool>,
    tunnelInterfaces: seq<string>,
    endpoints: seq<string>,
    autoDetect: Option<bool>,
    autoDiscoverEndpoints: Option<bool>,
    allowPhysicalDNS: Option<bool>,
    allowGeoProviders: Option<bool>,
    allowLocalNetwork: Option<bool>,
    autoArm: Option<bool>,
    armAtBoot: Option<bool>,
    endpointRefresh: Written,
    endpointGrace: Written,
    tunnelWatch: Written,
    profiles: seq<FileProfile>,
    switchWindow: Written,
    redialWindow: Written,
    pauseMax: Written,
    advanced: Option<FileAdvanced>)

  datatype FileControl = FileControl(
    enabled: Option<bool>,
    socket: string,
    group: Option<string>,
    allowSwitchOps: Option<bool>,
    allowPauseOps: Option<bool>,
    allowConfigOps: Option<bool>)

  datatype FileConfig = FileConfig(
    pollInterval: Written,
    blockedCountries: Option<seq<string>>,
    failClosed: Option<bool>,
    hysteresis: Option<int>,
    providers: Option<seq<string>>,
    allowlist: bool,
    providerQuorum: Option<bool>,
    logLevel: string,
    vpn: Option<FileVPN>,
    control: Option<FileControl>)

  // ---- defaults ----

  const ZERO_ADVANCED: Advanced :=
    Advanced(0, 0, 0, 0, 0, 0, 0, 0, 0, 0, false, 0, 0, 0, [], [])

  const DEFAULT_VPN: VPN :=
    VPN([], [], true, true, true, true, true, true, true, 0, 0, 0, [], 0, 0, 0, ZERO_ADVANCED)

  // What the build fixes: the provider URLs, and the platform's control group.
  datatype Build = Build(providers: seq<string>, group: string)

  function Default(b: Build): Config {
    Config(15 * SECOND, None, 2, Some(b.providers), false, "info", DEFAULT_VPN,
      Control(true, "", b.group, true, true, true), [])
  }

  // ---- from disk ----

  // Or the key whose value was refused.
  type Read<T> = Result<T, Key>

  function Given<T>(o: Option<T>, otherwise: T): T {
    match o
    case Some(v) => v
    case None => otherwise
  }

  // An ordinary duration: absent keeps `otherwise`.
  function ReadPlain(w: Written, key: Key, otherwise: int): Read<int> {
    match w
    case Absent => Ok(otherwise)
    case Garbled => Err(key)
    case Duration(d) => Ok(d)
  }

  // A feature's duration: "0" turns it off, and that is remembered.
  function ReadOptOut(w: Written, key: Key): Read<int> {
    match w
    case Absent => Ok(0)
    case Garbled => Err(key)
    case Duration(d) => if d < 0 then Err(key) else Ok(if d == 0 then DISABLED else d)
  }

  // A limit: "0" would mean no limit, so it is refused by name.
  function ReadLimit(w: Written, key: Key): Read<int> {
    match w
    case Absent => Ok(0)
    case Garbled => Err(key)
    case Duration(d) => if d <= 0 then Err(key) else Ok(d)
  }

  function ReadNonNegative(w: Written, key: Key): Read<int> {
    match w
    case Absent => Ok(0)
    case Garbled => Err(key)
    case Duration(d) => if d < 0 then Err(key) else Ok(d)
  }

  function ApplyAdvanced(f: FileAdvanced): Read<Advanced> {
    var smax := ReadPlain(f.switchWindowMax, Adv(KeySwitchWindowMax), 0);
    var rmax := ReadPlain(f.redialWindowMax, Adv(KeyRedialWindowMax), 0);
    var fresh_ := ReadPlain(f.commandFreshness, Adv(KeyCommandFreshness), 0);
    var disc := ReadPlain(f.windowDiscoveryInterval, Adv(KeyWindowDiscoveryInterval), 0);
    var prune := ReadPlain(f.tunnelPruneAfter, Adv(KeyTunnelPruneAfter), 0);
    var ttl := ReadPlain(f.learnedEndpointTTL, Adv(KeyLearnedEndpointTTL), 0);
    var uptime := ReadOptOut(f.redialMinUptime, Adv(KeyRedialMinUptime));
    var verify := ReadOptOut(f.verifyInterval, Adv(KeyVerifyInterval));
    var budget := ReadLimit(f.redialBudget, Adv(KeyRedialBudget));
    var bwin := ReadLimit(f.redialBudgetWindow, Adv(KeyRedialBudgetWindow));
    if smax.Err? then Err(smax.error)
    else if rmax.Err? then Err(rmax.error)
    else if fresh_.Err? then Err(fresh_.error)
    else if disc.Err? then Err(disc.error)
    else if prune.Err? then Err(prune.error)
    else if ttl.Err? then Err(ttl.error)
    else if uptime.Err? then Err(uptime.error)
    else if verify.Err? then Err(verify.error)
    else if budget.Err? then Err(budget.error)
    else if bwin.Err? then Err(bwin.error)
    else Ok(Advanced(smax.value, rmax.value, fresh_.value, disc.value, prune.value, ttl.value,
      f.learnedMaxPerProfile, f.promoteAfterRefreshes, f.endpointWarnThreshold,
      verify.value, Given(f.livenessRedial, false), uptime.value, budget.value, bwin.value,
      f.windowProtocols, f.windowPorts))
  }

  function ReadProfiles(ps: seq<FileProfile>): (r: seq<Profile>)
    ensures |r| == |ps|
  {
    seq(|ps|, i requires 0 <= i < |ps| => Profile(ps[i].name, ps[i].endpoints, ps[i].tunnelHint))
  }

  function ApplyVPN(f: FileVPN): Read<VPN> {
    var refresh := ReadPlain(f.endpointRefresh, Vpn(KeyEndpointRefresh), 0);
    var grace := ReadNonNegative(f.endpointGrace, Vpn(KeyEndpointGrace));
    var watch := ReadPlain(f.tunnelWatch, Vpn(KeyTunnelWatch), 0);
    var sw := ReadOptOut(f.switchWindow, Vpn(KeySwitchWindow));
    var rw := ReadOptOut(f.redialWindow, Vpn(KeyRedialWindow));
    var pause := ReadOptOut(f.pauseMax, Vpn(KeyPauseMax));
    var adv := if f.advanced.Some? then ApplyAdvanced(f.advanced.value) else Ok(ZERO_ADVANCED);
    if refresh.Err? then Err(refresh.error)
    else if grace.Err? then Err(grace.error)
    else if watch.Err? then Err(watch.error)
    else if sw.Err? then Err(sw.error)
    else if rw.Err? then Err(rw.error)
    else if pause.Err? then Err(pause.error)
    else if adv.Err? then Err(adv.error)
    else Ok(VPN(f.tunnelInterfaces, f.endpoints,
      Given(f.autoDetect, true), Given(f.autoDiscoverEndpoints, true), Given(f.allowPhysicalDNS, true),
      Given(f.allowGeoProviders, true), Given(f.allowLocalNetwork, true), Given(f.autoArm, true),
      Given(f.armAtBoot, true), refresh.value, grace.value, watch.value, ReadProfiles(f.profiles),
      sw.value, rw.value, pause.value, adv.value))
  }

  function ApplyControl(c: Control, f: FileControl): Control {
    Control(Given(f.enabled, c.enabled),
      if f.socket != "" then f.socket else c.socket,
      Given(f.group, c.group),
      Given(f.allowSwitchOps, c.allowSwitchOps),
      Given(f.allowPauseOps, c.allowPauseOps),
      Given(f.allowConfigOps, c.allowConfigOps))
  }

  function RetiredKeys(f: FileConfig): seq<string> {
    (if f.failClosed.Some? then ["failClosed"] else [])
    + (if f.allowlist then ["allowlist"] else [])
    + (if f.vpn.Some? && f.vpn.value.enabled.Some? then ["vpn.enabled"] else [])
  }

  // A present key overlays `c`; an absent one leaves it. A vpn block replaces the whole of
  // c.vpn, its absent keys taking the block's own defaults.
  function Apply(c: Config, f: FileConfig): Read<Config> {
    var poll := ReadPlain(f.pollInterval, Main(KeyPollInterval), c.pollInterval);
    var vpn := if f.vpn.Some? then ApplyVPN(f.vpn.value) else Ok(c.vpn);
    if poll.Err? then Err(poll.error)
    else if vpn.Err? then Err(vpn.error)
    else Ok(Config(
      poll.value,
      if f.blockedCountries.Some? then f.blockedCountries else c.blockedCountries,
      Given(f.hysteresis, c.hysteresis),
      if f.providers.Some? then f.providers else c.providers,
      Given(f.providerQuorum, c.providerQuorum),
      if f.logLevel != "" then f.logLevel else c.logLevel,
      vpn.value,
      if f.control.Some? then ApplyControl(c.control, f.control.value) else c.control,
      c.retired + RetiredKeys(f)))
  }

  // The overlay as it is done, on the config itself. An error stops it half way, and the caller
  // throws that config away.
  method ApplyInPlace(ref: ConfigRef, f: FileConfig) returns (err: Option<Key>)
    modifies ref
    ensures match Apply(old(ref.c), f)
            case Ok(c) => err == None && ref.c == c
            case Err(k) => err == Some(k)
  {
    hide ApplyVPN, ApplyControl, RetiredKeys;
    ghost var was := ref.c;
    match f.pollInterval {
      case Absent =>
      case Garbled => return Some(Main(KeyPollInterval));
      case Duration(d) => ref.c := ref.c.(pollInterval := d);
    }
    ghost var poll := ReadPlain(f.pollInterval, Main(KeyPollInterval), was.pollInterval).value;
    assert ref.c == was.(pollInterval := poll);
    ScalarsInPlace(ref, f);
    if f.vpn.Some? {
      match ApplyVPN(f.vpn.value) {
        case Err(k) => return Some(k);
        case Ok(v) => ref.c := ref.c.(vpn := v);
      }
    }
    ghost var vpn := if f.vpn.Some? then ApplyVPN(f.vpn.value).value else was.vpn;
    assert ref.c == Scalars(was.(pollInterval := poll), f).(vpn := vpn);
    if f.control.Some? {
      var control := ControlInPlace(ref.c.control, f.control.value);
      ref.c := ref.c.(control := control);
    }
    var retired := NoteRetired(f);
    ref.c := ref.c.(retired := ref.c.retired + retired);
    err := None;
  }

  // The keys beside the two blocks and the poll interval.
  function Scalars(c: Config, f: FileConfig): Config {
    c.(blockedCountries := if f.blockedCountries.Some? then f.blockedCountries else c.blockedCountries,
       hysteresis := Given(f.hysteresis, c.hysteresis),
       providers := if f.providers.Some? then f.providers else c.providers,
       providerQuorum := Given(f.providerQuorum, c.providerQuorum),
       logLevel := if f.logLevel != "" then f.logLevel else c.logLevel)
  }

  method ScalarsInPlace(ref: ConfigRef, f: FileConfig)
    modifies ref
    ensures ref.c == Scalars(old(ref.c), f)
  {
    hide Given;
    var c := ref.c;
    var blocked, providers, level := c.blockedCountries, c.providers, c.logLevel;
    if f.blockedCountries.Some? {
      blocked := f.blockedCountries;
    }
    var hysteresis := Overlay(f.hysteresis, c.hysteresis);
    if f.providers.Some? {
      providers := f.providers;
    }
    var quorum := Overlay(f.providerQuorum, c.providerQuorum);
    if f.logLevel != "" {
      level := f.logLevel;
    }
    ref.c := c.(blockedCountries := blocked, hysteresis := hysteresis, providers := providers,
                providerQuorum := quorum, logLevel := level);
  }

  method NoteRetired(f: FileConfig) returns (retired: seq<string>)
    ensures retired == RetiredKeys(f)
  {
    retired := [];
    if f.failClosed.Some? {
      retired := retired + ["failClosed"];
    }
    if f.allowlist {
      retired := retired + ["allowlist"];
    }
    if f.vpn.Some? && f.vpn.value.enabled.Some? {
      retired := retired + ["vpn.enabled"];
    }
  }

  // A present key overwrites; an absent one does not.
  method Overlay<T>(o: Option<T>, before: T) returns (r: T)
    ensures r == Given(o, before)
  {
    r := before;
    if o.Some? {
      r := o.value;
    }
  }

  method ControlInPlace(before: Control, f: FileControl) returns (c: Control)
    ensures c == ApplyControl(before, f)
  {
    hide Given;
    var enabled := Overlay(f.enabled, before.enabled);
    var socket := before.socket;
    if f.socket != "" {
      socket := f.socket;
    }
    var group := Overlay(f.group, before.group);
    var switch_ := Overlay(f.allowSwitchOps, before.allowSwitchOps);
    var config := Overlay(f.allowConfigOps, before.allowConfigOps);
    var pause := Overlay(f.allowPauseOps, before.allowPauseOps);
    c := Control(enabled, socket, group, switch_, pause, config);
  }

  // ---- to disk ----

  function DurString(d: int): Written {
    if d <= 0 then Absent else Duration(d)
  }

  function OptDurString(d: int): Written {
    if d < 0 then Duration(0) else DurString(d)
  }

  // Only what differs from the default is written.
  function Unless(d: int, default_: int, w: Written): Written {
    if d != default_ then w else Absent
  }

  function UnlessInt(n: int, default_: int): int {
    if n != default_ then n else 0
  }

  predicate AllDefault(a: Advanced) {
    && |a.windowProtocols| == 0 && |a.windowPorts| == 0
    && a.switchWindowMax == DEFAULT_SWITCH_WINDOW_MAX
    && a.redialWindowMax == DEFAULT_REDIAL_WINDOW_MAX
    && a.commandFreshness == DEFAULT_COMMAND_FRESHNESS
    && a.windowDiscoveryInterval == DEFAULT_WINDOW_DISCOVERY_INTERVAL
    && a.tunnelPruneAfter == DEFAULT_TUNNEL_PRUNE_AFTER
    && a.learnedEndpointTTL == DEFAULT_LEARNED_ENDPOINT_TTL
    && a.learnedMaxPerProfile == DEFAULT_LEARNED_MAX_PER_PROFILE
    && a.promoteAfterRefreshes == DEFAULT_PROMOTE_AFTER_REFRESHES
    && a.endpointWarnThreshold == DEFAULT_ENDPOINT_WARN_THRESHOLD
    && a.redialMinUptime == DEFAULT_REDIAL_MIN_UPTIME
    && a.verifyInterval == DEFAULT_VERIFY_INTERVAL
    && a.redialBudget == DEFAULT_REDIAL_BUDGET
    && a.redialBudgetWindow == DEFAULT_REDIAL_BUDGET_WINDOW
    && !a.livenessRedial
  }

  function ToFileAdvanced(a: Advanced): Option<FileAdvanced> {
    if AllDefault(a) then None
    else Some(FileAdvanced(
      Unless(a.switchWindowMax, DEFAULT_SWITCH_WINDOW_MAX, DurString(a.switchWindowMax)),
      Unless(a.redialWindowMax, DEFAULT_REDIAL_WINDOW_MAX, DurString(a.redialWindowMax)),
      Unless(a.commandFreshness, DEFAULT_COMMAND_FRESHNESS, DurString(a.commandFreshness)),
      Unless(a.windowDiscoveryInterval, DEFAULT_WINDOW_DISCOVERY_INTERVAL, DurString(a.windowDiscoveryInterval)),
      Unless(a.tunnelPruneAfter, DEFAULT_TUNNEL_PRUNE_AFTER, DurString(a.tunnelPruneAfter)),
      Unless(a.learnedEndpointTTL, DEFAULT_LEARNED_ENDPOINT_TTL, DurString(a.learnedEndpointTTL)),
      UnlessInt(a.learnedMaxPerProfile, DEFAULT_LEARNED_MAX_PER_PROFILE),
      UnlessInt(a.promoteAfterRefreshes, DEFAULT_PROMOTE_AFTER_REFRESHES),
      UnlessInt(a.endpointWarnThreshold, DEFAULT_ENDPOINT_WARN_THRESHOLD),
      Unless(a.verifyInterval, DEFAULT_VERIFY_INTERVAL, OptDurString(a.verifyInterval)),
      if a.livenessRedial then Some(true) else None,
      a.windowProtocols,
      a.windowPorts,
      Unless(a.redialMinUptime, DEFAULT_REDIAL_MIN_UPTIME, OptDurString(a.redialMinUptime)),
      Unless(a.redialBudget, DEFAULT_REDIAL_BUDGET, DurString(a.redialBudget)),
      Unless(a.redialBudgetWindow, DEFAULT_REDIAL_BUDGET_WINDOW, DurString(a.redialBudgetWindow))))
  }

  function ToFileProfiles(ps: seq<Profile>): (r: seq<FileProfile>)
    ensures |r| == |ps|
  {
    seq(|ps|, i requires 0 <= i < |ps| => FileProfile(ps[i].name, ps[i].endpoints, ps[i].tunnelHint))
  }

  function ToFileVPN(v: VPN): FileVPN {
    FileVPN(None, v.tunnelInterfaces, v.endpoints,
      Some(v.autoDetect), Some(v.autoDiscoverEndpoints), Some(v.allowPhysicalDNS), Some(v.allowGeoProviders),
      Some(v.allowLocalNetwork), Some(v.autoArm), Some(v.armAtBoot),
      Duration(v.endpointRefresh), DurString(v.endpointGrace), Duration(v.tunnelWatch),
      ToFileProfiles(v.profiles),
      OptDurString(v.switchWindow), OptDurString(v.redialWindow), OptDurString(v.pauseMax),
      ToFileAdvanced(v.advanced))
  }

  function ToFileConfig(c: Config): FileConfig {
    FileConfig(Duration(c.pollInterval), c.blockedCountries, None, Some(c.hysteresis), c.providers, false,
      Some(c.providerQuorum), c.logLevel, Some(ToFileVPN(c.vpn)),
      Some(FileControl(Some(c.control.enabled), c.control.socket, Some(c.control.group),
        Some(c.control.allowSwitchOps), Some(c.control.allowPauseOps), Some(c.control.allowConfigOps))))
  }

  // ---- there and back ----

  datatype LoadError = Refused(key: Key) | Rejected

  function Load(f: FileConfig, b: Build, plausible: string -> bool): Result<Config, LoadError> {
    match Apply(Default(b), f)
    case Err(k) => Err(Refused(k))
    case Ok(c) => if Valid(Normal(c), plausible) then Ok(Normal(c)) else Err(Rejected)
  }

  // The whole of loading, as it is done: overlay the defaults, normalise, validate.
  method ReadConfig(f: FileConfig, b: Build, plausible: string -> bool) returns (r: Result<Config, LoadError>)
    ensures r == Load(f, b, plausible)
  {
    hide Apply, Default, Normal, Valid;
    var ref := new ConfigRef(Default(b));
    var refused := ApplyInPlace(ref, f);
    if refused.Some? {
      return Err(Refused(refused.value));
    }
    ref.Normalize();
    var invalid := Validate(ref.c, plausible);
    r := if invalid.None? then Ok(ref.c) else Err(Rejected);
  }

  predicate IsNormal(c: Config) {
    Normal(c) == c
  }

  // The one negative value that can be told from a number on disk.
  predicate OptOut(d: int) {
    d < 0 ==> d == DISABLED
  }

  // What a config must look like for the file to say everything about it.
  predicate Storable(c: Config) {
    && c.logLevel != ""
    && OptOut(c.vpn.switchWindow) && OptOut(c.vpn.redialWindow) && OptOut(c.vpn.pauseMax)
    && OptOut(c.vpn.advanced.redialMinUptime) && OptOut(c.vpn.advanced.verifyInterval)
  }

  // What comes back when it does not: the default level, and the one sentinel.
  function Restored(d: int): int {
    if d < 0 then DISABLED else d
  }

  function AsStored(c: Config): Config {
    c.(retired := [],
       logLevel := if c.logLevel != "" then c.logLevel else "info",
       vpn := RestoringVPN(c.vpn))
  }

  // One key there and back: an ordinary duration, an opt-out, a limit, a count.
  lemma PlainKey(d: int, default_: int, key: Key)
    requires d > 0
    ensures var r := ReadPlain(Unless(d, default_, DurString(d)), key, 0);
            r.Ok? && Positive(r.value, default_) == d
  {
  }

  lemma OptOutKey(d: int, default_: int, key: Key)
    requires d != 0
    ensures default_ > 0 ==>
              var r := ReadOptOut(Unless(d, default_, OptDurString(d)), key);
              r.Ok? && NonZero(r.value, default_) == Restored(d)
    ensures var r := ReadOptOut(OptDurString(d), key);
            r.Ok? && r.value == Restored(d)
  {
  }

  lemma LimitKey(d: int, default_: int, key: Key)
    requires d > 0
    ensures var r := ReadLimit(Unless(d, default_, DurString(d)), key);
            r.Ok? && Positive(r.value, default_) == d
  {
  }

  lemma CountKey(n: int, default_: int)
    requires n > 0
    ensures Positive(UnlessInt(n, default_), default_) == n
  {
  }

  function Restoring(a: Advanced): Advanced {
    a.(redialMinUptime := Restored(a.redialMinUptime), verifyInterval := Restored(a.verifyInterval))
  }

  lemma AdvancedRoundTrip(a: Advanced)
    requires NormalAdvanced(a) == a
    ensures match ToFileAdvanced(a)
            case None => NormalAdvanced(ZERO_ADVANCED) == Restoring(a)
            case Some(f) => ApplyAdvanced(f).Ok? && NormalAdvanced(ApplyAdvanced(f).value) == Restoring(a)
  {
    if AllDefault(a) {
      assert CleanProtocols([]) == [] && a.windowProtocols == [] && a.windowPorts == [];
    } else {
      PlainKey(a.switchWindowMax, DEFAULT_SWITCH_WINDOW_MAX, Adv(KeySwitchWindowMax));
      PlainKey(a.redialWindowMax, DEFAULT_REDIAL_WINDOW_MAX, Adv(KeyRedialWindowMax));
      PlainKey(a.commandFreshness, DEFAULT_COMMAND_FRESHNESS, Adv(KeyCommandFreshness));
      PlainKey(a.windowDiscoveryInterval, DEFAULT_WINDOW_DISCOVERY_INTERVAL, Adv(KeyWindowDiscoveryInterval));
      PlainKey(a.tunnelPruneAfter, DEFAULT_TUNNEL_PRUNE_AFTER, Adv(KeyTunnelPruneAfter));
      PlainKey(a.learnedEndpointTTL, DEFAULT_LEARNED_ENDPOINT_TTL, Adv(KeyLearnedEndpointTTL));
      CountKey(a.learnedMaxPerProfile, DEFAULT_LEARNED_MAX_PER_PROFILE);
      CountKey(a.promoteAfterRefreshes, DEFAULT_PROMOTE_AFTER_REFRESHES);
      CountKey(a.endpointWarnThreshold, DEFAULT_ENDPOINT_WARN_THRESHOLD);
      OptOutKey(a.verifyInterval, DEFAULT_VERIFY_INTERVAL, Adv(KeyVerifyInterval));
      OptOutKey(a.redialMinUptime, DEFAULT_REDIAL_MIN_UPTIME, Adv(KeyRedialMinUptime));
      LimitKey(a.redialBudget, DEFAULT_REDIAL_BUDGET, Adv(KeyRedialBudget));
      LimitKey(a.redialBudgetWindow, DEFAULT_REDIAL_BUDGET_WINDOW, Adv(KeyRedialBudgetWindow));
      hide ReadPlain, ReadOptOut, ReadLimit, Unless, UnlessInt, DurString, OptDurString, CleanProtocols,
        Positive, NonZero, Restored;
    }
  }

  function AdvancedBack(a: Advanced): Read<Advanced> {
    match ToFileAdvanced(a)
    case None => Ok(ZERO_ADVANCED)
    case Some(f) => ApplyAdvanced(f)
  }

  function RestoringVPN(v: VPN): VPN {
    v.(switchWindow := Restored(v.switchWindow),
       redialWindow := Restored(v.redialWindow),
       pauseMax := Restored(v.pauseMax),
       advanced := Restoring(v.advanced))
  }

  lemma ProfilesReadBack(ps: seq<Profile>)
    ensures ReadProfiles(ToFileProfiles(ps)) == ps
  {
  }

  lemma ReadBackVPN(v: VPN)
    requires v.endpointGrace > 0 && v.switchWindow != 0 && v.redialWindow != 0 && v.pauseMax != 0
    requires AdvancedBack(v.advanced).Ok?
    ensures ApplyVPN(ToFileVPN(v)) == Ok(RestoringVPN(v).(advanced := AdvancedBack(v.advanced).value))
  {
    ProfilesReadBack(v.profiles);
    OptOutKey(v.switchWindow, 0, Vpn(KeySwitchWindow));
    OptOutKey(v.redialWindow, 0, Vpn(KeyRedialWindow));
    OptOutKey(v.pauseMax, 0, Vpn(KeyPauseMax));
    hide ReadOptOut, OptDurString, ApplyAdvanced, ToFileAdvanced, Restored, ReadProfiles, ToFileProfiles;
  }

  lemma RestoredIsNormal(v: VPN, a: Advanced)
    requires NormalVPN(v) == v && NormalAdvanced(a) == Restoring(v.advanced)
    ensures NormalVPN(RestoringVPN(v).(advanced := a)) == RestoringVPN(v)
  {
    hide NormalAdvanced, CleanProfiles, TrimAll;
  }

  lemma VPNRoundTrip(v: VPN)
    requires NormalVPN(v) == v
    ensures var r := ApplyVPN(ToFileVPN(v));
            r.Ok? && NormalVPN(r.value) == RestoringVPN(v)
  {
    AdvancedRoundTrip(v.advanced);
    ReadBackVPN(v);
    RestoredIsNormal(v, AdvancedBack(v.advanced).value);
    hide ApplyVPN, ToFileVPN, ApplyAdvanced, ToFileAdvanced, NormalAdvanced, RestoringVPN;
  }

  // Saving a normal, valid config and loading it again gives, key for key, AsStored.
  lemma SaveLoad(c: Config, b: Build, plausible: string -> bool)
    requires IsNormal(c) && Valid(c, plausible)
    ensures var r := Apply(Default(b), ToFileConfig(c));
            r.Ok? && Normal(r.value) == AsStored(c)
  {
    VPNRoundTrip(c.vpn);
    ReadBack(c, b);
    InfoIsNormal();
    hide Valid, Apply, ToFileConfig, ApplyVPN, ToFileVPN, NormalVPN, RestoringVPN, NormalCountries, Trim, Lower;
  }

  lemma ReadBack(c: Config, b: Build)
    requires c.providers.Some? && c.blockedCountries.Some?
    requires ApplyVPN(ToFileVPN(c.vpn)).Ok?
    ensures Apply(Default(b), ToFileConfig(c)) ==
              Ok(AsStored(c).(vpn := ApplyVPN(ToFileVPN(c.vpn)).value))
  {
    assert Default(b).retired + RetiredKeys(ToFileConfig(c)) == [];
    hide ApplyVPN, ToFileVPN, RestoringVPN;
  }

  lemma InfoIsNormal()
    ensures Lower(Trim("info")) == "info"
  {
    TrimmedStays("info");
    assert Lower("info") == "info";
  }

  // So the round trip is exact for the configs the file can express, and for no others.
  lemma RoundTripIff(c: Config, b: Build, plausible: string -> bool)
    requires IsNormal(c) && Valid(c, plausible)
    ensures Load(ToFileConfig(c), b, plausible) == Ok(c.(retired := [])) <==> Storable(c)
  {
    SavedConfigsLoad(c, b, plausible);
    assert AsStored(c) == c.(retired := []) <==> Storable(c);
    hide Load, ToFileConfig, Normal, Valid;
  }

  // Everything Save writes loads: an opt-out it cannot spell comes back as the sentinel.
  lemma SavedConfigsLoad(c: Config, b: Build, plausible: string -> bool)
    requires IsNormal(c) && Valid(c, plausible)
    ensures Load(ToFileConfig(c), b, plausible) == Ok(AsStored(c))
  {
    SaveLoad(c, b, plausible);
    StoredIsValid(c, plausible);
    hide Apply, ToFileConfig, Normal, Valid, AsStored;
  }

  lemma StoredIsValid(c: Config, plausible: string -> bool)
    requires Valid(c, plausible)
    ensures Valid(AsStored(c), plausible)
  {
    hide ValidProfiles, ValidAdvanced;
    assert ValidAdvanced(Restoring(c.vpn.advanced)) by {
      ValidAdvancedLocal(c.vpn.advanced, Restoring(c.vpn.advanced));
    }
  }

  lemma ValidAdvancedLocal(a: Advanced, a': Advanced)
    requires ValidAdvanced(a) && a.windowProtocols == a'.windowProtocols && a.windowPorts == a'.windowPorts
    ensures ValidAdvanced(a')
  {
  }

  // ---- absent, empty, and off are three different things ----

  // On one block: a key left out takes its default, "0" turns the feature off and stays off,
  // a limit's "0" is refused, and an empty blocklist blocks nothing.
  lemma OptOutsSurvive(f: FileConfig, b: Build)
    requires Apply(Default(b), f).Ok?
    ensures var c := Normal(Apply(Default(b), f).value);
            && (f.blockedCountries == None ==> c.blockedCountries == Some(DEFAULT_BLOCKED))
            && (f.blockedCountries == Some([]) ==> c.blockedCountries == Some([]))
            && (f.vpn == None ==> c.vpn.switchWindow == DEFAULT_SWITCH_WINDOW
                                  && c.vpn.redialWindow == DEFAULT_REDIAL_WINDOW
                                  && c.vpn.pauseMax == DEFAULT_PAUSE_MAX)
            && (f.vpn.Some? ==>
                  && c.vpn.switchWindow == OffOr(f.vpn.value.switchWindow, DEFAULT_SWITCH_WINDOW)
                  && c.vpn.redialWindow == OffOr(f.vpn.value.redialWindow, DEFAULT_REDIAL_WINDOW)
                  && c.vpn.pauseMax == OffOr(f.vpn.value.pauseMax, DEFAULT_PAUSE_MAX))
  {
    hide ApplyAdvanced, ApplyControl, NormalAdvanced, CleanProfiles, TrimAll, ReadProfiles, Trim, Lower, RetiredKeys;
  }

  function OffOr(w: Written, default_: int): int {
    match w
    case Duration(0) => DISABLED
    case Duration(d) => d
    case _ => default_
  }

  lemma LimitsRefuseZero(f: FileConfig, b: Build)
    requires f.vpn.Some? && f.vpn.value.advanced.Some?
    requires var a := f.vpn.value.advanced.value;
             (a.redialBudget.Duration? && a.redialBudget.d <= 0) ||
             (a.redialBudgetWindow.Duration? && a.redialBudgetWindow.d <= 0)
    ensures Apply(Default(b), f).Err?
  {
  }
}
