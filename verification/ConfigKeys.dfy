// What every key of a config file becomes once the file is loaded, written or left out, and
// which keys a file is refused for.

module ConfigKeys {
  import opened Basics
  import opened Text
  import opened Config
  import opened ConfigFile

  // ---- one key ----

  function FlagOr(o: Option<bool>, default_: bool): bool {
    if o == Some(true) then true else if o == Some(false) then false else default_
  }

  // An ordinary duration or count: what is written, unless it is not positive.
  function PositiveOr(w: Written, default_: int): int {
    if w.Duration? && w.d > 0 then w.d else default_
  }

  function CountOr(n: int, default_: int): int {
    if n > 0 then n else default_
  }

  // A feature's duration: what is written, zero being off, or the default.
  function FeatureOr(w: Written, default_: int): int {
    if !w.Duration? then default_ else if w.d == 0 then DISABLED else w.d
  }

  // ---- the keys of each block ----

  // A block left out is a block with everything left out.
  const NO_ADVANCED: FileAdvanced :=
    FileAdvanced(Absent, Absent, Absent, Absent, Absent, Absent, 0, 0, 0, Absent, None, [], [], Absent, Absent, Absent)

  const NO_VPN: FileVPN :=
    FileVPN(None, [], [], None, None, None, None, None, None, None,
      Absent, Absent, Absent, [], Absent, Absent, Absent, None)

  const NO_CONTROL: FileControl := FileControl(None, "", None, None, None, None)

  ghost predicate MainKeysRead(f: FileConfig, b: Build, c: Config) {
    && c.pollInterval == (if f.pollInterval.Duration? then f.pollInterval.d else 15 * SECOND)
    && c.hysteresis == (if f.hysteresis.Some? then f.hysteresis.value else 2)
    && c.providers == (if f.providers.Some? then f.providers else Some(b.providers))
    && c.providerQuorum == FlagOr(f.providerQuorum, false)
    && c.logLevel == (if f.logLevel == "" then "info" else Lower(Trim(f.logLevel)))
    && c.blockedCountries.Some?
    && (f.blockedCountries.None? ==> c.blockedCountries.value == ["IR", "RU", "KP"])
    && (f.blockedCountries.Some? ==>
          && CleanList(c.blockedCountries.value)
          && forall u :: u in c.blockedCountries.value <==>
                           u != "" && exists code <- f.blockedCountries.value :: Upper(Trim(code)) == u)
  }

  // The keys of old that are still recognised are reported, and nothing else is.
  ghost predicate RetiredRead(f: FileConfig, retired: seq<string>) {
    forall key :: key in retired <==>
      || (key == "failClosed" && f.failClosed.Some?)
      || (key == "allowlist" && f.allowlist)
      || (key == "vpn.enabled" && f.vpn.Some? && f.vpn.value.enabled.Some?)
  }

  predicate FlagsRead(f: FileVPN, v: VPN) {
    && v.autoDetect == FlagOr(f.autoDetect, true)
    && v.autoDiscoverEndpoints == FlagOr(f.autoDiscoverEndpoints, true)
    && v.allowPhysicalDNS == FlagOr(f.allowPhysicalDNS, true)
    && v.allowGeoProviders == FlagOr(f.allowGeoProviders, true)
    && v.allowLocalNetwork == FlagOr(f.allowLocalNetwork, true)
    && v.autoArm == FlagOr(f.autoArm, true)
    && v.armAtBoot == FlagOr(f.armAtBoot, true)
  }

  predicate DurationsRead(f: FileVPN, v: VPN) {
    && v.endpointRefresh == PositiveOr(f.endpointRefresh, DEFAULT_ENDPOINT_REFRESH)
    && v.endpointGrace == PositiveOr(f.endpointGrace, DEFAULT_ENDPOINT_GRACE)
    && v.tunnelWatch == PositiveOr(f.tunnelWatch, DEFAULT_TUNNEL_WATCH)
    && v.switchWindow == FeatureOr(f.switchWindow, DEFAULT_SWITCH_WINDOW)
    && v.redialWindow == FeatureOr(f.redialWindow, DEFAULT_REDIAL_WINDOW)
    && v.pauseMax == FeatureOr(f.pauseMax, DEFAULT_PAUSE_MAX)
  }

  predicate TrimmedFrom(out: seq<string>, ss: seq<string>) {
    |out| == |ss| && forall i :: 0 <= i < |ss| ==> out[i] == Trim(ss[i])
  }

  predicate ListsRead(f: FileVPN, v: VPN) {
    && TrimmedFrom(v.tunnelInterfaces, f.tunnelInterfaces)
    && TrimmedFrom(v.endpoints, f.endpoints)
    && |v.profiles| == |f.profiles|
    && forall i :: 0 <= i < |f.profiles| ==>
         && v.profiles[i].name == Trim(f.profiles[i].name)
         && v.profiles[i].tunnelHint == Trim(f.profiles[i].tunnelHint)
         && TrimmedFrom(v.profiles[i].endpoints, f.profiles[i].endpoints)
  }

  predicate AdvancedRead(f: FileAdvanced, a: Advanced) {
    && a.switchWindowMax == PositiveOr(f.switchWindowMax, DEFAULT_SWITCH_WINDOW_MAX)
    && a.redialWindowMax == PositiveOr(f.redialWindowMax, DEFAULT_REDIAL_WINDOW_MAX)
    && a.commandFreshness == PositiveOr(f.commandFreshness, DEFAULT_COMMAND_FRESHNESS)
    && a.windowDiscoveryInterval == PositiveOr(f.windowDiscoveryInterval, DEFAULT_WINDOW_DISCOVERY_INTERVAL)
    && a.tunnelPruneAfter == PositiveOr(f.tunnelPruneAfter, DEFAULT_TUNNEL_PRUNE_AFTER)
    && a.learnedEndpointTTL == PositiveOr(f.learnedEndpointTTL, DEFAULT_LEARNED_ENDPOINT_TTL)
    && a.redialBudget == PositiveOr(f.redialBudget, DEFAULT_REDIAL_BUDGET)
    && a.redialBudgetWindow == PositiveOr(f.redialBudgetWindow, DEFAULT_REDIAL_BUDGET_WINDOW)
    && a.verifyInterval == FeatureOr(f.verifyInterval, DEFAULT_VERIFY_INTERVAL)
    && a.redialMinUptime == FeatureOr(f.redialMinUptime, DEFAULT_REDIAL_MIN_UPTIME)
    && a.learnedMaxPerProfile == CountOr(f.learnedMaxPerProfile, DEFAULT_LEARNED_MAX_PER_PROFILE)
    && a.promoteAfterRefreshes == CountOr(f.promoteAfterRefreshes, DEFAULT_PROMOTE_AFTER_REFRESHES)
    && a.endpointWarnThreshold == CountOr(f.endpointWarnThreshold, DEFAULT_ENDPOINT_WARN_THRESHOLD)
    && a.livenessRedial == FlagOr(f.livenessRedial, false)
    && a.windowPorts == f.windowPorts
    && |a.windowProtocols| == |f.windowProtocols|
    && forall i :: 0 <= i < |f.windowProtocols| ==> a.windowProtocols[i] == Lower(Trim(f.windowProtocols[i]))
  }

  predicate ControlRead(f: FileControl, b: Build, c: Control) {
    && c.enabled == FlagOr(f.enabled, true)
    && c.socket == f.socket
    && c.group == (if f.group.Some? then f.group.value else b.group)
    && c.allowSwitchOps == FlagOr(f.allowSwitchOps, true)
    && c.allowPauseOps == FlagOr(f.allowPauseOps, true)
    && c.allowConfigOps == FlagOr(f.allowConfigOps, true)
  }

  // ---- what loads is what was written ----

  lemma {:induction false} CountriesMembers(cs: seq<string>, u: string)
    ensures u in Countries(cs) <==> u != "" && exists code <- cs :: Upper(Trim(code)) == u
  {
    if |cs| > 0 {
      var front, last := cs[..|cs| - 1], cs[|cs| - 1];
      CountriesMembers(front, u);
      assert cs == front + [last];
      hide Upper, Trim;
    }
  }

  lemma RetiredIsRead(f: FileConfig, b: Build)
    requires Apply(Default(b), f).Ok?
    ensures RetiredRead(f, Normal(Apply(Default(b), f).value).retired)
  {
    hide ApplyVPN, ApplyControl, NormalVPN, NormalCountries, Trim, Lower, RetiredKeys;
    assert [] + RetiredKeys(f) == RetiredKeys(f);
    assert Normal(Apply(Default(b), f).value).retired == RetiredKeys(f);
    RetiredKeysAre(f);
    hide RetiredRead, Normal, Apply;
  }

  lemma RetiredKeysAre(f: FileConfig)
    ensures RetiredRead(f, RetiredKeys(f))
  {
  }

  lemma MainIsRead(f: FileConfig, b: Build)
    requires Apply(Default(b), f).Ok?
    ensures MainKeysRead(f, b, Normal(Apply(Default(b), f).value))
  {
    hide ApplyVPN, ApplyControl, NormalVPN, CleanList, Upper, RetiredKeys;
    if f.blockedCountries.Some? {
      CountriesAreClean(f.blockedCountries.value);
      forall u { CountriesMembers(f.blockedCountries.value, u); }
    }
    InfoIsNormal();
    hide Trim, Lower, Countries;
  }

  lemma VPNIsRead(f: FileVPN)
    requires ApplyVPN(f).Ok?
    ensures var v := NormalVPN(ApplyVPN(f).value); FlagsRead(f, v) && DurationsRead(f, v) && ListsRead(f, v)
  {
    hide NormalAdvanced, ApplyAdvanced, Trim;
  }

  lemma AdvancedIsRead(f: FileAdvanced)
    requires ApplyAdvanced(f).Ok?
    ensures AdvancedRead(f, NormalAdvanced(ApplyAdvanced(f).value))
  {
    hide Trim, Lower;
  }

  lemma ControlIsRead(f: FileControl, b: Build)
    ensures ControlRead(f, b, ApplyControl(Default(b).control, f))
  {
  }

  // A block left out reads as one with everything left out.
  lemma NothingIsRead(b: Build)
    ensures ApplyVPN(NO_VPN) == Ok(DEFAULT_VPN)
    ensures ApplyAdvanced(NO_ADVANCED) == Ok(ZERO_ADVANCED)
    ensures ApplyControl(Default(b).control, NO_CONTROL) == Default(b).control
  {
    assert ReadProfiles([]) == [];
  }

  function VPNOf(f: FileConfig): FileVPN {
    if f.vpn.Some? then f.vpn.value else NO_VPN
  }

  function AdvancedOf(f: FileConfig): FileAdvanced {
    var v := VPNOf(f);
    if v.advanced.Some? then v.advanced.value else NO_ADVANCED
  }

  function ControlOf(f: FileConfig): FileControl {
    if f.control.Some? then f.control.value else NO_CONTROL
  }

  // For every file that loads, and every key: what was written, cleaned, or the key's own
  // default.
  lemma LoadedKeys(f: FileConfig, b: Build, plausible: string -> bool)
    requires Load(f, b, plausible).Ok?
    ensures var c := Load(f, b, plausible).value;
            && MainKeysRead(f, b, c) && RetiredRead(f, c.retired)
            && FlagsRead(VPNOf(f), c.vpn) && DurationsRead(VPNOf(f), c.vpn) && ListsRead(VPNOf(f), c.vpn)
            && AdvancedRead(AdvancedOf(f), c.vpn.advanced)
            && ControlRead(ControlOf(f), b, c.control)
  {
    hide MainKeysRead, RetiredRead, FlagsRead, DurationsRead, ListsRead, AdvancedRead, ControlRead, Valid;
    BlocksLoaded(f, b);
    MainIsRead(f, b);
    RetiredIsRead(f, b);
    VPNIsRead(VPNOf(f));
    AdvancedIsRead(AdvancedOf(f));
    ControlIsRead(ControlOf(f), b);
    hide *;
  }

  lemma BlocksLoaded(f: FileConfig, b: Build)
    requires Apply(Default(b), f).Ok?
    ensures ApplyVPN(VPNOf(f)).Ok? && ApplyAdvanced(AdvancedOf(f)).Ok?
    ensures var c := Normal(Apply(Default(b), f).value);
            && c.vpn == NormalVPN(ApplyVPN(VPNOf(f)).value)
            && c.vpn.advanced == NormalAdvanced(ApplyAdvanced(AdvancedOf(f)).value)
            && c.control == ApplyControl(Default(b).control, ControlOf(f))
  {
    NothingIsRead(b);
    hide NormalAdvanced, ApplyAdvanced, ApplyControl, TrimAll, CleanProfiles, ReadProfiles;
  }

  // ---- what is refused ----

  // A value no key of that kind takes: text that is no duration; for a feature, a negative one;
  // for a limit, one that is not positive.
  predicate BadFeature(w: Written) {
    w.Garbled? || (w.Duration? && w.d < 0)
  }

  predicate BadLimit(w: Written) {
    w.Garbled? || (w.Duration? && w.d <= 0)
  }

  predicate BadVPN(f: FileVPN, k: VPNKey) {
    match k
    case KeyEndpointRefresh => f.endpointRefresh.Garbled?
    case KeyTunnelWatch => f.tunnelWatch.Garbled?
    case KeyEndpointGrace => BadFeature(f.endpointGrace)
    case KeySwitchWindow => BadFeature(f.switchWindow)
    case KeyRedialWindow => BadFeature(f.redialWindow)
    case KeyPauseMax => BadFeature(f.pauseMax)
    case _ => false
  }

  predicate BadAdvanced(f: FileAdvanced, k: AdvancedKey) {
    match k
    case KeySwitchWindowMax => f.switchWindowMax.Garbled?
    case KeyRedialWindowMax => f.redialWindowMax.Garbled?
    case KeyCommandFreshness => f.commandFreshness.Garbled?
    case KeyWindowDiscoveryInterval => f.windowDiscoveryInterval.Garbled?
    case KeyTunnelPruneAfter => f.tunnelPruneAfter.Garbled?
    case KeyLearnedEndpointTTL => f.learnedEndpointTTL.Garbled?
    case KeyRedialMinUptime => BadFeature(f.redialMinUptime)
    case KeyVerifyInterval => BadFeature(f.verifyInterval)
    case KeyRedialBudget => BadLimit(f.redialBudget)
    case KeyRedialBudgetWindow => BadLimit(f.redialBudgetWindow)
    case _ => false
  }

  predicate Bad(f: FileConfig, k: Key) {
    match k
    case Main(m) => m.KeyPollInterval? && f.pollInterval.Garbled?
    case Vpn(v) => BadVPN(VPNOf(f), v)
    case Adv(a) => BadAdvanced(AdvancedOf(f), a)
  }

  lemma AdvancedRefused(f: FileAdvanced)
    ensures match ApplyAdvanced(f)
            case Ok(_) => forall k :: !BadAdvanced(f, k)
            case Err(key) => key.Adv? && BadAdvanced(f, key.adv)
  {
    if ApplyAdvanced(f).Ok? { AdvancedTaken(f); }
  }

  lemma AdvancedTaken(f: FileAdvanced)
    requires ApplyAdvanced(f).Ok?
    ensures forall k :: !BadAdvanced(f, k)
  {
  }

  lemma VPNRefused(f: FileVPN)
    ensures match ApplyVPN(f)
            case Ok(_) =>
              && (forall k :: !BadVPN(f, k))
              && (f.advanced.Some? ==> forall k :: !BadAdvanced(f.advanced.value, k))
            case Err(key) =>
              || (key.Vpn? && BadVPN(f, key.vpn))
              || (key.Adv? && f.advanced.Some? && BadAdvanced(f.advanced.value, key.adv))
  {
    if f.advanced.Some? { AdvancedRefused(f.advanced.value); }
    hide ApplyAdvanced, ReadProfiles;
  }

  lemma NothingIsBad()
    ensures forall k :: !BadVPN(NO_VPN, k)
    ensures forall k :: !BadAdvanced(NO_ADVANCED, k)
  {
  }

  // A file is refused by name exactly when it holds a value its key does not take, and the name
  // is that of such a key.
  lemma RefusedIff(f: FileConfig, b: Build, plausible: string -> bool)
    ensures match Load(f, b, plausible)
            case Err(Refused(key)) => Bad(f, key)
            case _ => forall k :: !Bad(f, k)
  {
    VPNRefused(VPNOf(f));
    NothingIsRead(b);
    NothingIsBad();
    hide ApplyVPN, Valid, Normal, BadVPN, BadAdvanced;
  }
}
