// What a running daemon adopts from an edited config, and what it reports instead.

module Reload {
  import opened Basics
  import opened Text
  import opened Config

  // ---- keys and their values ----

  // A key's value as it is compared and shown. Distinct durations print differently, and the
  // opt-out, shown as "off", like none of them.
  datatype Value = Dur(d: int) | Number(n: int) | Flag(b: bool) | Plain(s: string) | Numbers(ns: seq<int>)

  function Listed(l: Option<seq<string>>): Value {
    match l
    case None => Plain("")
    case Some(ss) => Plain(Join(ss, ","))
  }

  function MainValue(c: Config, k: MainKey): Value {
    match k
    case KeyBlockedCountries => Listed(c.blockedCountries)
    case KeyControlAllowConfigOps => Flag(c.control.allowConfigOps)
    case KeyControlAllowPauseOps => Flag(c.control.allowPauseOps)
    case KeyControlAllowSwitchOps => Flag(c.control.allowSwitchOps)
    case KeyControlEnabled => Flag(c.control.enabled)
    case KeyControlGroup => Plain(c.control.group)
    case KeyControlSocket => Plain(c.control.socket)
    case KeyHysteresis => Number(c.hysteresis)
    case KeyLogLevel => Plain(c.logLevel)
    case KeyPollInterval => Dur(c.pollInterval)
    case KeyProviderQuorum => Flag(c.providerQuorum)
    case KeyProviders => Listed(c.providers)
  }

  function VPNValue(v: VPN, k: VPNKey): Value {
    match k
    case KeyAllowGeoProviders => Flag(v.allowGeoProviders)
    case KeyAllowLocalNetwork => Flag(v.allowLocalNetwork)
    case KeyAllowPhysicalDNS => Flag(v.allowPhysicalDNS)
    case KeyArmAtBoot => Flag(v.armAtBoot)
    case KeyAutoArm => Flag(v.autoArm)
    case KeyAutoDetect => Flag(v.autoDetect)
    case KeyAutoDiscoverEndpoints => Flag(v.autoDiscoverEndpoints)
    case KeyEndpointGrace => Dur(v.endpointGrace)
    case KeyEndpointRefresh => Dur(v.endpointRefresh)
    case KeyEndpoints => Plain(Join(v.endpoints, ","))
    case KeyPauseMax => Dur(v.pauseMax)
    case KeyRedialWindow => Dur(v.redialWindow)
    case KeySwitchWindow => Dur(v.switchWindow)
    case KeyTunnelInterfaces => Plain(Join(v.tunnelInterfaces, ","))
    case KeyTunnelWatch => Dur(v.tunnelWatch)
  }

  function AdvancedValue(a: Advanced, k: AdvancedKey): Value {
    match k
    case KeyCommandFreshness => Dur(a.commandFreshness)
    case KeyEndpointWarnThreshold => Number(a.endpointWarnThreshold)
    case KeyLearnedEndpointTTL => Dur(a.learnedEndpointTTL)
    case KeyLearnedMaxPerProfile => Number(a.learnedMaxPerProfile)
    case KeyLivenessRedial => Flag(a.livenessRedial)
    case KeyPromoteAfterRefreshes => Number(a.promoteAfterRefreshes)
    case KeyRedialBudget => Dur(a.redialBudget)
    case KeyRedialBudgetWindow => Dur(a.redialBudgetWindow)
    case KeyRedialMinUptime => Dur(a.redialMinUptime)
    case KeyRedialWindowMax => Dur(a.redialWindowMax)
    case KeySwitchWindowMax => Dur(a.switchWindowMax)
    case KeyTunnelPruneAfter => Dur(a.tunnelPruneAfter)
    case KeyVerifyInterval => Dur(a.verifyInterval)
    case KeyWindowDiscoveryInterval => Dur(a.windowDiscoveryInterval)
    case KeyWindowPorts => Numbers(a.windowPorts)
    case KeyWindowProtocols => Plain(Join(a.windowProtocols, ","))
  }

  function ValueOf(c: Config, k: Key): Value {
    match k
    case Main(m) => MainValue(c, m)
    case Vpn(v) => VPNValue(c.vpn, v)
    case Adv(a) => AdvancedValue(c.vpn.advanced, a)
  }

  // Every key, in the order of its dotted name.
  const MAIN_KEYS: seq<Key> := [
    Main(KeyBlockedCountries), Main(KeyControlAllowConfigOps), Main(KeyControlAllowPauseOps),
    Main(KeyControlAllowSwitchOps), Main(KeyControlEnabled), Main(KeyControlGroup), Main(KeyControlSocket),
    Main(KeyHysteresis), Main(KeyLogLevel), Main(KeyPollInterval), Main(KeyProviderQuorum), Main(KeyProviders)
  ]

  const ADVANCED_KEYS: seq<Key> := [
    Adv(KeyCommandFreshness), Adv(KeyEndpointWarnThreshold), Adv(KeyLearnedEndpointTTL),
    Adv(KeyLearnedMaxPerProfile), Adv(KeyLivenessRedial), Adv(KeyPromoteAfterRefreshes), Adv(KeyRedialBudget),
    Adv(KeyRedialBudgetWindow), Adv(KeyRedialMinUptime), Adv(KeyRedialWindowMax), Adv(KeySwitchWindowMax),
    Adv(KeyTunnelPruneAfter), Adv(KeyVerifyInterval), Adv(KeyWindowDiscoveryInterval), Adv(KeyWindowPorts),
    Adv(KeyWindowProtocols)
  ]

  const VPN_KEYS: seq<Key> := [
    Vpn(KeyAllowGeoProviders), Vpn(KeyAllowLocalNetwork), Vpn(KeyAllowPhysicalDNS), Vpn(KeyArmAtBoot),
    Vpn(KeyAutoArm), Vpn(KeyAutoDetect), Vpn(KeyAutoDiscoverEndpoints), Vpn(KeyEndpointGrace),
    Vpn(KeyEndpointRefresh), Vpn(KeyEndpoints), Vpn(KeyPauseMax), Vpn(KeyRedialWindow), Vpn(KeySwitchWindow),
    Vpn(KeyTunnelInterfaces), Vpn(KeyTunnelWatch)
  ]

  const KEYS: seq<Key> := MAIN_KEYS + ADVANCED_KEYS + VPN_KEYS

  // The two tables: keys wired up at startup, and keys the loop reads afresh.
  predicate RestartMain(k: MainKey) {
    match k
    case KeyLogLevel | KeyProviders | KeyProviderQuorum | KeyControlEnabled | KeyControlSocket
      | KeyControlGroup => true
    case _ => false
  }

  predicate RestartVPN(k: VPNKey) {
    match k
    case KeyTunnelWatch | KeyAutoDetect | KeyArmAtBoot | KeyEndpoints | KeyAutoDiscoverEndpoints
      | KeyTunnelInterfaces | KeyAllowGeoProviders => true
    case _ => false
  }

  predicate RestartAdvanced(k: AdvancedKey) {
    match k
    case KeyCommandFreshness | KeyTunnelPruneAfter | KeyLearnedEndpointTTL | KeyLearnedMaxPerProfile
      | KeyPromoteAfterRefreshes | KeyEndpointWarnThreshold | KeyWindowProtocols | KeyWindowPorts => true
    case _ => false
  }

  predicate InRestartReasons(k: Key) {
    match k
    case Main(m) => RestartMain(m)
    case Vpn(v) => RestartVPN(v)
    case Adv(a) => RestartAdvanced(a)
  }

  predicate LiveMain(k: MainKey) {
    match k
    case KeyPollInterval | KeyBlockedCountries | KeyHysteresis | KeyControlAllowSwitchOps
      | KeyControlAllowPauseOps | KeyControlAllowConfigOps => true
    case _ => false
  }

  predicate LiveVPN(k: VPNKey) {
    match k
    case KeyAllowPhysicalDNS | KeyAllowLocalNetwork | KeyAutoArm | KeySwitchWindow | KeyRedialWindow
      | KeyPauseMax | KeyEndpointRefresh | KeyEndpointGrace => true
    case _ => false
  }

  predicate LiveAdvanced(k: AdvancedKey) {
    match k
    case KeySwitchWindowMax | KeyRedialWindowMax | KeyRedialMinUptime | KeyRedialBudget
      | KeyRedialBudgetWindow | KeyWindowDiscoveryInterval | KeyVerifyInterval | KeyLivenessRedial => true
    case _ => false
  }

  predicate InLiveKeys(k: Key) {
    match k
    case Main(m) => LiveMain(m)
    case Vpn(v) => LiveVPN(v)
    case Adv(a) => LiveAdvanced(a)
  }

  // A key in neither table is treated as needing a restart.
  predicate NeedsRestart(k: Key) {
    InRestartReasons(k) || !InLiveKeys(k)
  }

  datatype Change = Change(key: Key, from: Option<Value>, to: Value, restart: bool)

  function OldValue(was: Option<Config>, k: Key): Option<Value> {
    match was
    case None => None
    case Some(c) => Some(ValueOf(c, k))
  }

  // The changes among `keys`, in order.
  function Diff(keys: seq<Key>, was: Option<Config>, cur: Config): seq<Change> {
    if |keys| == 0 then []
    else
      var rest := Diff(keys[..|keys| - 1], was, cur);
      var k := keys[|keys| - 1];
      var to := ValueOf(cur, k);
      if OldValue(was, k) == Some(to) then rest
      else rest + [Change(k, OldValue(was, k), to, NeedsRestart(k))]
  }

  method Changes(was: Option<Config>, cur: Option<Config>) returns (out: seq<Change>)
    ensures out == if cur.None? then [] else Diff(KEYS, was, cur.value)
  {
    hide ValueOf, NeedsRestart, KEYS;
    out := [];
    if cur.None? {
      return;
    }
    for i := 0 to |KEYS|
      invariant out == Diff(KEYS[..i], was, cur.value)
    {
      assert KEYS[..i + 1][..i] == KEYS[..i];
      var k := KEYS[i];
      var to := ValueOf(cur.value, k);
      var from := OldValue(was, k);
      if from != Some(to) {
        out := out + [Change(k, from, to, NeedsRestart(k))];
      }
    }
    assert KEYS[..|KEYS|] == KEYS;
  }

  // The keys among the changes that do, or do not, wait for a restart.
  function KeysOf(changes: seq<Change>, restart: bool): seq<Key> {
    if |changes| == 0 then []
    else
      var rest := KeysOf(changes[..|changes| - 1], restart);
      var ch := changes[|changes| - 1];
      if ch.restart == restart then rest + [ch.key] else rest
  }

  method SplitByRestart(changes: seq<Change>) returns (live: seq<Key>, needRestart: seq<Key>)
    ensures live == KeysOf(changes, false) && needRestart == KeysOf(changes, true)
  {
    live, needRestart := [], [];
    for i := 0 to |changes|
      invariant live == KeysOf(changes[..i], false) && needRestart == KeysOf(changes[..i], true)
    {
      assert changes[..i + 1][..i] == changes[..i];
      if changes[i].restart {
        needRestart := needRestart + [changes[i].key];
      } else {
        live := live + [changes[i].key];
      }
    }
    assert changes[..|changes|] == changes;
  }

  // The part of `c` a running daemon takes, on top of `base`.
  function MergeLive(base: Config, c: Config): Config {
    base.(
      pollInterval := c.pollInterval,
      blockedCountries := c.blockedCountries,
      hysteresis := c.hysteresis,
      vpn := base.vpn.(
        allowPhysicalDNS := c.vpn.allowPhysicalDNS,
        allowLocalNetwork := c.vpn.allowLocalNetwork,
        autoArm := c.vpn.autoArm,
        switchWindow := c.vpn.switchWindow,
        redialWindow := c.vpn.redialWindow,
        pauseMax := c.vpn.pauseMax,
        endpointRefresh := c.vpn.endpointRefresh,
        endpointGrace := c.vpn.endpointGrace,
        advanced := base.vpn.advanced.(
          switchWindowMax := c.vpn.advanced.switchWindowMax,
          redialWindowMax := c.vpn.advanced.redialWindowMax,
          redialMinUptime := c.vpn.advanced.redialMinUptime,
          redialBudget := c.vpn.advanced.redialBudget,
          redialBudgetWindow := c.vpn.advanced.redialBudgetWindow,
          windowDiscoveryInterval := c.vpn.advanced.windowDiscoveryInterval,
          verifyInterval := c.vpn.advanced.verifyInterval,
          livenessRedial := c.vpn.advanced.livenessRedial)),
      control := base.control.(
        allowSwitchOps := c.control.allowSwitchOps,
        allowPauseOps := c.control.allowPauseOps,
        allowConfigOps := c.control.allowConfigOps))
  }

  // ---- the tables and the merge agree ----

  // Every key is in exactly one table.
  lemma Classified(k: Key)
    ensures InRestartReasons(k) != InLiveKeys(k)
  {
  }

  // The merge takes from `c` exactly the keys the tables call live.
  lemma MergeFollowsTables(base: Config, c: Config, k: Key)
    ensures ValueOf(MergeLive(base, c), k) == ValueOf(if NeedsRestart(k) then base else c, k)
  {
    match k
    case Main(m) => { hide Join, VPNValue, AdvancedValue; }
    case Vpn(v) => { hide Join, MainValue, AdvancedValue; }
    case Adv(a) => { hide Join, MainValue, VPNValue; }
  }

  lemma MergeTwice(base: Config, c: Config, c': Config)
    ensures MergeLive(MergeLive(base, c), c') == MergeLive(base, c')
    ensures MergeLive(base, base) == base
  {
  }

  // ---- reports ----

  predicate Differs(was: Config, cur: Config, k: Key) {
    ValueOf(was, k) != ValueOf(cur, k)
  }

  lemma {:induction false} DiffKeys(keys: seq<Key>, was: Config, cur: Config, k: Key)
    ensures k in KeysOf(Diff(keys, Some(was), cur), true) <==>
              k in keys && NeedsRestart(k) && Differs(was, cur, k)
    ensures k in KeysOf(Diff(keys, Some(was), cur), false) <==>
              k in keys && !NeedsRestart(k) && Differs(was, cur, k)
  {
    hide ValueOf, NeedsRestart;
    if |keys| > 0 {
      var front, last := keys[..|keys| - 1], keys[|keys| - 1];
      DiffKeys(front, was, cur, k);
      assert keys == front + [last];
      var rest := Diff(front, Some(was), cur);
      var ch := Change(last, Some(ValueOf(was, last)), ValueOf(cur, last), NeedsRestart(last));
      assert (rest + [ch])[..|rest|] == rest;
    }
  }

  lemma MainKeys(x: MainKey)
    ensures Main(x) in MAIN_KEYS
  {
    var i := match x case KeyBlockedCountries => 0 case KeyControlAllowConfigOps => 1 case KeyControlAllowPauseOps => 2
      case KeyControlAllowSwitchOps => 3 case KeyControlEnabled => 4 case KeyControlGroup => 5
      case KeyControlSocket => 6 case KeyHysteresis => 7 case KeyLogLevel => 8 case KeyPollInterval => 9
      case KeyProviderQuorum => 10 case KeyProviders => 11;
    assert MAIN_KEYS[i] == Main(x);
  }

  lemma AdvancedKeys(x: AdvancedKey)
    ensures Adv(x) in ADVANCED_KEYS
  {
    var i := match x case KeyCommandFreshness => 0 case KeyEndpointWarnThreshold => 1
      case KeyLearnedEndpointTTL => 2 case KeyLearnedMaxPerProfile => 3 case KeyLivenessRedial => 4
      case KeyPromoteAfterRefreshes => 5 case KeyRedialBudget => 6 case KeyRedialBudgetWindow => 7
      case KeyRedialMinUptime => 8 case KeyRedialWindowMax => 9 case KeySwitchWindowMax => 10
      case KeyTunnelPruneAfter => 11 case KeyVerifyInterval => 12 case KeyWindowDiscoveryInterval => 13
      case KeyWindowPorts => 14 case KeyWindowProtocols => 15;
    assert ADVANCED_KEYS[i] == Adv(x);
  }

  lemma VPNKeys(x: VPNKey)
    ensures Vpn(x) in VPN_KEYS
  {
    var i := match x case KeyAllowGeoProviders => 0 case KeyAllowLocalNetwork => 1 case KeyAllowPhysicalDNS => 2
      case KeyArmAtBoot => 3 case KeyAutoArm => 4 case KeyAutoDetect => 5
      case KeyAutoDiscoverEndpoints => 6 case KeyEndpointGrace => 7 case KeyEndpointRefresh => 8
      case KeyEndpoints => 9 case KeyPauseMax => 10 case KeyRedialWindow => 11 case KeySwitchWindow => 12
      case KeyTunnelInterfaces => 13 case KeyTunnelWatch => 14;
    assert VPN_KEYS[i] == Vpn(x);
  }

  lemma AllKeys(k: Key)
    ensures k in KEYS
  {
    hide MAIN_KEYS, ADVANCED_KEYS, VPN_KEYS;
    match k
    case Main(x) => MainKeys(x);
    case Adv(x) => AdvancedKeys(x);
    case Vpn(x) => VPNKeys(x);
  }

  // ---- the closure a running daemon reloads through ----

  datatype Report = Report(applied: seq<Key>, needsRestart: seq<Key>, newDecider: bool)

  function SameList(a: Option<seq<string>>, b: Option<seq<string>>): bool {
    (if a.Some? then a.value else []) == (if b.Some? then b.value else [])
  }

  // Only the country list and the hysteresis feed the decider.
  predicate DeciderChanged(prev: Config, cur: Config) {
    prev.hysteresis != cur.hysteresis || !SameList(prev.blockedCountries, cur.blockedCountries)
  }

  function ReportFor(running: Config, next: Config): Report {
    var changes := Diff(KEYS, Some(running), next);
    Report(KeysOf(changes, false), KeysOf(changes, true), DeciderChanged(running, MergeLive(running, next)))
  }

  class Daemon<E> {
    var running: Config

    constructor (startup: Config)
      ensures running == startup
    {
      running := startup;
    }

    // A file that does not load disturbs nothing.
    method Reload(loaded: Result<Config, E>) returns (report: Result<Report, E>)
      modifies this
      ensures match loaded
              case Err(e) => report == Err(e) && running == old(running)
              case Ok(next) => report == Ok(ReportFor(old(running), next)) && running == MergeLive(old(running), next)
    {
      match loaded {
        case Err(e) => return Err(e);
        case Ok(next) =>
          var changes := Changes(Some(running), Some(next));
          var live, needRestart := SplitByRestart(changes);
          var prev := running;
          running := MergeLive(running, next);
          report := Ok(Report(live, needRestart, DeciderChanged(prev, running)));
      }
    }
  }

  // ---- runs of reloads ----

  // The running config after a run of loads, good and bad.
  function RunningAfter<E>(startup: Config, loads: seq<Result<Config, E>>): Config {
    if |loads| == 0 then startup
    else
      var before := RunningAfter(startup, loads[..|loads| - 1]);
      match loads[|loads| - 1]
      case Err(_) => before
      case Ok(next) => MergeLive(before, next)
  }

  // The last config that loaded, or the one the daemon started with.
  function LastGood<E>(startup: Config, loads: seq<Result<Config, E>>): Config {
    if |loads| == 0 then startup
    else
      match loads[|loads| - 1]
      case Err(_) => LastGood(startup, loads[..|loads| - 1])
      case Ok(next) => next
  }

  // However it got there, the daemon runs startup's config with the latest file's live keys.
  lemma {:induction false} RunningIsMerge<E>(startup: Config, loads: seq<Result<Config, E>>)
    ensures RunningAfter(startup, loads) == MergeLive(startup, LastGood(startup, loads))
  {
    hide MergeLive;
    if |loads| == 0 {
      MergeTwice(startup, startup, startup);
    } else {
      var front := loads[..|loads| - 1];
      RunningIsMerge(startup, front);
      match loads[|loads| - 1]
      case Err(_) =>
      case Ok(next) => MergeTwice(startup, LastGood(startup, front), next);
    }
  }

  // Key by key: a live key has the latest file's value and a restart key startup's. The next
  // good file is reported against exactly that: applied are the live keys it changes from
  // the file before, waiting are the restart keys it changes from startup. And asking again
  // with the same file applies nothing, with the same keys still waiting.
  lemma ReloadRun<E>(startup: Config, loads: seq<Result<Config, E>>, next: Config, k: Key)
    ensures var running := RunningAfter(startup, loads);
            var latest := LastGood(startup, loads);
            var report := ReportFor(running, next);
            var again := ReportFor(MergeLive(running, next), next);
            && ValueOf(running, k) == ValueOf(if NeedsRestart(k) then startup else latest, k)
            && (k in report.applied <==> !NeedsRestart(k) && Differs(latest, next, k))
            && (k in report.needsRestart <==> NeedsRestart(k) && Differs(startup, next, k))
            && k !in again.applied
            && (k in again.needsRestart <==> k in report.needsRestart)
            && !again.newDecider
  {
    var running := RunningAfter(startup, loads);
    var latest := LastGood(startup, loads);
    var merged := MergeLive(running, next);
    RunningIsMerge(startup, loads);
    MergeFollowsTables(startup, latest, k);
    MergeFollowsTables(running, next, k);
    AllKeys(k);
    DiffKeys(KEYS, running, next, k);
    DiffKeys(KEYS, merged, next, k);
    MergeTwice(running, next, next);
    SameDecider(merged);
    hide ValueOf, NeedsRestart, Diff, KeysOf, MergeLive, DeciderChanged;
  }

  lemma SameDecider(c: Config)
    ensures !DeciderChanged(c, c)
  {
  }

  // ---- reports name the field that changed ----

  // Lists are compared joined.
  predicate ListChanged(a: seq<string>, b: seq<string>) {
    Join(a, ",") != Join(b, ",")
  }

  function Elements(l: Option<seq<string>>): seq<string> {
    if l.Some? then l.value else []
  }

  predicate MainChanged(a: Config, b: Config, k: MainKey) {
    match k
    case KeyPollInterval => a.pollInterval != b.pollInterval
    case KeyBlockedCountries => ListChanged(Elements(a.blockedCountries), Elements(b.blockedCountries))
    case KeyHysteresis => a.hysteresis != b.hysteresis
    case KeyProviders => ListChanged(Elements(a.providers), Elements(b.providers))
    case KeyProviderQuorum => a.providerQuorum != b.providerQuorum
    case KeyLogLevel => a.logLevel != b.logLevel
    case KeyControlEnabled => a.control.enabled != b.control.enabled
    case KeyControlSocket => a.control.socket != b.control.socket
    case KeyControlGroup => a.control.group != b.control.group
    case KeyControlAllowSwitchOps => a.control.allowSwitchOps != b.control.allowSwitchOps
    case KeyControlAllowPauseOps => a.control.allowPauseOps != b.control.allowPauseOps
    case KeyControlAllowConfigOps => a.control.allowConfigOps != b.control.allowConfigOps
  }

  predicate VPNChanged(a: VPN, b: VPN, k: VPNKey) {
    match k
    case KeyTunnelInterfaces => ListChanged(a.tunnelInterfaces, b.tunnelInterfaces)
    case KeyEndpoints => ListChanged(a.endpoints, b.endpoints)
    case KeyAutoDetect => a.autoDetect != b.autoDetect
    case KeyAutoDiscoverEndpoints => a.autoDiscoverEndpoints != b.autoDiscoverEndpoints
    case KeyAllowPhysicalDNS => a.allowPhysicalDNS != b.allowPhysicalDNS
    case KeyAllowGeoProviders => a.allowGeoProviders != b.allowGeoProviders
    case KeyAllowLocalNetwork => a.allowLocalNetwork != b.allowLocalNetwork
    case KeyAutoArm => a.autoArm != b.autoArm
    case KeyArmAtBoot => a.armAtBoot != b.armAtBoot
    case KeySwitchWindow => a.switchWindow != b.switchWindow
    case KeyRedialWindow => a.redialWindow != b.redialWindow
    case KeyPauseMax => a.pauseMax != b.pauseMax
    case KeyEndpointRefresh => a.endpointRefresh != b.endpointRefresh
    case KeyEndpointGrace => a.endpointGrace != b.endpointGrace
    case KeyTunnelWatch => a.tunnelWatch != b.tunnelWatch
  }

  predicate AdvancedChanged(a: Advanced, b: Advanced, k: AdvancedKey) {
    match k
    case KeySwitchWindowMax => a.switchWindowMax != b.switchWindowMax
    case KeyRedialWindowMax => a.redialWindowMax != b.redialWindowMax
    case KeyCommandFreshness => a.commandFreshness != b.commandFreshness
    case KeyWindowDiscoveryInterval => a.windowDiscoveryInterval != b.windowDiscoveryInterval
    case KeyTunnelPruneAfter => a.tunnelPruneAfter != b.tunnelPruneAfter
    case KeyLearnedEndpointTTL => a.learnedEndpointTTL != b.learnedEndpointTTL
    case KeyLearnedMaxPerProfile => a.learnedMaxPerProfile != b.learnedMaxPerProfile
    case KeyPromoteAfterRefreshes => a.promoteAfterRefreshes != b.promoteAfterRefreshes
    case KeyEndpointWarnThreshold => a.endpointWarnThreshold != b.endpointWarnThreshold
    case KeyVerifyInterval => a.verifyInterval != b.verifyInterval
    case KeyLivenessRedial => a.livenessRedial != b.livenessRedial
    case KeyRedialMinUptime => a.redialMinUptime != b.redialMinUptime
    case KeyRedialBudget => a.redialBudget != b.redialBudget
    case KeyRedialBudgetWindow => a.redialBudgetWindow != b.redialBudgetWindow
    case KeyWindowProtocols => ListChanged(a.windowProtocols, b.windowProtocols)
    case KeyWindowPorts => a.windowPorts != b.windowPorts
  }

  // A report names a key, as applied or as waiting, exactly when the config field of that name
  // is not what it was.
  lemma ReportNamesFields(running: Config, next: Config, k: Key)
    ensures var report := ReportFor(running, next);
            (k in report.applied || k in report.needsRestart) <==>
              match k
              case Main(m) => MainChanged(running, next, m)
              case Vpn(v) => VPNChanged(running.vpn, next.vpn, v)
              case Adv(a) => AdvancedChanged(running.vpn.advanced, next.vpn.advanced, a)
  {
    AllKeys(k);
    DiffKeys(KEYS, running, next, k);
    match k
    case Main(m) => MainValues(running, next, m);
    case Vpn(v) => VPNValues(running.vpn, next.vpn, v);
    case Adv(a) => AdvancedValues(running.vpn.advanced, next.vpn.advanced, a);
    hide MainValue, VPNValue, AdvancedValue, MainChanged, VPNChanged, AdvancedChanged, NeedsRestart, Diff, KeysOf;
  }

  lemma MainValues(a: Config, b: Config, k: MainKey)
    ensures MainValue(a, k) != MainValue(b, k) <==> MainChanged(a, b, k)
  {
    assert Join([], ",") == "";
    hide Join;
  }

  lemma VPNValues(a: VPN, b: VPN, k: VPNKey)
    ensures VPNValue(a, k) != VPNValue(b, k) <==> VPNChanged(a, b, k)
  {
    hide Join;
  }

  lemma AdvancedValues(a: Advanced, b: Advanced, k: AdvancedKey)
    ensures AdvancedValue(a, k) != AdvancedValue(b, k) <==> AdvancedChanged(a, b, k)
  {
    hide Join;
  }

  // ---- no mix is invalid ----

  // The rules that tie keys together tie live keys only, so what a daemon runs is as valid,
  // and as normal, as the files it came from.
  lemma MergeKeepsValid(base: Config, c: Config, plausible: string -> bool)
    requires Valid(base, plausible) && Valid(c, plausible)
    ensures Valid(MergeLive(base, c), plausible)
  {
    var m := MergeLive(base, c);
    hide ValidProfiles;
    assert m.vpn.advanced.windowProtocols == base.vpn.advanced.windowProtocols;
    assert m.vpn.advanced.windowPorts == base.vpn.advanced.windowPorts;
  }

  lemma MergeKeepsNormal(base: Config, c: Config)
    requires Normal(base) == base && Normal(c) == c
    ensures Normal(MergeLive(base, c)) == MergeLive(base, c)
  {
    hide NormalCountries, CleanProfiles, TrimAll, CleanProtocols, Trim, Lower;
  }

  lemma {:induction false} RunStaysValid<E>(startup: Config, loads: seq<Result<Config, E>>, plausible: string -> bool)
    requires Valid(startup, plausible) && Normal(startup) == startup
    requires forall l <- loads :: l.Ok? ==> Valid(l.value, plausible) && Normal(l.value) == l.value
    ensures var running := RunningAfter(startup, loads); Valid(running, plausible) && Normal(running) == running
  {
    hide Valid, Normal, MergeLive;
    if |loads| > 0 {
      var n := |loads| - 1;
      assert forall l <- loads[..n] :: l in loads;
      RunStaysValid(startup, loads[..n], plausible);
      var before := RunningAfter(startup, loads[..n]);
      assert loads[n] in loads;
      if loads[n].Ok? {
        MergeKeepsValid(before, loads[n].value, plausible);
        MergeKeepsNormal(before, loads[n].value);
      }
    }
  }

  // ---- what a report can miss ----

  ghost predicate SameLive(a: Config, b: Config) {
    forall k: Key | InLiveKeys(k) :: ValueOf(a, k) == ValueOf(b, k)
  }

  // A config that takes something from another differs from it at some live key.
  lemma AdoptedMain(a: Config, b: Config) returns (k: MainKey)
    requires MergeLive(a, b).(vpn := a.vpn) != a && a.blockedCountries == b.blockedCountries
    ensures InLiveKeys(Main(k)) && ValueOf(a, Main(k)) != ValueOf(b, Main(k))
  {
    k :=
      if a.pollInterval != b.pollInterval then KeyPollInterval
      else if a.hysteresis != b.hysteresis then KeyHysteresis
      else if a.control.allowSwitchOps != b.control.allowSwitchOps then KeyControlAllowSwitchOps
      else if a.control.allowPauseOps != b.control.allowPauseOps then KeyControlAllowPauseOps
      else KeyControlAllowConfigOps;
  }

  lemma AdoptedVPN(c: Config, d: Config) returns (k: VPNKey)
    requires MergeLive(c, d).vpn.(advanced := c.vpn.advanced) != c.vpn
    ensures InLiveKeys(Vpn(k)) && ValueOf(c, Vpn(k)) != ValueOf(d, Vpn(k))
  {
    var a, b := c.vpn, d.vpn;
    k :=
      if a.allowPhysicalDNS != b.allowPhysicalDNS then KeyAllowPhysicalDNS
      else if a.allowLocalNetwork != b.allowLocalNetwork then KeyAllowLocalNetwork
      else if a.autoArm != b.autoArm then KeyAutoArm
      else if a.switchWindow != b.switchWindow then KeySwitchWindow
      else if a.redialWindow != b.redialWindow then KeyRedialWindow
      else if a.pauseMax != b.pauseMax then KeyPauseMax
      else if a.endpointRefresh != b.endpointRefresh then KeyEndpointRefresh
      else KeyEndpointGrace;
  }

  lemma AdoptedAdvanced(c: Config, d: Config) returns (k: AdvancedKey)
    requires MergeLive(c, d).vpn.advanced != c.vpn.advanced
    ensures InLiveKeys(Adv(k)) && ValueOf(c, Adv(k)) != ValueOf(d, Adv(k))
  {
    var a, b := c.vpn.advanced, d.vpn.advanced;
    k :=
      if a.switchWindowMax != b.switchWindowMax then KeySwitchWindowMax
      else if a.redialWindowMax != b.redialWindowMax then KeyRedialWindowMax
      else if a.redialMinUptime != b.redialMinUptime then KeyRedialMinUptime
      else if a.redialBudget != b.redialBudget then KeyRedialBudget
      else if a.redialBudgetWindow != b.redialBudgetWindow then KeyRedialBudgetWindow
      else if a.windowDiscoveryInterval != b.windowDiscoveryInterval then KeyWindowDiscoveryInterval
      else if a.verifyInterval != b.verifyInterval then KeyVerifyInterval
      else KeyLivenessRedial;
  }

  lemma SameCountries(a: Config, b: Config)
    requires SameLive(a, b)
    requires a.blockedCountries.Some? && forall code <- a.blockedCountries.value :: |code| == 2
    requires b.blockedCountries.Some? && forall code <- b.blockedCountries.value :: |code| == 2
    ensures a.blockedCountries == b.blockedCountries
  {
    assert ValueOf(a, Main(KeyBlockedCountries)) == ValueOf(b, Main(KeyBlockedCountries));
    JoinIsInjective(a.blockedCountries.value, b.blockedCountries.value, 2);
  }

  // Between configs that load, a report with nothing applied means nothing was adopted, and
  // only then: the comparison by joined strings hides no live change.
  lemma NothingAppliedIff(running: Config, next: Config, plausible: string -> bool)
    requires Valid(running, plausible) && Normal(running) == running
    requires Valid(next, plausible) && Normal(next) == next
    ensures ReportFor(running, next).applied == [] <==> MergeLive(running, next) == running
  {
    var applied := ReportFor(running, next).applied;
    forall k: Key
      ensures k in applied <==> !NeedsRestart(k) && Differs(running, next, k)
      ensures ValueOf(MergeLive(running, next), k) == ValueOf(if NeedsRestart(k) then running else next, k)
    {
      AllKeys(k);
      DiffKeys(KEYS, running, next, k);
      MergeFollowsTables(running, next, k);
    }
    if applied == [] {
      LiveIsClassified(running, next);
      AdoptsNothing(running, next);
    } else {
      assert applied[0] in applied;
    }
    hide *;
  }

  lemma LiveIsClassified(a: Config, b: Config)
    requires forall k: Key | !NeedsRestart(k) :: !Differs(a, b, k)
    ensures SameLive(a, b)
  {
    hide ValueOf;
    forall k: Key | InLiveKeys(k)
      ensures ValueOf(a, k) == ValueOf(b, k)
    {
      Classified(k);
      assert !NeedsRestart(k);
      assert !Differs(a, b, k);
    }
  }

  lemma AdoptsNothing(a: Config, b: Config)
    requires SameLive(a, b)
    requires a.blockedCountries.Some? && forall code <- a.blockedCountries.value :: |code| == 2
    requires b.blockedCountries.Some? && forall code <- b.blockedCountries.value :: |code| == 2
    ensures MergeLive(a, b) == a
  {
    SameCountries(a, b);
    hide MergeLive, ValueOf, InLiveKeys;
    var m := MergeLive(a, b);
    if m.vpn.advanced != a.vpn.advanced {
      var _ := AdoptedAdvanced(a, b);
    } else if m.vpn.(advanced := a.vpn.advanced) != a.vpn {
      var _ := AdoptedVPN(a, b);
    } else if m.(vpn := a.vpn) != a {
      var _ := AdoptedMain(a, b);
    }
  }

  // ---- when the comparison is exact ----

  // An empty list and a list of one blank are shown alike.
  function Shown(xs: seq<string>): seq<string> {
    if xs == [""] then [] else xs
  }

  function ShownList(l: Option<seq<string>>): Option<seq<string>> {
    Some(Shown(if l.Some? then l.value else []))
  }

  // All of a config that keys name, its lists as they are shown.
  function Settable(c: Config): Config {
    c.(blockedCountries := ShownList(c.blockedCountries),
       providers := ShownList(c.providers),
       vpn := c.vpn.(tunnelInterfaces := Shown(c.vpn.tunnelInterfaces),
                     endpoints := Shown(c.vpn.endpoints),
                     profiles := [],
                     advanced := c.vpn.advanced.(windowProtocols := Shown(c.vpn.advanced.windowProtocols))),
       retired := [])
  }

  predicate CommaFreeList(l: Option<seq<string>>) {
    l.Some? ==> CommaFree(l.value)
  }

  predicate CommaFreeLists(c: Config) {
    && CommaFreeList(c.blockedCountries) && CommaFreeList(c.providers)
    && CommaFree(c.vpn.tunnelInterfaces) && CommaFree(c.vpn.endpoints) && CommaFree(c.vpn.advanced.windowProtocols)
  }

  lemma ShownIff(xs: seq<string>, ys: seq<string>)
    requires CommaFree(xs) && CommaFree(ys)
    ensures Join(xs, ",") == Join(ys, ",") <==> Shown(xs) == Shown(ys)
  {
    if |xs| > 1 { JoinHasComma(xs); }
    if |ys| > 1 { JoinHasComma(ys); }
    if |xs| > 0 && |ys| > 0 {
      JoinIff(xs, ys);
    }
  }

  lemma ListedIff(l: Option<seq<string>>, m: Option<seq<string>>)
    requires CommaFreeList(l) && CommaFreeList(m)
    ensures Listed(l) == Listed(m) <==> ShownList(l) == ShownList(m)
  {
    ShownIff(if l.Some? then l.value else [], if m.Some? then m.value else []);
  }

  lemma ListsIff(a: Config, b: Config)
    requires CommaFreeLists(a) && CommaFreeLists(b)
    ensures Listed(a.blockedCountries) == Listed(b.blockedCountries) <==>
              ShownList(a.blockedCountries) == ShownList(b.blockedCountries)
    ensures Listed(a.providers) == Listed(b.providers) <==> ShownList(a.providers) == ShownList(b.providers)
    ensures Join(a.vpn.tunnelInterfaces, ",") == Join(b.vpn.tunnelInterfaces, ",") <==>
              Shown(a.vpn.tunnelInterfaces) == Shown(b.vpn.tunnelInterfaces)
    ensures Join(a.vpn.endpoints, ",") == Join(b.vpn.endpoints, ",") <==>
              Shown(a.vpn.endpoints) == Shown(b.vpn.endpoints)
    ensures Join(a.vpn.advanced.windowProtocols, ",") == Join(b.vpn.advanced.windowProtocols, ",") <==>
              Shown(a.vpn.advanced.windowProtocols) == Shown(b.vpn.advanced.windowProtocols)
  {
    hide Listed, Join, Shown, ShownList, CommaFree, CommaFreeList;
    ListedIff(a.blockedCountries, b.blockedCountries);
    ListedIff(a.providers, b.providers);
    ShownIff(a.vpn.tunnelInterfaces, b.vpn.tunnelInterfaces);
    ShownIff(a.vpn.endpoints, b.vpn.endpoints);
    ShownIff(a.vpn.advanced.windowProtocols, b.vpn.advanced.windowProtocols);
  }

  // What differs in the settable part shows at some key.
  predicate SameControl(a: Config, b: Config) {
    && a.control.allowConfigOps == b.control.allowConfigOps
    && a.control.allowPauseOps == b.control.allowPauseOps
    && a.control.allowSwitchOps == b.control.allowSwitchOps
    && a.control.enabled == b.control.enabled
    && a.control.group == b.control.group
    && a.control.socket == b.control.socket
  }

  lemma DifferentControl(a: Config, b: Config) returns (k: MainKey)
    requires !SameControl(a, b)
    ensures MainValue(a, k) != MainValue(b, k)
  {
    k :=
      if a.control.allowConfigOps != b.control.allowConfigOps then KeyControlAllowConfigOps
      else if a.control.allowPauseOps != b.control.allowPauseOps then KeyControlAllowPauseOps
      else if a.control.allowSwitchOps != b.control.allowSwitchOps then KeyControlAllowSwitchOps
      else if a.control.enabled != b.control.enabled then KeyControlEnabled
      else if a.control.group != b.control.group then KeyControlGroup
      else KeyControlSocket;
  }

  lemma SettableMain(a: Config, b: Config) returns (k: MainKey)
    requires CommaFreeLists(a) && CommaFreeLists(b)
    requires Settable(a).(vpn := b.vpn) != Settable(b).(vpn := b.vpn)
    ensures MainValue(a, k) != MainValue(b, k)
  {
    ListsIff(a, b);
    hide Listed, ShownList, CommaFreeLists;
    if !SameControl(a, b) {
      k := DifferentControl(a, b);
    } else {
      k :=
        if Listed(a.blockedCountries) != Listed(b.blockedCountries) then KeyBlockedCountries
        else if Listed(a.providers) != Listed(b.providers) then KeyProviders
        else if a.hysteresis != b.hysteresis then KeyHysteresis
        else if a.logLevel != b.logLevel then KeyLogLevel
        else if a.pollInterval != b.pollInterval then KeyPollInterval
        else KeyProviderQuorum;
    }
  }

  predicate SameFlags(a: VPN, b: VPN) {
    && a.allowGeoProviders == b.allowGeoProviders
    && a.allowLocalNetwork == b.allowLocalNetwork
    && a.allowPhysicalDNS == b.allowPhysicalDNS
    && a.armAtBoot == b.armAtBoot
    && a.autoArm == b.autoArm
    && a.autoDetect == b.autoDetect
    && a.autoDiscoverEndpoints == b.autoDiscoverEndpoints
  }

  lemma DifferentFlag(a: VPN, b: VPN) returns (k: VPNKey)
    requires !SameFlags(a, b)
    ensures VPNValue(a, k) != VPNValue(b, k)
  {
    k :=
      if a.allowGeoProviders != b.allowGeoProviders then KeyAllowGeoProviders
      else if a.allowLocalNetwork != b.allowLocalNetwork then KeyAllowLocalNetwork
      else if a.allowPhysicalDNS != b.allowPhysicalDNS then KeyAllowPhysicalDNS
      else if a.armAtBoot != b.armAtBoot then KeyArmAtBoot
      else if a.autoArm != b.autoArm then KeyAutoArm
      else if a.autoDetect != b.autoDetect then KeyAutoDetect
      else KeyAutoDiscoverEndpoints;
  }

  predicate SameTimes(a: VPN, b: VPN) {
    && a.endpointGrace == b.endpointGrace && a.endpointRefresh == b.endpointRefresh
    && a.pauseMax == b.pauseMax && a.redialWindow == b.redialWindow
    && a.switchWindow == b.switchWindow && a.tunnelWatch == b.tunnelWatch
  }

  lemma DifferentTime(a: VPN, b: VPN) returns (k: VPNKey)
    requires !SameTimes(a, b)
    ensures VPNValue(a, k) != VPNValue(b, k)
  {
    k :=
      if a.endpointGrace != b.endpointGrace then KeyEndpointGrace
      else if a.endpointRefresh != b.endpointRefresh then KeyEndpointRefresh
      else if a.pauseMax != b.pauseMax then KeyPauseMax
      else if a.redialWindow != b.redialWindow then KeyRedialWindow
      else if a.switchWindow != b.switchWindow then KeySwitchWindow
      else KeyTunnelWatch;
  }

  lemma SettableVPN(c: Config, d: Config) returns (k: VPNKey)
    requires CommaFreeLists(c) && CommaFreeLists(d)
    requires Settable(c).vpn.(advanced := d.vpn.advanced) != Settable(d).vpn.(advanced := d.vpn.advanced)
    ensures VPNValue(c.vpn, k) != VPNValue(d.vpn, k)
  {
    ListsIff(c, d);
    hide Join, Shown, CommaFreeLists;
    var a, b := c.vpn, d.vpn;
    if !SameFlags(a, b) {
      k := DifferentFlag(a, b);
    } else if !SameTimes(a, b) {
      k := DifferentTime(a, b);
    } else {
      k := if Join(a.endpoints, ",") != Join(b.endpoints, ",") then KeyEndpoints else KeyTunnelInterfaces;
    }
  }

  predicate SameDurations(a: Advanced, b: Advanced) {
    && a.commandFreshness == b.commandFreshness
    && a.learnedEndpointTTL == b.learnedEndpointTTL
    && a.redialBudget == b.redialBudget
    && a.redialBudgetWindow == b.redialBudgetWindow
    && a.redialMinUptime == b.redialMinUptime
    && a.redialWindowMax == b.redialWindowMax
    && a.switchWindowMax == b.switchWindowMax
    && a.tunnelPruneAfter == b.tunnelPruneAfter
    && a.verifyInterval == b.verifyInterval
    && a.windowDiscoveryInterval == b.windowDiscoveryInterval
  }

  lemma DifferentDuration(a: Advanced, b: Advanced) returns (k: AdvancedKey)
    requires !SameDurations(a, b)
    ensures AdvancedValue(a, k) != AdvancedValue(b, k)
  {
    k :=
      if a.commandFreshness != b.commandFreshness then KeyCommandFreshness
      else if a.learnedEndpointTTL != b.learnedEndpointTTL then KeyLearnedEndpointTTL
      else if a.redialBudget != b.redialBudget then KeyRedialBudget
      else if a.redialBudgetWindow != b.redialBudgetWindow then KeyRedialBudgetWindow
      else if a.redialMinUptime != b.redialMinUptime then KeyRedialMinUptime
      else if a.redialWindowMax != b.redialWindowMax then KeyRedialWindowMax
      else if a.switchWindowMax != b.switchWindowMax then KeySwitchWindowMax
      else if a.tunnelPruneAfter != b.tunnelPruneAfter then KeyTunnelPruneAfter
      else if a.verifyInterval != b.verifyInterval then KeyVerifyInterval
      else KeyWindowDiscoveryInterval;
  }

  predicate SameCounts(a: Advanced, b: Advanced) {
    && a.endpointWarnThreshold == b.endpointWarnThreshold
    && a.learnedMaxPerProfile == b.learnedMaxPerProfile
    && a.livenessRedial == b.livenessRedial
    && a.promoteAfterRefreshes == b.promoteAfterRefreshes
  }

  lemma DifferentCount(a: Advanced, b: Advanced) returns (k: AdvancedKey)
    requires !SameCounts(a, b)
    ensures AdvancedValue(a, k) != AdvancedValue(b, k)
  {
    k :=
      if a.endpointWarnThreshold != b.endpointWarnThreshold then KeyEndpointWarnThreshold
      else if a.learnedMaxPerProfile != b.learnedMaxPerProfile then KeyLearnedMaxPerProfile
      else if a.livenessRedial != b.livenessRedial then KeyLivenessRedial
      else KeyPromoteAfterRefreshes;
  }

  lemma SettableAdvanced(c: Config, d: Config) returns (k: AdvancedKey)
    requires CommaFreeLists(c) && CommaFreeLists(d)
    requires Settable(c).vpn.advanced != Settable(d).vpn.advanced
    ensures AdvancedValue(c.vpn.advanced, k) != AdvancedValue(d.vpn.advanced, k)
  {
    ListsIff(c, d);
    hide Join, Shown, CommaFreeLists;
    var a, b := c.vpn.advanced, d.vpn.advanced;
    if !SameDurations(a, b) {
      k := DifferentDuration(a, b);
    } else if !SameCounts(a, b) {
      k := DifferentCount(a, b);
    } else {
      k := if Join(a.windowProtocols, ",") != Join(b.windowProtocols, ",") then KeyWindowProtocols else KeyWindowPorts;
    }
  }

  lemma SettableKey(a: Config, b: Config) returns (k: Key)
    requires CommaFreeLists(a) && CommaFreeLists(b) && Settable(a) != Settable(b)
    ensures Differs(a, b, k)
  {
    hide MainValue, VPNValue, AdvancedValue, CommaFreeLists;
    if Settable(a).vpn.advanced != Settable(b).vpn.advanced {
      var x := SettableAdvanced(a, b);
      k := Adv(x);
    } else if Settable(a).vpn.(advanced := b.vpn.advanced) != Settable(b).vpn.(advanced := b.vpn.advanced) {
      var x := SettableVPN(a, b);
      k := Vpn(x);
    } else {
      var x := SettableMain(a, b);
      k := Main(x);
    }
  }

  lemma SettableValues(a: Config, b: Config, k: Key)
    requires CommaFreeLists(a) && CommaFreeLists(b) && Settable(a) == Settable(b)
    ensures !Differs(a, b, k)
  {
    ListsIff(a, b);
    match k
    case Main(_) => { hide Listed, ShownList, Shown, Join, CommaFreeLists, VPNValue, AdvancedValue; }
    case Vpn(_) => { hide Listed, ShownList, Shown, Join, CommaFreeLists, MainValue, AdvancedValue; }
    case Adv(_) => { hide Listed, ShownList, Shown, Join, CommaFreeLists, MainValue, VPNValue; }
  }

  // Where no list element holds a comma, two configs show the same at every key if and only if
  // everything settable about them is the same, a list of one blank counting as empty.
  lemma SameKeysIff(a: Config, b: Config)
    requires CommaFreeLists(a) && CommaFreeLists(b)
    ensures (forall k: Key :: !Differs(a, b, k)) <==> Settable(a) == Settable(b)
  {
    hide CommaFreeLists, Settable, Differs;
    if Settable(a) == Settable(b) {
      forall k: Key { SettableValues(a, b, k); }
    } else {
      var k := SettableKey(a, b);
    }
  }

  // So a report names no key waiting for a restart exactly when a restart on the new file, its
  // live keys aside, would change nothing settable.
  lemma NothingPendingIff(running: Config, next: Config)
    requires CommaFreeLists(running) && CommaFreeLists(next)
    ensures ReportFor(running, next).needsRestart == [] <==> Settable(MergeLive(next, running)) == Settable(running)
  {
    var restarted, pending := MergeLive(next, running), ReportFor(running, next).needsRestart;
    forall k: Key
      ensures Differs(restarted, running, k) <==> k in pending
    {
      AllKeys(k);
      DiffKeys(KEYS, running, next, k);
      MergeFollowsTables(next, running, k);
    }
    assert CommaFreeLists(restarted);
    SameKeysIff(restarted, running);
    hide *;
    if pending != [] { assert pending[0] in pending; }
  }

  // ---- what a comma hides ----

  predicate IsListKey(k: Key) {
    match k
    case Main(m) => m.KeyBlockedCountries? || m.KeyProviders?
    case Vpn(v) => v.KeyTunnelInterfaces? || v.KeyEndpoints?
    case Adv(a) => a.KeyWindowProtocols?
  }

  function WithList(c: Config, k: Key, xs: seq<string>): (r: Config)
    requires IsListKey(k)
    ensures ValueOf(r, k) == Plain(Join(xs, ","))
  {
    match k
    case Main(m) =>
      if m.KeyBlockedCountries? then c.(blockedCountries := Some(xs)) else c.(providers := Some(xs))
    case Vpn(v) =>
      if v.KeyTunnelInterfaces? then c.(vpn := c.vpn.(tunnelInterfaces := xs)) else c.(vpn := c.vpn.(endpoints := xs))
    case Adv(_) => c.(vpn := c.vpn.(advanced := c.vpn.advanced.(windowProtocols := xs)))
  }

  lemma SameMain(c: Config, k: Key, xs: seq<string>, ys: seq<string>, o: MainKey)
    requires IsListKey(k) && Join(xs, ",") == Join(ys, ",")
    ensures MainValue(WithList(c, k, xs), o) == MainValue(WithList(c, k, ys), o)
  {
    hide Join;
  }

  lemma SameVPN(c: Config, k: Key, xs: seq<string>, ys: seq<string>, o: VPNKey)
    requires IsListKey(k) && Join(xs, ",") == Join(ys, ",")
    ensures VPNValue(WithList(c, k, xs).vpn, o) == VPNValue(WithList(c, k, ys).vpn, o)
  {
    hide Join;
  }

  lemma SameAdvanced(c: Config, k: Key, xs: seq<string>, ys: seq<string>, o: AdvancedKey)
    requires IsListKey(k) && Join(xs, ",") == Join(ys, ",")
    ensures AdvancedValue(WithList(c, k, xs).vpn.advanced, o) == AdvancedValue(WithList(c, k, ys).vpn.advanced, o)
  {
    hide Join;
  }

  lemma SameJoinShowsSame(c: Config, k: Key, xs: seq<string>, ys: seq<string>, other: Key)
    requires IsListKey(k) && Join(xs, ",") == Join(ys, ",")
    ensures !Differs(WithList(c, k, xs), WithList(c, k, ys), other)
  {
    hide Join, WithList, IsListKey, MainValue, VPNValue, AdvancedValue;
    match other
    case Main(o) => SameMain(c, k, xs, ys, o);
    case Vpn(o) => SameVPN(c, k, xs, ys, o);
    case Adv(o) => SameAdvanced(c, k, xs, ys, o);
  }

  lemma ListIsSettable(c: Config, k: Key, xs: seq<string>, ys: seq<string>)
    requires IsListKey(k) && Shown(xs) != Shown(ys)
    ensures Settable(WithList(c, k, xs)) != Settable(WithList(c, k, ys))
  {
    hide Shown;
  }

  // In every config, at every list key, every list of two or more shows the same as that list
  // with any two neighbours joined by a comma.
  lemma CommaHidesChange(c: Config, k: Key, xs: seq<string>, i: nat, other: Key)
    requires IsListKey(k) && i + 1 < |xs|
    ensures var a, b := WithList(c, k, xs), WithList(c, k, Merged(xs, i));
            Settable(a) != Settable(b) && !Differs(a, b, other)
  {
    JoinMerged(xs, i);
    var m := Merged(xs, i);
    assert m[i] == xs[i] + "," + xs[i + 1];
    assert Shown(xs) == xs && Shown(m) == m;
    hide Join, Merged, Shown, WithList, Settable, Differs;
    SameJoinShowsSame(c, k, xs, m, other);
    ListIsSettable(c, k, xs, m);
  }

  // So of a config that holds a comma the comparison is never exact: where an element of one of
  // its lists has one, some other config shows the same at every key and is not the same.
  lemma CommaIsAmbiguous(c: Config, k: Key, m: seq<string>, i: nat, j: nat)
    requires IsListKey(k) && i < |m| && j < |m[i]| && m[i][j] == ','
    ensures exists xs :: && Settable(WithList(c, k, xs)) != Settable(WithList(c, k, m))
                         && forall other: Key :: !Differs(WithList(c, k, xs), WithList(c, k, m), other)
  {
    var xs := Parted(m, i, j);
    PartedMerges(m, i, j);
    hide *;
    forall other: Key
      ensures !Differs(WithList(c, k, xs), WithList(c, k, m), other)
    {
      CommaHidesChange(c, k, xs, i, other);
    }
    CommaHidesChange(c, k, xs, i, k);
  }
}
