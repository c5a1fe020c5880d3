// Configuration and ledger together: no config that loads, and no run of reloads, leaves a
// drop waiting for help that never comes.

module ReachableHelp {
  import opened Basics
  import opened Config
  import opened Reload
  import L = RedialLedger
  import X = RedialExposure
  import D = RedialDeadline

  // The settings the ledger is asked with, read afresh from the running config each time.
  function SettingsOf(c: Config): L.Settings {
    L.Settings(c.vpn.redialWindow, c.vpn.advanced.redialBudget, c.vpn.advanced.redialBudgetWindow,
      c.vpn.advanced.redialMinUptime)
  }

  predicate Loadable(c: Config, plausible: string -> bool) {
    Normal(c) == c && Valid(c, plausible)
  }

  // The pair of drops a published instant is about: if the first is refused, the second,
  // coming at that instant or later, is helped.
  predicate Kept(l: L.Ledger, s: L.Settings, first: X.Call, second: X.Call)
    requires l.shortRun >= 0 && first.Ask? && second.Ask?
  {
    var (a, l') := L.Decide(l, first.now, first.uptime, first.goodExit, s);
    !a.OK() && second.now >= a.nextEligible ==>
      l'.shortRun >= 0 && L.Decide(l', second.now, second.uptime, second.goodExit, s).0.OK()
  }

  // What happens to a daemon, as far as its ledger is concerned: a config file is read, the
  // tunnel drops, a window closes.
  datatype Event<E> = Read(loaded: Result<Config, E>) | Drop(now: int, uptime: int, goodExit: bool) | Close(now: int)

  function Loads<E>(events: seq<Event<E>>): seq<Result<Config, E>> {
    if |events| == 0 then []
    else
      var before := Loads(events[..|events| - 1]);
      if events[|events| - 1].Read? then before + [events[|events| - 1].loaded] else before
  }

  predicate AllLoadable<E(==)>(events: seq<Event<E>>, plausible: string -> bool) {
    forall e <- events :: e.Read? && e.loaded.Ok? ==> Loadable(e.loaded.value, plausible)
  }

  // The calls the ledger receives, each drop under the settings then in force.
  function Calls<E>(startup: Config, events: seq<Event<E>>): seq<X.Call> {
    if |events| == 0 then []
    else
      var front := events[..|events| - 1];
      match events[|events| - 1]
      case Read(_) => Calls(startup, front)
      case Drop(now, uptime, goodExit) =>
        Calls(startup, front) + [X.Ask(now, uptime, goodExit, SettingsOf(RunningAfter(startup, Loads(front))))]
      case Close(now) => Calls(startup, front) + [X.Shut(now)]
  }

  // The cross-key rule is exactly what the ledger needs.
  lemma LoadableSettings(c: Config, plausible: string -> bool)
    requires Loadable(c, plausible) && c.vpn.redialWindow > 0
    ensures var s := SettingsOf(c); s.interval > 0 && s.budget >= L.FloorFor(s.window)
  {
    hide NormalCountries, ValidProfiles, ValidAdvanced, CleanProfiles, TrimAll, CleanProtocols;
    assert NormalAdvanced(c.vpn.advanced) == c.vpn.advanced;
  }

  lemma {:induction false} RunStaysLoadable<E>(startup: Config, events: seq<Event<E>>, plausible: string -> bool)
    requires Loadable(startup, plausible)
    requires AllLoadable(events, plausible)
    ensures Loadable(RunningAfter(startup, Loads(events)), plausible)
  {
    LoadsAreRead(events);
    RunStaysValid(startup, Loads(events), plausible);
  }

  lemma {:induction false} LoadsAreRead<E>(events: seq<Event<E>>)
    ensures forall l <- Loads(events) :: exists e <- events :: e.Read? && e.loaded == l
  {
    if |events| > 0 {
      var front, last := events[..|events| - 1], events[|events| - 1];
      LoadsAreRead(front);
      assert events == front + [last];
      forall l <- Loads(events)
        ensures exists e <- events :: e.Read? && e.loaded == l
      {
        if l !in Loads(front) { assert last.Read? && last.loaded == l && last in events; }
      }
    }
  }

  lemma MonotoneBefore(calls: seq<X.Call>, c: X.Call)
    requires X.Monotone(calls + [c])
    ensures X.Monotone(calls) && (|calls| > 0 ==> X.Clock(calls) <= c.now)
  {
    assert (calls + [c])[..|calls|] == calls;
  }

  // After any run of drops, closes and reloads, good files and bad, a drop that is refused
  // while the automatic window is on is granted at the published instant and at any later
  // one, with or without signs of recovery.
  lemma NeverRefusedForever<E>(startup: Config, events: seq<Event<E>>, plausible: string -> bool,
      first: X.Call, second: X.Call)
    requires Loadable(startup, plausible) && AllLoadable(events, plausible)
    requires first.Ask? && second.Ask? && X.Monotone(Calls(startup, events) + [first])
    requires first.s == SettingsOf(RunningAfter(startup, Loads(events))) == second.s
    ensures first.s.window > 0 ==> Kept(X.After(Calls(startup, events)).ledger, first.s, first, second)
  {
    hide Loadable, AllLoadable, Calls, Loads, RunningAfter, L.Decide, L.FloorFor, X.After, X.Monotone, X.Clock;
    var calls := Calls(startup, events);
    MonotoneBefore(calls, first);
    RunStaysLoadable(startup, events, plausible);
    if first.s.window > 0 {
      LoadableSettings(RunningAfter(startup, Loads(events)), plausible);
      D.NextDropIsHelped(calls, first, second);
    }
  }

  // And the rule refuses nothing it need not: with a budget below its floor no drop is ever
  // helped, whatever the ledger holds, so every published instant would be a false promise.
  lemma RejectedBudgetNeverOpens(c: Config, l: L.Ledger, now: int, uptime: int, goodExit: bool)
    requires c.vpn.redialWindow > 0
    requires c.vpn.advanced.redialBudget < Min(MIN_REDIAL_GRANT, c.vpn.redialWindow)
    requires D.Sound(l, now)
    ensures !L.Decide(l, now, uptime, goodExit, SettingsOf(c)).0.OK()
  {
    var s := SettingsOf(c);
    D.SettledIsIdle(l, now, now, s);
    D.LiveSpendsLess(L.Settled(l, now, s).episodes, now);
    hide L.Settled, L.Live, L.Spent, L.Halved, X.Disjoint, L.NextEligible;
  }
}
