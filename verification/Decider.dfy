// From country readings to a committed verdict, and what a reload may do to the count.

module Decider {
  import opened Basics
  import opened Config
  import opened Reload
  import opened Text

  datatype Verdict = Allow | Block

  // A lookup that failed, or the country it found.
  datatype Reading = Failed | Found(code: string)

  function Other(v: Verdict): Verdict {
    if v == Allow then Block else Allow
  }

  // ---- the machine as a value ----

  datatype Core = Core(blocked: set<string>, need: nat, current: Verdict, candidate: Verdict, streak: nat)

  function BlockSet(codes: seq<string>): set<string> {
    set c | c in codes && CleanCountry(c) != "" :: CleanCountry(c)
  }

  function Fresh(codes: seq<string>, hysteresis: int): Core {
    Core(BlockSet(codes), Max(1, hysteresis), Allow, Allow, 0)
  }

  function Vote(blocked: set<string>, code: string): Verdict {
    if CleanCountry(code) in blocked then Block else Allow
  }

  function Eval(d: Core, r: Reading): Core {
    match r
    case Failed => d
    case Found(code) =>
      var v := Vote(d.blocked, code);
      if v == d.current then d.(candidate := d.current, streak := 0)
      else
        var streak := if v == d.candidate then d.streak + 1 else 1;
        if streak >= d.need then d.(current := v, candidate := v, streak := 0)
        else d.(candidate := v, streak := streak)
  }

  function Run(d: Core, rs: seq<Reading>): Core {
    if |rs| == 0 then d else Eval(Run(d, rs[..|rs| - 1]), rs[|rs| - 1])
  }

  // ---- the object ----

  class Machine {
    var blocked: set<string>
    var need: nat
    var current: Verdict
    var candidate: Verdict
    var streak: nat

    ghost function View(): Core
      reads this
    {
      Core(blocked, need, current, candidate, streak)
    }

    constructor (blockedCountries: seq<string>, hysteresis: int)
      ensures View() == Fresh(blockedCountries, hysteresis)
    {
      var codes: set<string> := {};
      for i := 0 to |blockedCountries|
        invariant codes == BlockSet(blockedCountries[..i])
      {
        assert blockedCountries[..i + 1] == blockedCountries[..i] + [blockedCountries[i]];
        var c := CleanCountry(blockedCountries[i]);
        if c != "" {
          codes := codes + {c};
        }
      }
      assert blockedCountries[..|blockedCountries|] == blockedCountries;
      blocked := codes;
      need := if hysteresis < 1 then 1 else hysteresis;
      current, candidate, streak := Allow, Allow, 0;
    }

    method Pending() returns (v: Verdict, have: nat, needed: nat)
      ensures (v, have, needed) == (if streak == 0 then current else candidate, streak, need)
    {
      if streak == 0 {
        return current, 0, need;
      }
      return candidate, streak, need;
    }

    method Evaluate(r: Reading) returns (v: Verdict)
      modifies this
      ensures View() == Eval(old(View()), r) && v == current
    {
      if r.Failed? {
        return current;
      }
      v := Vote(blocked, r.code);
      if v == current {
        candidate := current;
        streak := 0;
        return current;
      }
      if v == candidate {
        streak := streak + 1;
      } else {
        candidate := v;
        streak := 1;
      }
      if streak >= need {
        current := v;
        streak := 0;
      }
      return current;
    }
  }

  // ---- the verdict by looking back ----

  // The votes of the readings that succeeded.
  function Votes(blocked: set<string>, rs: seq<Reading>): seq<Verdict> {
    if |rs| == 0 then []
    else
      var before := Votes(blocked, rs[..|rs| - 1]);
      match rs[|rs| - 1]
      case Failed => before
      case Found(code) => before + [Vote(blocked, code)]
  }

  // The committed verdict, the votes since it was committed, and how many flips there were.
  datatype History = History(current: Verdict, since: seq<Verdict>, flips: nat)

  predicate Overruled(current: Verdict, since: seq<Verdict>, need: nat) {
    |since| >= need && forall k :: 0 <= k < |since| && k >= |since| - need ==> since[k] != current
  }

  // The verdict flips exactly when the last `need` votes since its last flip all disagree.
  function Committed(votes: seq<Verdict>, need: nat): History {
    if |votes| == 0 then History(Allow, [], 0)
    else
      var h := Committed(votes[..|votes| - 1], need);
      var since := h.since + [votes[|votes| - 1]];
      if Overruled(h.current, since, need) then History(Other(h.current), [], h.flips + 1)
      else h.(since := since)
  }

  // How many of the latest votes disagree in a row.
  function Against(current: Verdict, since: seq<Verdict>): nat {
    if |since| == 0 || since[|since| - 1] == current then 0
    else 1 + Against(current, since[..|since| - 1])
  }

  lemma {:induction false} AgainstIs(current: Verdict, since: seq<Verdict>, n: nat)
    ensures Against(current, since) >= n <==> Overruled(current, since, n)
  {
    if |since| > 0 && n > 0 { AgainstIs(current, since[..|since| - 1], n - 1); }
  }

  predicate Matches(d: Core, h: History) {
    && d.current == h.current
    && d.streak == Against(h.current, h.since) < d.need
    && d.candidate == (if d.streak == 0 then d.current else Other(d.current))
  }

  lemma VoteMatches(d: Core, h: History, code: string)
    requires Matches(d, h)
    ensures var since := h.since + [Vote(d.blocked, code)];
            Matches(Eval(d, Found(code)),
              if Overruled(h.current, since, d.need) then History(Other(h.current), [], h.flips + 1)
              else h.(since := since))
  {
    var since := h.since + [Vote(d.blocked, code)];
    assert since[..|h.since|] == h.since;
    AgainstIs(h.current, since, d.need);
  }

  // Over every history the counter commits what looking back commits. Failed readings are
  // not in the votes, so deleting them, or adding them, changes nothing; and what Pending
  // reports is the run of disagreement since the last flip.
  lemma {:induction false} Hysteresis(codes: seq<string>, hysteresis: int, rs: seq<Reading>)
    ensures var d := Run(Fresh(codes, hysteresis), rs);
            var h := Committed(Votes(BlockSet(codes), rs), Max(1, hysteresis));
            && d.blocked == BlockSet(codes) && d.need == Max(1, hysteresis)
            && Matches(d, h)
  {
    hide Matches, Overruled, BlockSet, Eval, Vote;
    if |rs| == 0 {
      hide *;
      FreshMatches(codes, hysteresis);
    } else {
      var front, last := rs[..|rs| - 1], rs[|rs| - 1];
      Hysteresis(codes, hysteresis, front);
      var d := Run(Fresh(codes, hysteresis), front);
      var votes := Votes(BlockSet(codes), front);
      EvalKeeps(d, last);
      if last.Found? {
        var v := Vote(BlockSet(codes), last.code);
        VoteMatches(d, Committed(votes, d.need), last.code);
        assert (votes + [v])[..|votes|] == votes;
      }
    }
  }

  lemma FreshMatches(codes: seq<string>, hysteresis: int)
    ensures Run(Fresh(codes, hysteresis), []) == Fresh(codes, hysteresis)
    ensures Matches(Fresh(codes, hysteresis), Committed(Votes(BlockSet(codes), []), Max(1, hysteresis)))
    ensures Fresh(codes, hysteresis).blocked == BlockSet(codes) && Fresh(codes, hysteresis).need == Max(1, hysteresis)
  {
  }

  lemma EvalKeeps(d: Core, r: Reading)
    ensures Eval(d, r).blocked == d.blocked && Eval(d, r).need == d.need
    ensures r.Failed? ==> Eval(d, r) == d
  {
  }

  // Each flip uses up `need` votes of its own.
  lemma {:induction false} FlipsAreRare(votes: seq<Verdict>, need: nat)
    ensures var h := Committed(votes, need); h.flips * need + |h.since| <= |votes|
  {
    if |votes| > 0 { FlipsAreRare(votes[..|votes| - 1], need); }
  }

  // ---- the verdict, told of the codes and the list ----

  predicate Listed(list: seq<string>, code: string) {
    Upper(Trim(code)) != "" && exists c <- list :: Upper(Trim(c)) == Upper(Trim(code))
  }

  // The codes of the readings that succeeded.
  function Codes(rs: seq<Reading>): seq<string> {
    if |rs| == 0 then []
    else
      var front, last := Codes(rs[..|rs| - 1]), rs[|rs| - 1];
      if last.Found? then front + [last.code] else front
  }

  // The last `n` codes are all on the list, or all off it.
  predicate InARow(list: seq<string>, codes: seq<string>, n: nat, listed: bool) {
    |codes| >= n && forall k :: |codes| - n <= k < |codes| ==> Listed(list, codes[k]) == listed
  }

  // What the latest `n` in a row said; nothing is blocked before there were any.
  function Latest(list: seq<string>, codes: seq<string>, n: nat): Verdict
    requires n >= 1
    decreases |codes|
  {
    if |codes| < n then Allow
    else if InARow(list, codes, n, true) then Block
    else if InARow(list, codes, n, false) then Allow
    else Latest(list, codes[..|codes| - 1], n)
  }

  // How many of the latest codes in a row are on the list, or off it.
  function Trail(list: seq<string>, codes: seq<string>, listed: bool): nat {
    if |codes| == 0 || Listed(list, codes[|codes| - 1]) != listed then 0
    else 1 + Trail(list, codes[..|codes| - 1], listed)
  }

  lemma {:induction false} TrailIs(list: seq<string>, codes: seq<string>, n: nat, listed: bool)
    ensures Trail(list, codes, listed) >= n <==> InARow(list, codes, n, listed)
  {
    hide Listed;
    if |codes| > 0 && n > 0 { TrailIs(list, codes[..|codes| - 1], n - 1, listed); }
  }

  // A decider that has seen `codes`: its verdict is what the latest row of `need` said, and it
  // counts the codes since that speak against it.
  predicate Knows(d: Core, list: seq<string>, codes: seq<string>) {
    && d.need >= 1
    && d.current == Latest(list, codes, d.need)
    && d.streak == Trail(list, codes, d.current == Allow) < d.need
    && d.candidate == (if d.streak == 0 then d.current else if d.current == Allow then Block else Allow)
  }

  // One code more.
  lemma TrailNext(list: seq<string>, codes: seq<string>, code: string, listed: bool)
    ensures Trail(list, codes + [code], listed) ==
              if Listed(list, code) == listed then Trail(list, codes, listed) + 1 else 0
  {
    assert (codes + [code])[..|codes|] == codes;
  }

  lemma LatestNext(list: seq<string>, codes: seq<string>, code: string, n: nat)
    requires n >= 1
    ensures Latest(list, codes + [code], n) ==
              if Trail(list, codes + [code], true) >= n then Block
              else if Trail(list, codes + [code], false) >= n then Allow
              else Latest(list, codes, n)
  {
    assert (codes + [code])[..|codes|] == codes;
    TrailIs(list, codes + [code], n, true);
    TrailIs(list, codes + [code], n, false);
    hide Listed, Trail;
  }

  lemma KnowsOneMore(d: Core, list: seq<string>, codes: seq<string>, code: string, more: seq<string>)
    requires Knows(d, list, codes) && d.blocked == BlockSet(list) && more == codes + [code]
    ensures Knows(Eval(d, Found(code)), list, more)
  {
    VoteIsListed(list, code);
    TrailNext(list, codes, code, true);
    TrailNext(list, codes, code, false);
    LatestNext(list, codes, code, d.need);
    hide Listed, InARow, BlockSet, Vote, Trail, Latest;
  }

  lemma VoteIsListed(list: seq<string>, code: string)
    ensures Vote(BlockSet(list), code) == if Listed(list, code) then Block else Allow
  {
    hide Upper, Trim;
  }

  // Over every history the verdict is Block exactly if the latest time as many readings in a
  // row as hysteresis asks for agreed, they were of listed countries; failed ones between them
  // count for nothing. And what is pending is the run of readings against it since.
  lemma {:induction false} VerdictIsLatest(list: seq<string>, hysteresis: int, rs: seq<Reading>)
    ensures var d := Run(Fresh(list, hysteresis), rs);
            d.need == Max(1, hysteresis) && d.blocked == BlockSet(list) && Knows(d, list, Codes(rs))
  {
    hide BlockSet, Eval, Knows;
    if |rs| == 0 {
      KnowsNothing(list, hysteresis);
    } else {
      var front, last := rs[..|rs| - 1], rs[|rs| - 1];
      VerdictIsLatest(list, hysteresis, front);
      var d := Run(Fresh(list, hysteresis), front);
      EvalKeeps(d, last);
      if last.Found? { KnowsOneMore(d, list, Codes(front), last.code, Codes(rs)); }
    }
  }

  lemma KnowsNothing(list: seq<string>, hysteresis: int)
    ensures Knows(Fresh(list, hysteresis), list, [])
  {
  }

  // So as many listed readings in a row block, as many unlisted ones allow, and nothing else
  // turns the verdict.
  lemma VerdictTurns(list: seq<string>, hysteresis: int, rs: seq<Reading>, r: Reading)
    ensures var n, codes := Max(1, hysteresis), Codes(rs + [r]);
            var before := Run(Fresh(list, hysteresis), rs).current;
            var after := Run(Fresh(list, hysteresis), rs + [r]).current;
            && (InARow(list, codes, n, true) ==> after == Block)
            && (InARow(list, codes, n, false) ==> after == Allow)
            && (before != after ==> r.Found? && InARow(list, codes, n, after == Block))
  {
    hide Run, Fresh, InARow;
    assert (rs + [r])[..|rs|] == rs && (rs + [r])[|rs|] == r;
    VerdictIsLatest(list, hysteresis, rs);
    VerdictIsLatest(list, hysteresis, rs + [r]);
    var n, codes := Max(1, hysteresis), Codes(rs + [r]);
    NotBoth(list, codes, n);
    if r.Found? { assert codes[..|codes| - 1] == Codes(rs); }
    TooFew(list, codes, n);
  }

  lemma NotBoth(list: seq<string>, codes: seq<string>, n: nat)
    requires n >= 1
    ensures !(InARow(list, codes, n, true) && InARow(list, codes, n, false))
  {
    if |codes| >= n { assert Listed(list, codes[|codes| - 1]) in {true, false}; }
  }

  lemma TooFew(list: seq<string>, codes: seq<string>, n: nat)
    ensures |codes| < n ==> !InARow(list, codes, n, true) && !InARow(list, codes, n, false)
  {
  }

  // ---- reloads ----

  datatype Event<E> = Seen(r: Reading) | Edited(loaded: Result<Config, E>)

  function CodesOf(c: Config): seq<string> {
    if c.blockedCountries.Some? then c.blockedCountries.value else []
  }

  function FreshFor(c: Config): Core {
    Fresh(CodesOf(c), c.hysteresis)
  }

  // The running config and decider. A reload replaces the decider only when its report says
  // so, and a file that does not load replaces nothing.
  function Live<E>(startup: Config, events: seq<Event<E>>): (Config, Core) {
    if |events| == 0 then (startup, FreshFor(startup))
    else
      var (running, d) := Live(startup, events[..|events| - 1]);
      match events[|events| - 1]
      case Seen(r) => (running, Eval(d, r))
      case Edited(Err(_)) => (running, d)
      case Edited(Ok(next)) =>
        var merged := MergeLive(running, next);
        (merged, if ReportFor(running, next).newDecider then FreshFor(merged) else d)
  }

  // The readings since the last reload that changed the country list or the hysteresis.
  function Counted<E>(startup: Config, events: seq<Event<E>>): seq<Reading> {
    if |events| == 0 then []
    else
      var front := events[..|events| - 1];
      match events[|events| - 1]
      case Seen(r) => Counted(startup, front) + [r]
      case Edited(Err(_)) => Counted(startup, front)
      case Edited(Ok(next)) =>
        var running := Live(startup, front).0;
        if next.hysteresis == running.hysteresis && CodesOf(next) == CodesOf(running) then Counted(startup, front)
        else []
  }

  // Whatever is edited in between, the decider in force is the one the running config
  // describes, having seen exactly the readings since its list or hysteresis last changed.
  // An edit that touches neither cancels no flip being counted toward.
  lemma {:induction false} ReloadsKeepTheCount<E>(startup: Config, events: seq<Event<E>>)
    ensures var (running, d) := Live(startup, events); d == Run(FreshFor(running), Counted(startup, events))
  {
    hide Eval, Fresh, Diff, KeysOf;
    if |events| > 0 {
      var front := events[..|events| - 1];
      ReloadsKeepTheCount(startup, front);
      match events[|events| - 1]
      case Seen(r) =>
        var seen := Counted(startup, front);
        assert (seen + [r])[..|seen|] == seen;
      case Edited(_) =>
    }
  }

  // So the verdict at any moment is the one looking back over those readings gives.
  lemma VerdictIsCounted<E>(startup: Config, events: seq<Event<E>>)
    ensures var (running, d) := Live(startup, events);
            var votes := Votes(BlockSet(CodesOf(running)), Counted(startup, events));
            && d.current == Committed(votes, Max(1, running.hysteresis)).current
            && d.current == Latest(CodesOf(running), Codes(Counted(startup, events)), Max(1, running.hysteresis))
  {
    var running := Live(startup, events).0;
    ReloadsKeepTheCount(startup, events);
    Hysteresis(CodesOf(running), running.hysteresis, Counted(startup, events));
    VerdictIsLatest(CodesOf(running), running.hysteresis, Counted(startup, events));
    hide Eval, Run, Committed, Votes, Counted, Latest, Trail;
  }
}
