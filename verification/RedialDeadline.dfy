// What a refusal promises, and how a flapping link decays.

module RedialDeadline {
  import opened Basics
  import opened RedialLedger
  import opened RedialExposure

  // ---- every reachable ledger ----

  // The windows on a reachable ledger follow one another, and openIdx names the open one.
  predicate Sound(l: Ledger, clock: int) {
    && l.shortRun >= 0
    && Disjoint(l.episodes)
    && Past(l.episodes, clock)
    && l.openIdx == (if Over(l.episodes) then -1 else |l.episodes| - 1)
  }

  // With nothing open.
  predicate Idle(l: Ledger, clock: int) {
    Sound(l, clock) && Over(l.episodes)
  }

  lemma CloseKeepsSound(l: Ledger, clock: int, now: int)
    requires Sound(l, clock) && clock <= now
    ensures Idle(Closed(l, now), now)
    ensures Closed(l, now).episodes == SettleLast(l.episodes, now)
  {
    SettleKeepsOrder(l.episodes, clock, now);
    var n := |l.episodes| - 1;
    if l.openIdx >= 0 {
      assert l.episodes[..n] + [l.episodes[n].Settle(now)] == Closed(l, now).episodes;
    }
  }

  lemma ExpireKeepsSound(l: Ledger, now: int, interval: int)
    requires Idle(l, now)
    ensures Idle(Expired(l, now, interval), now)
  {
    if interval > 0 {
      var gone := LiveIsSuffix(l.episodes, now - interval);
      var kept := Live(l.episodes, now - interval);
      DisjointSuffix(gone, kept);
      OpenIndexOf(kept);
      if |kept| > 0 { DropLastOfConcat(gone, kept); }
    }
  }

  lemma SettledIsIdle(l: Ledger, clock: int, now: int, s: Settings)
    requires Sound(l, clock) && clock <= now
    ensures Idle(Settled(l, now, s), now)
  {
    CloseKeepsSound(l, clock, now);
    ExpireKeepsSound(Closed(l, now), now, s.interval);
    SettledWhenAsked(l, now, s);
  }

  lemma StepKeepsSound(l: Ledger, clock: int, c: Call)
    requires Sound(l, clock) && clock <= c.now
    ensures Sound(Step(l, c).1, c.now)
  {
    hide Halved, NextEligible, OpenIndex, Live, Settled, Closed;
    match c
    case Shut(now) => CloseKeepsSound(l, clock, now);
    case Ask(now, uptime, goodExit, s) =>
      if s.window > 0 {
        SettledIsIdle(l, clock, now, s);
        GrantFits(l, now, uptime, goodExit, s);
        var (a, l') := Step(l, c);
        if a.OK() {
          var es := Settled(l, now, s).episodes;
          assert l'.episodes[..|es|] == es;
        }
      }
  }

  lemma {:induction false} RunIsSound(calls: seq<Call>)
    requires Monotone(calls)
    ensures Sound(After(calls).ledger, if |calls| > 0 then Clock(calls) else ZERO_TIME)
  {
    if |calls| > 0 {
      var before := calls[..|calls| - 1];
      var c := calls[|calls| - 1];
      RunIsSound(before);
      hide Sound, Step;
      StepKeepsSound(After(before).ledger, if |before| > 0 then Clock(before) else c.now, c);
    }
  }

  // Over every run: at most one window is open; it is the newest, and openIdx names it.
  lemma OneOpenWindow(calls: seq<Call>, i: nat)
    requires Monotone(calls) && i < |After(calls).ledger.episodes|
    ensures var l := After(calls).ledger;
            !l.episodes[i].settled <==> l.openIdx == i
    ensures !After(calls).ledger.episodes[i].settled ==> i == |After(calls).ledger.episodes| - 1
  {
    RunIsSound(calls);
    var es := After(calls).ledger.episodes;
    if i < |es| - 1 { OnlyTheLastIsOpen(es, i); }
  }

  lemma {:induction false} OnlyTheLastIsOpen(es: seq<Episode>, i: nat)
    requires Disjoint(es) && i < |es| - 1
    ensures es[i].settled
  {
    if i < |es| - 2 { OnlyTheLastIsOpen(es[..|es| - 1], i); }
  }

  // The read-only figure is the one a decision at `now` would be made against, open window
  // or not: expiry never takes an open window away.
  lemma {:induction false} ReadAgreesWithExpiry(l: Ledger, now: int, s: Settings)
    ensures SpentAsOf(l.episodes, now, s.interval) == Spent(Expired(l, now, s.interval).episodes)
    ensures forall e <- l.episodes :: !e.settled ==> e in Expired(l, now, s.interval).episodes
  {
    OpenStaysLive(l.episodes, now - s.interval);
  }

  lemma {:induction false} OpenStaysLive(es: seq<Episode>, cutoff: int)
    ensures forall e <- es :: !e.settled ==> e in Live(es, cutoff)
  {
    if |es| > 0 { OpenStaysLive(es[..|es| - 1], cutoff); }
  }

  // ---- what a decision depends on ----

  lemma {:induction false} LiveTwice(es: seq<Episode>, c: int, c': int)
    requires c <= c'
    ensures Live(Live(es, c), c') == Live(es, c')
  {
    if |es| > 0 {
      var n := |es| - 1;
      LiveTwice(es[..n], c, c');
      if !Retired(es[n], c) {
        var kept := Live(es[..n], c);
        assert (kept + [es[n]])[..|kept|] == kept;
      }
    }
  }

  // Ageing the ledger to `now` does not change what it will say later.
  lemma ExpiryIsInvisible(l: Ledger, s: Settings, now: int, t: int)
    requires now <= t
    ensures Affordable(Expired(l, now, s.interval).episodes, s, t) == Affordable(l.episodes, s, t)
  {
    if s.interval > 0 { LiveTwice(l.episodes, now - s.interval, t - s.interval); }
  }

  lemma {:induction false} LiveSpendsLess(es: seq<Episode>, c: int)
    requires Disjoint(es)
    ensures 0 <= Spent(Live(es, c)) <= Spent(es)
  {
    if |es| > 0 {
      var n := |es| - 1;
      LiveSpendsLess(es[..n], c);
      var kept := Live(es[..n], c);
      assert (kept + [es[n]])[..|kept|] == kept;
    }
  }

  lemma LiveIsDisjoint(es: seq<Episode>, c: int)
    requires Disjoint(es)
    ensures Disjoint(Live(es, c))
  {
    var gone := LiveIsSuffix(es, c);
    DisjointSuffix(gone, Live(es, c));
  }

  lemma LiveShrinks(es: seq<Episode>, c: int, c': int)
    requires c <= c' && Disjoint(es)
    ensures Spent(Live(es, c')) <= Spent(Live(es, c))
  {
    LiveTwice(es, c, c');
    LiveIsDisjoint(es, c);
    LiveSpendsLess(Live(es, c), c');
  }

  lemma AffordableLater(es: seq<Episode>, s: Settings, t: int, t': int)
    requires t <= t' && Disjoint(es)
    ensures Affordable(es, s, t) ==> Affordable(es, s, t')
  {
    hide Live, Spent;
    LiveShrinks(es, t - s.interval, t' - s.interval);
  }

  // A window opens exactly when nothing cools it down and the budget affords the least one.
  lemma GrantedIff(l: Ledger, now: int, uptime: int, goodExit: bool, s: Settings)
    requires Idle(l, now) && s.window > 0
    ensures Decide(l, now, uptime, goodExit, s).0.OK() <==>
              (l.coolUntil <= now || Recovered(uptime, goodExit, s)) && Affordable(l.episodes, s, now)
  {
    var l1 := Settled(l, now, s);
    assert l1 == Expired(l, now, s.interval);
    assert s.budget - Spent(l1.episodes) >= FloorFor(s.window) <==> Affordable(l.episodes, s, now);
    assert Wanted(if Fast(uptime, goodExit, s) then l1.shortRun + 1 else 0, s) > 0;
  }

  // ---- the published instant is the least one that works ----

  ghost predicate TooSoon(es: seq<Episode>, s: Settings, from: int, until: int) {
    forall t :: from <= t < until ==> !Affordable(es, s, t)
  }

  ghost predicate IsDeadline(es: seq<Episode>, s: Settings, from: int, at: int) {
    from <= at && Affordable(es, s, at) && TooSoon(es, s, from, at)
  }

  lemma DisjointPrefix(a: seq<Episode>, b: seq<Episode>)
    requires Disjoint(a + b)
    ensures Disjoint(a)
  {
    if |b| == 0 {
      assert a + b == a;
    } else {
      DropLastOfConcat(a, b);
      DisjointPrefix(a, b[..|b| - 1]);
    }
  }

  // Once `a` has rolled off, the ledger charges at most the rest.
  lemma SpentOnceRolled(a: seq<Episode>, b: seq<Episode>, cutoff: int)
    requires Disjoint(a) && Disjoint(b)
    requires |a| > 0 ==> Retired(a[|a| - 1], cutoff)
    ensures Spent(Live(a + b, cutoff)) <= Spent(b)
  {
    LiveConcat(a, b, cutoff);
    RetiredTogether(a, cutoff);
    assert [] + Live(b, cutoff) == Live(b, cutoff);
    LiveSpendsLess(b, cutoff);
  }

  // Settled, and off the books by `best`.
  predicate Gone(a: seq<Episode>, s: Settings, best: int) {
    Over(a) && (|a| > 0 ==> a[|a| - 1].start + s.interval <= best)
  }

  lemma RolledAffords(a: seq<Episode>, b: seq<Episode>, s: Settings, t: int)
    requires Disjoint(a + b) && Gone(a, s, t)
    requires s.interval > 0 && s.budget - Spent(b) >= FloorFor(s.window)
    ensures Affordable(a + b, s, t)
  {
    hide Live, Spent, Disjoint;
    DisjointPrefix(a, b);
    DisjointSuffix(a, b);
    SpentOnceRolled(a, b, t - s.interval);
  }

  lemma {:induction false} YoungerStay(b: seq<Episode>, cutoff: int)
    requires Disjoint(b) && |b| > 0 && b[0].start > cutoff
    ensures Live(b, cutoff) == b && b[0].start <= b[|b| - 1].start
  {
    if |b| > 1 {
      YoungerStay(b[..|b| - 1], cutoff);
    } else {
      assert b[..0] == [];
    }
  }

  // Until some of `b` has, it charges at least all of that.
  lemma ShortUntilItRolls(a: seq<Episode>, b: seq<Episode>, s: Settings, best: int)
    requires |b| > 0 && Disjoint(a + b)
    requires s.interval > 0 && s.budget - Spent(b) < FloorFor(s.window)
    ensures TooSoon(a + b, s, best, b[0].start + s.interval)
  {
    hide Disjoint, Live, Spent;
    DisjointPrefix(a, b);
    DisjointSuffix(a, b);
    forall t | best <= t < b[0].start + s.interval
      ensures !Affordable(a + b, s, t)
    {
      var cutoff := t - s.interval;
      YoungerStay(b, cutoff);
      LiveConcat(a, b, cutoff);
      SpentConcat(Live(a, cutoff), b);
      LiveSpendsLess(a, cutoff);
    }
  }

  lemma SpentHead(es: seq<Episode>)
    requires |es| > 0
    ensures Spent(es) == es[0].Cost() + Spent(es[1..])
  {
    assert es == [es[0]] + es[1..];
    SpentConcat([es[0]], es[1..]);
    assert [es[0]][..0] == [];
  }

  lemma SettledBut(a: seq<Episode>, b: seq<Episode>)
    requires Disjoint(a + b) && Over(a + b) && |b| > 0
    ensures b[0].settled
  {
    if |b| == 1 {
      DropLastOfConcat(a, b);
    } else {
      OnlyTheLastIsOpen(a + b, |a|);
    }
  }

  lemma StillTooSoon(es: seq<Episode>, s: Settings, from: int, mid: int, until: int)
    requires TooSoon(es, s, from, mid) && TooSoon(es, s, mid, until)
    ensures TooSoon(es, s, from, Max(mid, until))
  {
  }

  // One step of the walk: the head of `b` goes behind.
  lemma MoveOn(a: seq<Episode>, b: seq<Episode>) returns (a': seq<Episode>, b': seq<Episode>)
    requires |b| > 0
    ensures a' == a + [b[0]] && |b'| < |b| && a' + b' == a + b
    ensures Spent(b) == b[0].Cost() + Spent(b')
  {
    a', b' := a + [b[0]], b[1..];
    SpentHead(b);
    hide Spent;
    assert [b[0]] + b' == b;
    AppendIsAssociative(a, [b[0]], b');
  }

  lemma RollStep(a: seq<Episode>, b: seq<Episode>, freed: int, floor: int, interval: int, best: int)
    ensures var r := Roll(a + b, |a|, freed, floor, interval, best);
            r == if |b| == 0 || freed >= floor then best
                 else Roll(a + b, |a| + 1, freed + b[0].Cost(), floor, interval, Max(best, b[0].start + interval))
  {
  }

  lemma GoneOn(a: seq<Episode>, e: Episode, s: Settings, best: int)
    requires e.settled
    ensures Gone(a + [e], s, Max(best, e.start + s.interval))
  {
  }

  // Walking on from `b`, with `a` behind and rolled off by `best`.
  lemma {:induction false} RollIsDeadline(a: seq<Episode>, b: seq<Episode>, s: Settings, from: int, best: int)
    requires Disjoint(a + b) && Over(a + b) && Gone(a, s, best)
    requires s.interval > 0 && s.budget >= FloorFor(s.window)
    requires from <= best && TooSoon(a + b, s, from, best)
    ensures IsDeadline(a + b, s, from,
              Roll(a + b, |a|, s.budget - Spent(b), FloorFor(s.window), s.interval, best))
    decreases |b|
  {
    assert |b| == 0 ==> Spent(b) == 0;
    hide Disjoint, Over, Gone, Live, Spent, Affordable, Roll, TooSoon, FloorFor;
    RollStep(a, b, s.budget - Spent(b), FloorFor(s.window), s.interval, best);
    if |b| == 0 || s.budget - Spent(b) >= FloorFor(s.window) {
      RolledAffords(a, b, s, best);
    } else {
      var e := b[0];
      ShortUntilItRolls(a, b, s, best);
      StillTooSoon(a + b, s, from, best, e.start + s.interval);
      SettledBut(a, b);
      var a', b' := MoveOn(a, b);
      GoneOn(a, e, s, best);
      RollIsDeadline(a', b', s, from, Max(best, e.start + s.interval));
    }
  }

  // An idle ledger that still owes the instant `at`: nothing can open from here until `at`,
  // short of evidence that the flap is over, and everything can from `at` on.
  ghost predicate Owes(l: Ledger, clock: int, s: Settings, at: int) {
    && Idle(l, clock)
    && s.window > 0 && s.interval > 0
    && IsDeadline(l.episodes, s, Max(clock, l.coolUntil), at)
  }

  lemma NextEligibleIsDeadline(l: Ledger, now: int, s: Settings)
    requires Idle(l, now) && s.interval > 0 && s.budget >= FloorFor(s.window)
    ensures IsDeadline(l.episodes, s, Max(now, l.coolUntil), NextEligible(l, now, s))
  {
    assert [] + l.episodes == l.episodes;
    hide Disjoint, Affordable, Spent, Roll, IsDeadline;
    RollIsDeadline([], l.episodes, s, Max(l.coolUntil, now), Max(l.coolUntil, now));
  }

  lemma RefusalOwes(l: Ledger, clock: int, now: int, uptime: int, goodExit: bool, s: Settings)
    requires Sound(l, clock) && clock <= now
    requires s.window > 0 && s.interval > 0 && s.budget >= FloorFor(s.window)
    ensures var (a, l') := Decide(l, now, uptime, goodExit, s);
            !a.OK() ==> Owes(l', now, s, a.nextEligible)
  {
    hide NextEligible, Settled, Idle, IsDeadline;
    SettledIsIdle(l, clock, now, s);
    GrantFits(l, now, uptime, goodExit, s);
    NextEligibleIsDeadline(Settled(l, now, s), now, s);
  }

  // Before `at` the answer is no, and it names the same instant; from `at` on it is yes.
  lemma AskWhileOwed(l: Ledger, clock: int, now: int, uptime: int, goodExit: bool, s: Settings, at: int)
    requires Owes(l, clock, s, at) && clock <= now
    requires s.budget >= FloorFor(s.window)
    ensures var (a, l') := Decide(l, now, uptime, goodExit, s);
            if now >= at then a.OK()
            else
              && (a.OK() ==> Recovered(uptime, goodExit, s))
              && (!a.OK() ==> a.nextEligible == at && Owes(l', now, s, at))
  {
    GrantedIff(l, now, uptime, goodExit, s);
    if now >= at {
      AffordableLater(l.episodes, s, at, now);
    } else if !Decide(l, now, uptime, goodExit, s).0.OK() {
      RefusalOwes(l, clock, now, uptime, goodExit, s);
      GrantFits(l, now, uptime, goodExit, s);
      SameDeadline(l, s, now, Max(now, l.coolUntil), at,
        Decide(l, now, uptime, goodExit, s).0.nextEligible);
    }
  }

  // Ageing the ledger does not move its deadline, and a deadline is unique.
  lemma SameDeadline(l: Ledger, s: Settings, now: int, from: int, at: int, at': int)
    requires IsDeadline(l.episodes, s, from, at)
    requires IsDeadline(Expired(l, now, s.interval).episodes, s, from, at')
    requires now <= from
    ensures at == at'
  {
    ExpiryIsInvisible(l, s, now, at);
    ExpiryIsInvisible(l, s, now, at');
  }

  // ---- over runs ----

  // The answers of a run that starts from ledger `l`.
  function Replay(l: Ledger, calls: seq<Call>): (r: (seq<Answer>, Ledger))
    requires l.shortRun >= 0
    ensures |r.0| == |calls| && r.1.shortRun >= 0
  {
    if |calls| == 0 then ([], l)
    else
      var (answers, mid) := Replay(l, calls[..|calls| - 1]);
      var (a, last) := Step(mid, calls[|calls| - 1]);
      (answers + [a], last)
  }

  // Calls between a refusal at `clock`, which left ledger `l`, and the instant it named, in
  // order. A drop with evidence that the flap is over may be among them so long as the budget
  // refuses it: once one is helped the wait is over.
  predicate Waiting(l: Ledger, calls: seq<Call>, clock: int, s: Settings, at: int)
    requires l.shortRun >= 0
  {
    |calls| == 0 ||
    var n := |calls| - 1;
    && Waiting(l, calls[..n], clock, s, at)
    && ClockFrom(calls[..n], clock) <= calls[n].now < at
    && (calls[n].Ask? ==> calls[n].s == s && Unhelped(Replay(l, calls[..n]).1, calls[n]))
  }

  predicate Unhelped(l: Ledger, c: Call)
    requires l.shortRun >= 0 && c.Ask?
  {
    !Recovered(c.uptime, c.goodExit, c.s) || !Step(l, c).0.OK()
  }

  function ClockFrom(calls: seq<Call>, clock: int): int {
    if |calls| == 0 then clock else Clock(calls)
  }

  lemma {:induction false} HeldWhileWaiting(l: Ledger, clock: int, calls: seq<Call>, s: Settings, at: int)
    requires Owes(l, clock, s, at) && s.budget >= FloorFor(s.window)
    requires Waiting(l, calls, clock, s, at)
    ensures var (answers, l') := Replay(l, calls);
            && (forall i :: 0 <= i < |calls| && calls[i].Ask? ==> !answers[i].OK() && answers[i].nextEligible == at)
            && Owes(l', ClockFrom(calls, clock), s, at)
  {
    assert l.shortRun >= 0;
    hide Owes, Step, Unhelped, FloorFor;
    if |calls| > 0 {
      var n := |calls| - 1;
      HeldWhileWaiting(l, clock, calls[..n], s, at);
      HeldStep(Replay(l, calls[..n]).1, ClockFrom(calls[..n], clock), calls[n], s, at);
    }
  }

  lemma HeldStep(l: Ledger, clock: int, c: Call, s: Settings, at: int)
    requires Owes(l, clock, s, at) && s.budget >= FloorFor(s.window)
    requires clock <= c.now < at
    requires c.Ask? ==> c.s == s && Unhelped(l, c)
    ensures var (a, l') := Step(l, c);
            Owes(l', c.now, s, at) && (c.Ask? ==> !a.OK() && a.nextEligible == at)
  {
    match c
    case Shut(now) => assert Closed(l, now) == l;
    case Ask(now, uptime, goodExit, _) =>
      AskWhileOwed(l, clock, now, uptime, goodExit, s, at);
  }

  // The published deadline, end to end: refused after any run at all, a drop is refused
  // with the same instant however often it asks before then, until evidence that the flap is
  // over gets it help sooner; and it is helped when it asks then or later.
  lemma DeadlineIsExact(before: seq<Call>, ask: Call, waiting: seq<Call>, retry: Call)
    requires Monotone(before) && (|before| > 0 ==> Clock(before) <= ask.now) && ask.Ask?
    requires ask.s.window > 0 && ask.s.interval > 0 && ask.s.budget >= FloorFor(ask.s.window)
    requires retry.Ask? && retry.s == ask.s
    ensures var (a, l) := Step(After(before).ledger, ask);
            !a.OK() && Waiting(l, waiting, ask.now, ask.s, a.nextEligible) ==>
              var (answers, l') := Replay(l, waiting);
              && (forall i :: 0 <= i < |waiting| && waiting[i].Ask? ==>
                    !answers[i].OK() && answers[i].nextEligible == a.nextEligible)
              && (retry.now >= a.nextEligible ==> Step(l', retry).0.OK())
              && (ClockFrom(waiting, ask.now) <= retry.now < a.nextEligible ==>
                    var again := Step(l', retry).0;
                    if again.OK() then Recovered(retry.uptime, retry.goodExit, ask.s)
                    else again.nextEligible == a.nextEligible)
  {
    var l0 := After(before).ledger;
    RunIsSound(before);
    RefusalOwes(l0, if |before| > 0 then Clock(before) else ask.now, ask.now, ask.uptime, ask.goodExit, ask.s);
    var (a, l) := Step(l0, ask);
    if !a.OK() && Waiting(l, waiting, ask.now, ask.s, a.nextEligible) {
      HeldWhileWaiting(l, ask.now, waiting, ask.s, a.nextEligible);
      WaitingEnds(l, waiting, ask.now, ask.s, a.nextEligible);
      if retry.now >= ClockFrom(waiting, ask.now) {
        AskWhileOwed(Replay(l, waiting).1, ClockFrom(waiting, ask.now),
          retry.now, retry.uptime, retry.goodExit, ask.s, a.nextEligible);
      }
    }
  }

  // In particular of the very next drop.
  lemma NextDropIsHelped(before: seq<Call>, ask: Call, retry: Call)
    requires Monotone(before) && (|before| > 0 ==> Clock(before) <= ask.now) && ask.Ask?
    requires ask.s.window > 0 && ask.s.interval > 0 && ask.s.budget >= FloorFor(ask.s.window)
    requires retry.Ask? && retry.s == ask.s
    ensures var (a, l) := Step(After(before).ledger, ask);
            !a.OK() && retry.now >= a.nextEligible ==> Step(l, retry).0.OK()
  {
    hide Step, After, Clock, Monotone, FloorFor;
    DeadlineIsExact(before, ask, [], retry);
  }

  lemma WaitingEnds(l: Ledger, calls: seq<Call>, clock: int, s: Settings, at: int)
    requires l.shortRun >= 0 && Waiting(l, calls, clock, s, at) && clock <= at
    ensures ClockFrom(calls, clock) <= at
  {
  }

  // Exactly when a refusal's instant is honoured, for every ledger and all settings: a
  // budget below the least window can never pay, and without an interval nothing rolls off.
  lemma HonouredIff(l: Ledger, clock: int, now: int, uptime: int, goodExit: bool, s: Settings,
      uptime': int, goodExit': bool)
    requires Sound(l, clock) && clock <= now && s.window > 0
    ensures var (a, l') := Decide(l, now, uptime, goodExit, s);
            !a.OK() ==>
              (Decide(l', a.nextEligible, uptime', goodExit', s).0.OK() <==>
                 s.budget >= FloorFor(s.window) &&
                 (s.interval > 0 || s.budget - Spent(Settled(l, now, s).episodes) >= FloorFor(s.window)))
  {
    hide Live, Roll, Disjoint, Halved, OpenIndex;
    var (a, l') := Decide(l, now, uptime, goodExit, s);
    if !a.OK() {
      var at := a.nextEligible;
      GrantFits(l, now, uptime, goodExit, s);
      if s.interval > 0 && s.budget >= FloorFor(s.window) {
        RefusalOwes(l, clock, now, uptime, goodExit, s);
        AskWhileOwed(l', now, at, uptime', goodExit', s, at);
      } else {
        RefusalIsIdle(l, clock, now, uptime, goodExit, s);
        LiveSpendsLess(l'.episodes, at - s.interval);
        GrantedIff(l', at, uptime', goodExit', s);
      }
    }
  }

  lemma RefusalIsIdle(l: Ledger, clock: int, now: int, uptime: int, goodExit: bool, s: Settings)
    requires Sound(l, clock) && clock <= now && s.window > 0
    ensures var (a, l') := Decide(l, now, uptime, goodExit, s);
            !a.OK() ==> Max(now, l'.coolUntil) <= a.nextEligible && Idle(l', a.nextEligible)
  {
    hide Halved, Disjoint, Live, OpenIndex, Roll;
    SettledIsIdle(l, clock, now, s);
    GrantFits(l, now, uptime, goodExit, s);
    var l' := Settled(l, now, s);
    RollGrows(l'.episodes, 0, s.budget - Spent(l'.episodes), FloorFor(s.window), s.interval, Max(l'.coolUntil, now));
  }

  lemma {:induction false} RollGrows(es: seq<Episode>, i: nat, freed: int, floor: int, interval: int, best: int)
    requires i <= |es|
    ensures best <= Roll(es, i, freed, floor, interval, best)
    decreases |es| - i
  {
    if i < |es| && freed < floor {
      RollGrows(es, i + 1, freed + es[i].Cost(), floor, interval, Max(best, es[i].start + interval));
    }
  }

  // ---- flapping ----

  // When, and for how long, windows opened in a run.
  function Openings(l: Ledger, calls: seq<Call>): seq<(int, int)>
    requires l.shortRun >= 0
  {
    if |calls| == 0 then []
    else
      var n := |calls| - 1;
      var a := Step(Replay(l, calls[..n]).1, calls[n]).0;
      Openings(l, calls[..n]) + if a.OK() then [(calls[n].now, a.duration)] else []
  }

  // Every drop that is helped came too fast. Drops that are refused may be of any kind.
  predicate Flapping(l: Ledger, calls: seq<Call>, s: Settings)
    requires l.shortRun >= 0
  {
    |calls| == 0 ||
    var n := |calls| - 1;
    && Flapping(l, calls[..n], s)
    && (calls[n].Ask? ==>
          && calls[n].s == s
          && (Step(Replay(l, calls[..n]).1, calls[n]).0.OK() ==> Fast(calls[n].uptime, calls[n].goodExit, s)))
  }

  function Cooling(s: Settings, steps: int): int {
    Min(s.window * steps, s.interval)
  }

  function CoolingSum(s: Settings, from: int, n: nat): int {
    if n == 0 then 0 else CoolingSum(s, from, n - 1) + Cooling(s, from + n - 1)
  }

  // A refusal leaves the backoff and the cooldown as they were; so does closing.
  lemma RefusedChangesNothing(l: Ledger, c: Call)
    requires l.shortRun >= 0
    requires !Step(l, c).0.OK()
    ensures Step(l, c).1.shortRun == l.shortRun && Step(l, c).1.coolUntil == l.coolUntil
  {
    if c.Ask? { GrantFits(l, c.now, c.uptime, c.goodExit, c.s); }
  }

  lemma FastGrant(l: Ledger, now: int, uptime: int, goodExit: bool, s: Settings)
    requires l.shortRun >= 0 && s.window > 0
    requires Fast(uptime, goodExit, s)
    ensures var (a, l') := Decide(l, now, uptime, goodExit, s);
            a.OK() ==>
              && l.coolUntil <= now
              && l'.shortRun == l.shortRun + 1
              && l'.coolUntil == now + Cooling(s, l.shortRun + 1)
              && a.duration <= Wanted(l.shortRun + 1, s)
  {
    hide Live, Roll, OpenIndex, Halved, Spent;
    assert s.window * (l.shortRun + 1) > 0;
  }

  // The windows `o` of a flap that began after `m` fast drops: the k-th is at most the k-th
  // halving (never under the least window), and opens no sooner than the cooldown the one
  // before it earned.
  predicate Decayed(o: seq<(int, int)>, m: int, s: Settings)
    requires m >= 0
  {
    |o| == 0 ||
    var n := |o| - 1;
    && Decayed(o[..n], m, s)
    && o[n].1 <= Wanted(m + n + 1, s)
    && (n > 0 ==> o[n].0 >= o[n - 1].0 + Cooling(s, m + n))
  }

  lemma {:induction false} FlapDecay(l: Ledger, calls: seq<Call>, s: Settings)
    requires l.shortRun >= 0 && s.window > 0
    requires Flapping(l, calls, s)
    ensures var o, l', m := Openings(l, calls), Replay(l, calls).1, l.shortRun;
            && Decayed(o, m, s)
            && l'.shortRun == m + |o|
            && l'.coolUntil == (if |o| == 0 then l.coolUntil else o[|o| - 1].0 + Cooling(s, m + |o|))
  {
    hide Decide, Closed;
    if |calls| > 0 {
      var n := |calls| - 1;
      var front, c := calls[..n], calls[n];
      FlapDecay(l, front, s);
      var mid := Replay(l, front).1;
      var o := Openings(l, front);
      if Step(mid, c).0.OK() {
        FastGrant(mid, c.now, c.uptime, c.goodExit, s);
        assert (o + [(c.now, Step(mid, c).0.duration)])[..|o|] == o;
      } else {
        RefusedChangesNothing(mid, c);
        assert Openings(l, calls) == o;
      }
    }
  }

  lemma {:induction false} DecayedSpan(o: seq<(int, int)>, s: Settings)
    requires Decayed(o, 0, s)
    ensures forall k :: 0 <= k < |o| ==>
              o[k].1 <= Wanted(k + 1, s) && o[k].0 - o[0].0 >= CoolingSum(s, 1, k)
  {
    if |o| > 0 {
      var n := |o| - 1;
      DecayedSpan(o[..n], s);
      assert forall k :: 0 <= k < n ==> o[..n][k] == o[k];
    }
  }

  // So the k-th window of a flap is short, and k windows take at least the cooldowns between.
  lemma FlapSpan(l: Ledger, calls: seq<Call>, s: Settings)
    requires l.shortRun == 0 && s.window > 0
    requires Flapping(l, calls, s)
    ensures var o := Openings(l, calls);
            forall k :: 0 <= k < |o| ==>
              o[k].1 <= Wanted(k + 1, s) && o[k].0 - o[0].0 >= CoolingSum(s, 1, k)
  {
    FlapDecay(l, calls, s);
    DecayedSpan(Openings(l, calls), s);
  }
}
