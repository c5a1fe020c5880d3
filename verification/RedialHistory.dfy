// What the budget does, told from the calls and their answers alone: when each window was
// open, what is charged for it, and what the next drop is given. Nothing here looks into the
// ledger.

module RedialHistory {
  import opened Basics
  import opened RedialLedger
  import opened RedialExposure
  import D = RedialDeadline

  // ---- when each window was open ----

  // What the i-th call was answered.
  function AnswerTo(calls: seq<Call>, i: nat): Answer
    requires i < |calls|
  {
    Step(After(calls[..i]).ledger, calls[i]).0
  }

  // The i-th call opened a window.
  predicate Opens(calls: seq<Call>, i: nat)
    requires i < |calls|
  {
    calls[i].Ask? && AnswerTo(calls, i).duration > 0
  }

  // Such a call ends whatever window is open.
  predicate Ends(c: Call) {
    c.Shut? || c.s.window > 0
  }

  predicate StillOpen(calls: seq<Call>, i: nat) {
    forall j :: i < j < |calls| ==> !Ends(calls[j])
  }

  // The first ending at or after place `from`, if it comes before `cap`; else `cap`.
  function EndBy(calls: seq<Call>, from: nat, cap: int): int
    decreases |calls| - from
  {
    if from >= |calls| then cap
    else if Ends(calls[from]) then Min(calls[from].now, cap)
    else EndBy(calls, from + 1, cap)
  }

  // A window runs from its drop to the first ending after it, or for as long as was granted.
  function EndOf(calls: seq<Call>, i: nat): int
    requires i < |calls|
  {
    EndBy(calls, i + 1, calls[i].now + AnswerTo(calls, i).duration)
  }

  // For how much of [lo, hi] one of the windows opened by the first `n` calls was open.
  function OpenFor(calls: seq<Call>, n: nat, lo: int, hi: int): int
    requires n <= |calls|
  {
    if n == 0 then 0
    else
      var i := n - 1;
      OpenFor(calls, i, lo, hi) +
      if Opens(calls, i) then Max(0, Min(EndOf(calls, i), hi) - Max(calls[i].now, lo)) else 0
  }

  // What is charged for those windows to an interval that began at `cutoff`: their time open if
  // they began after it, and a window still open always, in full.
  function Charge(calls: seq<Call>, n: nat, cutoff: int): int
    requires n <= |calls|
  {
    if n == 0 then 0
    else
      var i := n - 1;
      Charge(calls, i, cutoff) +
      if Opens(calls, i) && (StillOpen(calls, i) || calls[i].now > cutoff) then EndOf(calls, i) - calls[i].now else 0
  }

  // ---- the archive is that history ----

  function Window(calls: seq<Call>, i: nat): Episode
    requires i < |calls|
  {
    var granted := AnswerTo(calls, i).duration;
    if StillOpen(calls, i) then Episode(calls[i].now, granted, 0, false)
    else Episode(calls[i].now, granted, EndOf(calls, i) - calls[i].now, true)
  }

  function Windows(calls: seq<Call>, n: nat): seq<Episode>
    requires n <= |calls|
  {
    if n == 0 then []
    else Windows(calls, n - 1) + if Opens(calls, n - 1) then [Window(calls, n - 1)] else []
  }

  lemma {:induction false} OneMoreEnding(calls: seq<Call>, c: Call, from: nat, cap: int)
    requires from <= |calls|
    ensures EndBy(calls + [c], from, cap) ==
              if (forall j :: from <= j < |calls| ==> !Ends(calls[j])) && Ends(c) then Min(c.now, cap)
              else EndBy(calls, from, cap)
    decreases |calls| - from
  {
    if from < |calls| {
      assert (calls + [c])[from] == calls[from];
      if !Ends(calls[from]) { OneMoreEnding(calls, c, from + 1, cap); }
    } else {
      assert (calls + [c])[from] == c;
    }
  }

  lemma AnswerStays(calls: seq<Call>, c: Call, i: nat)
    requires i < |calls|
    ensures AnswerTo(calls + [c], i) == AnswerTo(calls, i)
  {
    assert (calls + [c])[..i] == calls[..i];
  }

  lemma {:induction false} NotYetEnded(calls: seq<Call>, from: nat, cap: int)
    ensures (forall j :: from <= j < |calls| ==> !Ends(calls[j])) ==> EndBy(calls, from, cap) == cap
    decreases |calls| - from
  {
    if from < |calls| { NotYetEnded(calls, from + 1, cap); }
  }

  lemma StillOpenSnoc(calls: seq<Call>, c: Call, i: nat)
    requires i < |calls|
    ensures StillOpen(calls + [c], i) <==> StillOpen(calls, i) && !Ends(c)
  {
    assert (calls + [c])[|calls|] == c;
    assert forall j :: 0 <= j < |calls| ==> (calls + [c])[j] == calls[j];
  }

  // A further call settles the window that is open, if it ends anything, and no other.
  lemma WindowMovesOn(calls: seq<Call>, c: Call, i: nat)
    requires i < |calls| && calls[i].now <= c.now && AnswerTo(calls, i).duration >= 0
    ensures var w := Window(calls, i);
            Window(calls + [c], i) == if !w.settled && Ends(c) then w.Settle(c.now) else w
  {
    hide Step, After, Ends, EndBy, AnswerTo, StillOpen;
    var cap := calls[i].now + AnswerTo(calls, i).duration;
    AnswerStays(calls, c, i);
    assert (calls + [c])[i] == calls[i];
    StillOpenIs(calls, i);
    OneMoreEnding(calls, c, i + 1, cap);
    NotYetEnded(calls, i + 1, cap);
    StillOpenSnoc(calls, c, i);
  }

  lemma StillOpenIs(calls: seq<Call>, i: nat)
    requires i < |calls|
    ensures StillOpen(calls, i) <==> forall j :: i + 1 <= j < |calls| ==> !Ends(calls[j])
  {
  }

  lemma OpeningEnds(calls: seq<Call>, i: nat)
    requires i < |calls| && Opens(calls, i)
    ensures Ends(calls[i])
  {
    hide Judge, Settled, After;
  }

  // Windows opened before a call that ends one are over; a further call leaves them alone.
  lemma {:induction false} EarlierAreOver(calls: seq<Call>, c: Call, n: nat, m: nat)
    requires n <= m < |calls| && Ends(calls[m])
    requires forall i :: 0 <= i < n ==> calls[i].now <= c.now
    ensures Windows(calls + [c], n) == Windows(calls, n)
  {
    hide Step, After, Ends, EndBy;
    if n > 0 {
      EarlierAreOver(calls, c, n - 1, m);
      AnswerStays(calls, c, n - 1);
      assert (calls + [c])[n - 1] == calls[n - 1];
      if Opens(calls, n - 1) { WindowMovesOn(calls, c, n - 1); }
    }
  }

  lemma {:induction false} WindowsMoveOn(calls: seq<Call>, c: Call, n: nat)
    requires n <= |calls| && forall i :: 0 <= i < n ==> calls[i].now <= c.now
    ensures Windows(calls + [c], n) == if Ends(c) then SettleLast(Windows(calls, n), c.now) else Windows(calls, n)
  {
    hide Windows, Window, Ends, AnswerTo, SettleLast;
    if n == 0 {
      NoWindows(calls);
      NoWindows(calls + [c]);
      SettleNone(c.now);
    } else {
      var i := n - 1;
      WindowsNext(calls, i);
      WindowsNext(calls + [c], i);
      AnswerStays(calls, c, i);
      assert (calls + [c])[i] == calls[i];
      if Opens(calls, i) {
        OpeningEnds(calls, i);
        EarlierAreOver(calls, c, i, i);
        WindowMovesOn(calls, c, i);
        SettleSnoc(Windows(calls, i), Window(calls, i), c.now);
      } else {
        WindowsMoveOn(calls, c, i);
      }
    }
  }

  lemma SettleNone(now: int)
    ensures SettleLast([], now) == []
  {
  }

  lemma SettleSnoc(front: seq<Episode>, w: Episode, now: int)
    ensures SettleLast(front + [w], now) == front + [if w.settled then w else w.Settle(now)]
  {
    assert (front + [w])[..|front|] == front;
  }

  lemma {:induction false} InOrder(calls: seq<Call>, i: nat)
    requires Monotone(calls) && i < |calls|
    ensures calls[i].now <= Clock(calls)
  {
    if i < |calls| - 1 { InOrder(calls[..|calls| - 1], i); }
  }

  // So the archive the bound is proved of is the windows as they were open.
  lemma {:induction false} ArchiveIs(calls: seq<Call>)
    requires Monotone(calls)
    ensures After(calls).archive == Windows(calls, |calls|)
  {
    hide Step, Ends, EndBy, Window;
    if |calls| > 0 {
      var n := |calls| - 1;
      var front, c := calls[..n], calls[n];
      assert calls == front + [c];
      ArchiveIs(front);
      forall i | 0 <= i < n ensures front[i].now <= c.now { InOrder(calls, i); }
      WindowsMoveOn(front, c, n);
      LatestWindow(calls);
    }
  }

  // What the latest call adds to the archive.
  lemma LatestWindow(calls: seq<Call>)
    requires |calls| > 0
    ensures var n := |calls| - 1;
            var c, h := calls[n], After(calls[..n]).archive;
            var h' := if Ends(c) then SettleLast(h, c.now) else h;
            After(calls).archive == h' + if Opens(calls, n) then [Window(calls, n)] else []
  {
    hide EndBy, Judge, Settled;
    var n := |calls| - 1;
    if Opens(calls, n) { OpeningEnds(calls, n); }
  }

  // ---- the promise of the budget, told of that history ----

  lemma OpenTimeSnoc(front: seq<Episode>, w: Episode, lo: int, hi: int)
    ensures OpenTime(front + [w], lo, hi) == OpenTime(front, lo, hi) + Overlap(w, lo, hi)
  {
    assert (front + [w])[..|front|] == front;
  }

  // What the archive holds of a window.
  lemma WindowSays(calls: seq<Call>, i: nat)
    requires i < |calls|
    ensures var w := Window(calls, i);
            && w.start == calls[i].now && w.Cost() == EndOf(calls, i) - calls[i].now
            && w.settled == !StillOpen(calls, i)
  {
    hide Step, After, EndBy, Ends;
    NotYetEnded(calls, i + 1, calls[i].now + AnswerTo(calls, i).duration);
  }

  lemma NoWindows(calls: seq<Call>)
    ensures Windows(calls, 0) == []
    ensures forall lo, hi :: OpenTime([], lo, hi) == 0
    ensures forall cutoff :: Spent(Live([], cutoff)) == 0
  {
  }

  lemma WindowsNext(calls: seq<Call>, i: nat)
    requires i < |calls|
    ensures Windows(calls, i + 1) ==
              if Opens(calls, i) then Windows(calls, i) + [Window(calls, i)] else Windows(calls, i)
  {
    hide Opens, Window;
  }

  lemma {:induction false} OpenTimeIs(calls: seq<Call>, n: nat, lo: int, hi: int)
    requires n <= |calls|
    ensures OpenTime(Windows(calls, n), lo, hi) == OpenFor(calls, n, lo, hi)
  {
    hide Windows, Window, Opens, EndOf, StillOpen, OpenTime;
    if n == 0 {
      NoWindows(calls);
    } else {
      var i := n - 1;
      OpenTimeIs(calls, i, lo, hi);
      WindowSays(calls, i);
      WindowsNext(calls, i);
      OpenTimeSnoc(Windows(calls, i), Window(calls, i), lo, hi);
    }
  }

  // Over every run of calls at non-decreasing times, whatever the reloads between, in any
  // stretch one interval long the windows were open for at most the budget.
  lemma ExposureBound(calls: seq<Call>, interval: int, budget: int, lo: int)
    requires Monotone(calls) && Within(calls, interval, budget) && 0 < interval && 0 <= budget
    ensures OpenFor(calls, |calls|, lo, lo + interval) <= budget
  {
    hide After, OpenTime, OpenFor, Windows, Monotone, Within;
    RollingExposureBound(calls, interval, budget, lo);
    ArchiveIs(calls);
    OpenTimeIs(calls, |calls|, lo, lo + interval);
  }

  // ---- and what the ledger charges ----

  lemma SpentLiveSnoc(front: seq<Episode>, w: Episode, cutoff: int)
    ensures Spent(Live(front + [w], cutoff)) == Spent(Live(front, cutoff)) + if Retired(w, cutoff) then 0 else w.Cost()
  {
    assert (front + [w])[..|front|] == front;
    var kept := Live(front, cutoff);
    assert (kept + [w])[..|kept|] == kept;
  }

  lemma {:induction false} ChargeIs(calls: seq<Call>, n: nat, cutoff: int)
    requires n <= |calls|
    ensures Spent(Live(Windows(calls, n), cutoff)) == Charge(calls, n, cutoff)
  {
    hide Windows, Window, Opens, EndOf, StillOpen, Spent, Live;
    if n == 0 {
      NoWindows(calls);
    } else {
      var i := n - 1;
      ChargeIs(calls, i, cutoff);
      WindowSays(calls, i);
      WindowsNext(calls, i);
      SpentLiveSnoc(Windows(calls, i), Window(calls, i), cutoff);
    }
  }

  function MostBudget(calls: seq<Call>): int {
    if |calls| == 0 then 0
    else
      var m, c := MostBudget(calls[..|calls| - 1]), calls[|calls| - 1];
      if c.Ask? then Max(m, c.s.budget) else m
  }

  lemma {:induction false} MostIsMost(calls: seq<Call>)
    ensures forall c <- calls :: c.Ask? ==> c.s.budget <= MostBudget(calls)
  {
    if |calls| > 0 {
      MostIsMost(calls[..|calls| - 1]);
      assert calls == calls[..|calls| - 1] + [calls[|calls| - 1]];
    }
  }

  // No drop so far was asked for under a shorter interval.
  predicate NoShorter(calls: seq<Call>, interval: int) {
    forall c <- calls :: c.Ask? ==> c.s.interval >= interval
  }

  // At any later moment the ledger, forgetful as it is, charges exactly what the history says.
  lemma LedgerCharges(calls: seq<Call>, now: int, interval: int)
    requires Monotone(calls) && NoShorter(calls, interval) && 0 < interval
    requires |calls| > 0 ==> Clock(calls) <= now
    ensures Spent(Live(After(calls).ledger.episodes, now - interval)) == Charge(calls, |calls|, now - interval)
  {
    hide Step, Live, Spent, Charge, Windows, AllRetired, Disjoint, Bounded;
    ArchiveIs(calls);
    ChargeIs(calls, |calls|, now - interval);
    if |calls| > 0 {
      MostIsMost(calls);
      RunKeepsInv(calls, interval, MostBudget(calls));
      var dropped :| Inv(dropped, After(calls), Clock(calls), interval, MostBudget(calls));
      AllRetiredLater(dropped, Clock(calls) - interval, now - interval);
      NoneLive(dropped, now - interval);
      LiveConcat(dropped, After(calls).ledger.episodes, now - interval);
      var kept := Live(After(calls).ledger.episodes, now - interval);
      assert [] + kept == kept;
    }
  }

  lemma {:induction false} NoneLive(es: seq<Episode>, cutoff: int)
    requires AllRetired(es, cutoff)
    ensures Live(es, cutoff) == []
  {
    if |es| > 0 { NoneLive(es[..|es| - 1], cutoff); }
  }

  // What Remaining reads: the budget less what the history says is charged.
  lemma RemainingByHistory(calls: seq<Call>, now: int, s: Settings)
    requires Monotone(calls) && NoShorter(calls, s.interval) && 0 < s.interval
    requires |calls| > 0 ==> Clock(calls) <= now
    ensures Spent(Expired(After(calls).ledger, now, s.interval).episodes) == Charge(calls, |calls|, now - s.interval)
  {
    hide Live, OpenIndex, Spent, Charge, Monotone, After, NoShorter;
    LedgerCharges(calls, now, s.interval);
  }

  // ---- what the next drop is given ----

  // The tunnel was up, and not for long.
  predicate Quick(c: Call)
    requires c.Ask?
  {
    c.s.minUptime > 0 && !c.goodExit && 0 < c.uptime && c.uptime < c.s.minUptime
  }

  // It was up for long enough, or was seen to work.
  predicate Proven(c: Call)
    requires c.Ask?
  {
    c.goodExit || (c.s.minUptime > 0 && c.s.minUptime <= c.uptime)
  }

  predicate LastOpens(calls: seq<Call>) {
    |calls| > 0 && Opens(calls, |calls| - 1)
  }

  // How many of the latest windows in a row were for quick drops.
  function QuickRun(calls: seq<Call>): nat {
    if |calls| == 0 then 0
    else
      var front, c := calls[..|calls| - 1], calls[|calls| - 1];
      if !LastOpens(calls) then QuickRun(front)
      else if Quick(c) then QuickRun(front) + 1
      else 0
  }

  // Until when the latest window's drop, if it was quick, has everything cool down: one window
  // for each quick drop in a row, and no longer than the interval.
  function CoolsUntil(calls: seq<Call>): int {
    if |calls| == 0 then ZERO_TIME
    else
      var front, c := calls[..|calls| - 1], calls[|calls| - 1];
      if !LastOpens(calls) then CoolsUntil(front)
      else if Quick(c) then c.now + Min(c.s.window * (QuickRun(front) + 1), c.s.interval)
      else ZERO_TIME
  }

  lemma {:induction false} BackoffIs(calls: seq<Call>)
    ensures var l := After(calls).ledger; l.shortRun == QuickRun(calls) && l.coolUntil == CoolsUntil(calls)
  {
    if |calls| > 0 {
      hide Step, Quick, After;
      var front, c := calls[..|calls| - 1], calls[|calls| - 1];
      LedgerNext(calls);
      BackoffIs(front);
      BackoffStep(After(front).ledger, c);
    }
  }

  lemma LedgerNext(calls: seq<Call>)
    requires |calls| > 0
    ensures var front, c := calls[..|calls| - 1], calls[|calls| - 1];
            After(calls).ledger == Step(After(front).ledger, c).1
  {
    hide Step, Archived;
  }

  lemma BackoffStep(l: Ledger, c: Call)
    requires l.shortRun >= 0
    ensures var (a, l') := Step(l, c);
            if !(c.Ask? && a.duration > 0) then l'.shortRun == l.shortRun && l'.coolUntil == l.coolUntil
            else if Quick(c) then
              l'.shortRun == l.shortRun + 1 && l'.coolUntil == c.now + Min(c.s.window * (l.shortRun + 1), c.s.interval)
            else l'.shortRun == 0 && l'.coolUntil == ZERO_TIME
  {
    hide Halved, Live, OpenIndex, Spent, Roll;
    if c.Ask? && Quick(c) && c.s.window > 0 { assert c.s.window * (l.shortRun + 1) > 0; }
  }

  lemma {:induction false} SameEnding(calls: seq<Call>, c: Call, c': Call, n: nat, cutoff: int)
    requires n <= |calls| && c.now == c'.now && Ends(c) && Ends(c')
    ensures Charge(calls + [c], n, cutoff) == Charge(calls + [c'], n, cutoff)
  {
    hide Step, After, Ends, EndBy;
    if n > 0 {
      var i := n - 1;
      SameEnding(calls, c, c', i, cutoff);
      AnswerStays(calls, c, i);
      AnswerStays(calls, c', i);
      StillOpenSnoc(calls, c, i);
      StillOpenSnoc(calls, c', i);
      var cap := calls[i].now + AnswerTo(calls, i).duration;
      OneMoreEnding(calls, c, i + 1, cap);
      OneMoreEnding(calls, c', i + 1, cap);
      assert (calls + [c])[i] == calls[i] && (calls + [c'])[i] == calls[i];
    }
  }

  // What the drop finds left: asking ends the window that is open, as closing would.
  lemma FoundSpent(calls: seq<Call>, ask: Call)
    requires Monotone(calls + [ask]) && ask.Ask? && ask.s.window > 0
    requires NoShorter(calls, ask.s.interval) && 0 < ask.s.interval
    ensures Spent(Settled(After(calls).ledger, ask.now, ask.s).episodes) ==
              Charge(calls + [ask], |calls|, ask.now - ask.s.interval)
  {
    hide Live, Spent, Monotone, After, Decide;
    var shut := Shut(ask.now);
    var closed := calls + [shut];
    MonotoneAsWell(calls, ask, shut);
    assert closed[..|calls|] == calls && closed[|calls|] == shut;
    AfterShut(calls, ask.now);
    LedgerCharges(closed, ask.now, ask.s.interval);
    SameEnding(calls, ask, shut, |calls|, ask.now - ask.s.interval);
    SettledWhenAsked(After(calls).ledger, ask.now, ask.s);
  }

  lemma AfterShut(calls: seq<Call>, now: int)
    ensures After(calls + [Shut(now)]).ledger == Closed(After(calls).ledger, now)
  {
    assert (calls + [Shut(now)])[..|calls|] == calls;
  }

  lemma MonotoneAsWell(calls: seq<Call>, c: Call, c': Call)
    requires Monotone(calls + [c]) && c.now == c'.now
    ensures Monotone(calls + [c'])
  {
    assert (calls + [c])[..|calls|] == calls == (calls + [c'])[..|calls|];
  }

  lemma HalvedIs(w: int, k: nat)
    requires w >= 0 && k <= 4
    ensures Halved(w, k) == w / [1, 2, 4, 8, 16][k]
  {
    assert Halved(w, 0) == w;
    assert Halved(w, 1) == w / 2;
    assert Halved(w, 2) == w / 2 / 2 == w / 4;
    assert Halved(w, 3) == w / 4 / 2 == w / 8;
    assert Halved(w, 4) == w / 8 / 2 == w / 16;
  }

  // The whole answer, from the history: none while windows are switched off; refused while a
  // flap cools down, unless the link has proved itself; refused when less is left than the least
  // window; and otherwise helped for the full window, halved for each quick drop in a row up to
  // four, or for whatever is left.
  lemma AnswerByHistory(calls: seq<Call>, ask: Call)
    requires Monotone(calls + [ask]) && ask.Ask?
    requires NoShorter(calls, ask.s.interval) && 0 < ask.s.interval
    ensures var s, a := ask.s, Step(After(calls).ledger, ask).0;
            var left := s.budget - Charge(calls + [ask], |calls|, ask.now - s.interval);
            var least := Min(5 * SECOND, s.window);
            var run := if Quick(ask) then QuickRun(calls) + 1 else 0;
            var want := Max(least, s.window / [1, 2, 4, 8, 16][Min(run, 4)]);
            if s.window <= 0 then a.duration == 0 && a.reason == SwitchedOff
            else if ask.now < CoolsUntil(calls) && !Proven(ask) then a.duration == 0 && a.reason == Cooldown
            else if left < least then a.duration == 0 && a.reason == Exhausted
            else
              && a.duration == Min(want, left) && a.duration > 0
              && a.reason == (if left < want then Truncated else if Quick(ask) then Backoff else Full)
  {
    hide Judge, Settled, Spent, Charge, QuickRun, CoolsUntil, After, Monotone, NoShorter, Quick, Proven;
    if ask.s.window > 0 {
      BackoffIs(calls);
      FoundSpent(calls, ask);
      var l := After(calls).ledger;
      SettledKeepsBackoff(l, ask.now, ask.s);
      JudgedOn(Settled(l, ask.now, ask.s), ask);
    }
  }

  lemma SettledKeepsBackoff(l: Ledger, now: int, s: Settings)
    ensures Settled(l, now, s).shortRun == l.shortRun && Settled(l, now, s).coolUntil == l.coolUntil
  {
    hide Live, OpenIndex;
  }

  lemma JudgedOn(l: Ledger, ask: Call)
    requires l.shortRun >= 0 && ask.Ask? && ask.s.window > 0
    ensures var s, a := ask.s, Judge(l, ask.now, ask.uptime, ask.goodExit, ask.s).0;
            var left := s.budget - Spent(l.episodes);
            var least := Min(5 * SECOND, s.window);
            var run := if Quick(ask) then l.shortRun + 1 else 0;
            var want := Max(least, s.window / [1, 2, 4, 8, 16][Min(run, 4)]);
            if ask.now < l.coolUntil && !Proven(ask) then a.duration == 0 && a.reason == Cooldown
            else if left < least then a.duration == 0 && a.reason == Exhausted
            else
              && a.duration == Min(want, left) && a.duration > 0
              && a.reason == (if left < want then Truncated else if Quick(ask) then Backoff else Full)
  {
    hide Halved, Spent, Roll, Opened, NextEligible;
    HalvedIs(ask.s.window, Min(if Quick(ask) then l.shortRun + 1 else 0, 4));
  }

  // What the history leaves of the budget at `t`.
  function LeftAt(calls: seq<Call>, s: Settings, t: int): int {
    s.budget - Charge(calls, |calls|, t - s.interval)
  }

  // And the instant a refusal names: the first, once nothing cools down, at which the history
  // leaves enough for the least window.
  lemma DeadlineByHistory(calls: seq<Call>, ask: Call)
    requires Monotone(calls + [ask]) && ask.Ask? && ask.s.window > 0
    requires NoShorter(calls, ask.s.interval) && 0 < ask.s.interval
    requires ask.s.budget >= Min(5 * SECOND, ask.s.window)
    ensures var all, s, a := calls + [ask], ask.s, Step(After(calls).ledger, ask).0;
            var from, least := Max(ask.now, CoolsUntil(calls)), Min(5 * SECOND, s.window);
            a.duration <= 0 ==>
              && from <= a.nextEligible
              && LeftAt(all, s, a.nextEligible) >= least
              && forall t :: from <= t < a.nextEligible ==> LeftAt(all, s, t) < least
  {
    hide After, Monotone, Clock, Charge, Live, Spent, QuickRun, CoolsUntil, Decide, D.Sound;
    var all, l := calls + [ask], After(calls).ledger;
    var (a, l') := Step(l, ask);
    if a.duration <= 0 {
      StepOf(calls, ask);
      BackoffIs(calls);
      BackoffStep(l, ask);
      SoundByThen(calls, ask.now);
      D.RefusalOwes(l, ask.now, ask.now, ask.uptime, ask.goodExit, ask.s);
      forall t | t >= ask.now
        ensures Affordable(l'.episodes, ask.s, t) <==> LeftAt(all, ask.s, t) >= Min(5 * SECOND, ask.s.window)
      {
        LedgerCharges(all, t, ask.s.interval);
      }
    }
  }

  lemma SoundByThen(calls: seq<Call>, now: int)
    requires Monotone(calls) && (|calls| > 0 ==> Clock(calls) <= now)
    ensures D.Sound(After(calls).ledger, now)
  {
    D.RunIsSound(calls);
    assert |calls| == 0 ==> After(calls) == FRESH;
    hide After, Monotone, Disjoint;
  }

  lemma StepOf(calls: seq<Call>, c: Call)
    requires Monotone(calls + [c])
    ensures After(calls + [c]).ledger == Step(After(calls).ledger, c).1
    ensures Monotone(calls) && (|calls| > 0 ==> Clock(calls) <= c.now) && Clock(calls + [c]) == c.now
  {
    hide Step, Archived;
    var all := calls + [c];
    assert all[..|calls|] == calls && all[|calls|] == c;
  }
}
