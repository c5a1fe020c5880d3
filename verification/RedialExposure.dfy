// How long automatic windows can leave the guard relaxed, over whole runs.
//
// The reference is an archive that never forgets: every window that was ever granted,
// rebuilt from the calls and their answers alone. The ledger forgets; the theorems say
// that what it remembers is enough.

module RedialExposure {
  import opened Basics
  import opened RedialLedger

  datatype Call =
    | Ask(now: int, uptime: int, goodExit: bool, s: Settings)
    | Shut(now: int)

  // ---- the archive ----

  function SettleLast(h: seq<Episode>, now: int): seq<Episode> {
    if |h| > 0 && !h[|h| - 1].settled then h[..|h| - 1] + [h[|h| - 1].Settle(now)] else h
  }

  // A call that closes or opens a window says so in its answer; nothing else counts.
  function Archived(h: seq<Episode>, c: Call, a: Answer): seq<Episode> {
    match c
    case Shut(now) => SettleLast(h, now)
    case Ask(now, _, _, s) =>
      if s.window <= 0 then h
      else if a.OK() then SettleLast(h, now) + [Episode(now, a.duration, 0, false)]
      else SettleLast(h, now)
  }

  function Step(l: Ledger, c: Call): (r: (Answer, Ledger))
    requires l.shortRun >= 0
    ensures r.1.shortRun >= 0
  {
    match c
    case Shut(now) => (Answer(0, SwitchedOff, ZERO_TIME), Closed(l, now))
    case Ask(now, uptime, goodExit, s) => Decide(l, now, uptime, goodExit, s)
  }

  datatype World = World(ledger: Ledger, archive: seq<Episode>)

  const FRESH: World := World(EMPTY, [])

  // The world after a run of calls on a new budget.
  function After(calls: seq<Call>): (w: World)
    ensures w.ledger.shortRun >= 0
  {
    if |calls| == 0 then FRESH
    else
      var w := After(calls[..|calls| - 1]);
      var c := calls[|calls| - 1];
      var (a, l) := Step(w.ledger, c);
      World(l, Archived(w.archive, c, a))
  }

  function Clock(calls: seq<Call>): int
    requires |calls| > 0
  {
    calls[|calls| - 1].now
  }

  // Time does not run backwards.
  predicate Monotone(calls: seq<Call>) {
    |calls| <= 1 ||
    var n := |calls| - 1;
    Monotone(calls[..n]) && calls[n - 1].now <= calls[n].now
  }

  // Reloads keep every interval at least `interval` and every budget at most `budget`.
  // Windows and uptimes may change at each call.
  predicate Within(calls: seq<Call>, interval: int, budget: int) {
    forall c <- calls :: c.Ask? ==> c.s.interval >= interval && c.s.budget <= budget
  }

  // ---- measures ----

  // What the windows that started in (lo, hi] cost in total.
  function CostIn(h: seq<Episode>, lo: int, hi: int): int {
    if |h| == 0 then 0
    else
      var e := h[|h| - 1];
      CostIn(h[..|h| - 1], lo, hi) + if lo < e.start <= hi then e.Cost() else 0
  }

  function CostAfter(h: seq<Episode>, lo: int): int {
    if |h| == 0 then 0
    else
      var e := h[|h| - 1];
      CostAfter(h[..|h| - 1], lo) + if lo < e.start then e.Cost() else 0
  }

  // How much of [lo, hi] an open window covers.
  function Overlap(e: Episode, lo: int, hi: int): int {
    Max(0, Min(e.start + e.Cost(), hi) - Max(e.start, lo))
  }

  function OpenTime(h: seq<Episode>, lo: int, hi: int): int {
    if |h| == 0 then 0
    else OpenTime(h[..|h| - 1], lo, hi) + Overlap(h[|h| - 1], lo, hi)
  }

  // ---- what every run keeps ----

  predicate Sane(e: Episode) {
    0 <= e.Cost() <= e.granted
  }

  // Windows follow one another: each was settled, and over, before the next began.
  predicate Disjoint(h: seq<Episode>) {
    |h| == 0 ||
    var n := |h| - 1;
    && Disjoint(h[..n]) && Sane(h[n])
    && (n > 0 ==> h[n - 1].settled && h[n - 1].start + h[n - 1].Cost() <= h[n].start)
  }

  // As each window opened, those of the last interval, this one included, fitted.
  predicate Bounded(h: seq<Episode>, interval: int, budget: int) {
    |h| == 0 ||
    var n := |h| - 1;
    Bounded(h[..n], interval, budget) && CostAfter(h, h[n].start - interval) <= budget
  }

  predicate AllRetired(es: seq<Episode>, cutoff: int) {
    |es| == 0 || (AllRetired(es[..|es| - 1], cutoff) && Retired(es[|es| - 1], cutoff))
  }

  predicate Over(h: seq<Episode>) {
    |h| == 0 || h[|h| - 1].settled
  }

  // The ledger is the archive minus a prefix of settled windows a full interval old.
  predicate Remembers(dropped: seq<Episode>, w: World, clock: int, interval: int) {
    && w.archive == dropped + w.ledger.episodes
    && w.ledger.openIdx == (if Over(w.ledger.episodes) then -1 else |w.ledger.episodes| - 1)
    && AllRetired(dropped, clock - interval)
  }

  predicate Past(h: seq<Episode>, clock: int) {
    |h| == 0 ||
    var e := h[|h| - 1];
    e.start + (if e.settled then e.Cost() else 0) <= clock
  }

  predicate Inv(dropped: seq<Episode>, w: World, clock: int, interval: int, budget: int) {
    && Disjoint(w.archive)
    && Past(w.archive, clock)
    && Bounded(w.archive, interval, budget)
    && Remembers(dropped, w, clock, interval)
  }

  // ---- small facts ----

  lemma {:induction false} SpentConcat(a: seq<Episode>, b: seq<Episode>)
    ensures Spent(a + b) == Spent(a) + Spent(b)
  {
    if |b| == 0 {
      assert a + b == a;
    } else {
      DropLastOfConcat(a, b);
      SpentConcat(a, b[..|b| - 1]);
    }
  }

  lemma {:induction false} LiveConcat(a: seq<Episode>, b: seq<Episode>, cutoff: int)
    ensures Live(a + b, cutoff) == Live(a, cutoff) + Live(b, cutoff)
  {
    if |b| == 0 {
      assert a + b == a;
    } else {
      DropLastOfConcat(a, b);
      LiveConcat(a, b[..|b| - 1], cutoff);
    }
  }

  lemma {:induction false} CostAfterConcat(a: seq<Episode>, b: seq<Episode>, lo: int)
    ensures CostAfter(a + b, lo) == CostAfter(a, lo) + CostAfter(b, lo)
  {
    if |b| == 0 {
      assert a + b == a;
    } else {
      DropLastOfConcat(a, b);
      CostAfterConcat(a, b[..|b| - 1], lo);
    }
  }

  lemma {:induction false} AllRetiredConcat(a: seq<Episode>, b: seq<Episode>, cutoff: int)
    requires AllRetired(a, cutoff) && AllRetired(b, cutoff)
    ensures AllRetired(a + b, cutoff)
  {
    if |b| == 0 {
      assert a + b == a;
    } else {
      DropLastOfConcat(a, b);
      AllRetiredConcat(a, b[..|b| - 1], cutoff);
    }
  }

  lemma {:induction false} AllRetiredLater(es: seq<Episode>, c: int, c': int)
    requires AllRetired(es, c) && c <= c'
    ensures AllRetired(es, c')
  {
    if |es| > 0 { AllRetiredLater(es[..|es| - 1], c, c'); }
  }

  lemma {:induction false} DisjointSuffix(a: seq<Episode>, b: seq<Episode>)
    requires Disjoint(a + b)
    ensures Disjoint(b)
  {
    if |b| > 0 {
      DropLastOfConcat(a, b);
      DisjointSuffix(a, b[..|b| - 1]);
      if |b| > 1 { assert (a + b)[|a + b| - 2] == b[|b| - 2]; }
    }
  }

  // The last of a run of windows is the youngest, so once it has retired they all have.
  lemma {:induction false} RetiredTogether(es: seq<Episode>, cutoff: int)
    requires Disjoint(es)
    requires |es| > 0 ==> Retired(es[|es| - 1], cutoff)
    ensures AllRetired(es, cutoff) && Live(es, cutoff) == []
  {
    if |es| > 0 { RetiredTogether(es[..|es| - 1], cutoff); }
  }

  // So expiry cuts a prefix off.
  lemma {:induction false} LiveIsSuffix(es: seq<Episode>, cutoff: int) returns (gone: seq<Episode>)
    requires Disjoint(es)
    ensures es == gone + Live(es, cutoff)
    ensures AllRetired(gone, cutoff)
    ensures Over(es) ==> Over(Live(es, cutoff))
  {
    if |es| == 0 {
      gone := [];
    } else {
      var n := |es| - 1;
      if Retired(es[n], cutoff) {
        gone := es;
        RetiredTogether(es, cutoff);
      } else {
        gone := LiveIsSuffix(es[..n], cutoff);
        assert es == es[..n] + [es[n]];
      }
    }
  }

  lemma {:induction false} CostAfterNone(a: seq<Episode>, lo: int)
    requires AllRetired(a, lo)
    ensures CostAfter(a, lo) == 0
  {
    if |a| > 0 { CostAfterNone(a[..|a| - 1], lo); }
  }

  lemma {:induction false} CostAfterAtMostSpent(a: seq<Episode>, lo: int)
    requires Disjoint(a)
    ensures 0 <= CostAfter(a, lo) <= Spent(a)
  {
    if |a| > 0 { CostAfterAtMostSpent(a[..|a| - 1], lo); }
  }

  lemma {:induction false} CostAfterAntitone(h: seq<Episode>, lo: int, lo': int)
    requires lo <= lo' && Disjoint(h)
    ensures CostAfter(h, lo') <= CostAfter(h, lo)
  {
    if |h| > 0 { CostAfterAntitone(h[..|h| - 1], lo, lo'); }
  }

  // Where everything but the newest window is settled, openIdx can only name that one.
  lemma {:induction false} OpenIndexOf(es: seq<Episode>)
    requires Disjoint(es)
    ensures OpenIndex(es) == if Over(es) then -1 else |es| - 1
  {
    if |es| > 0 && Over(es) { OpenIndexOf(es[..|es| - 1]); }
  }

  lemma {:induction false} HalvedShrinks(w: int, k: nat)
    requires w >= 0
    ensures 0 <= Halved(w, k) <= w
  {
    if k > 0 { HalvedShrinks(w, k - 1); }
  }

  // A granted window is positive, no longer than configured, and fits what is left.
  lemma GrantFits(l: Ledger, now: int, uptime: int, goodExit: bool, s: Settings)
    requires l.shortRun >= 0
    ensures var (a, l') := Decide(l, now, uptime, goodExit, s);
            a.OK() ==>
              && a.duration <= s.window
              && a.duration <= s.budget - Spent(Settled(l, now, s).episodes)
              && l'.episodes == Settled(l, now, s).episodes + [Episode(now, a.duration, 0, false)]
              && l'.openIdx == |l'.episodes| - 1
    ensures var (a, l') := Decide(l, now, uptime, goodExit, s);
            s.window > 0 && !a.OK() ==> l' == Settled(l, now, s)
  {
    if s.window > 0 {
      var steps := if Fast(uptime, goodExit, s) then l.shortRun + 1 else 0;
      HalvedShrinks(s.window, Min(steps, BACKOFF_STEPS));
    }
  }

  ghost predicate Kept(w: World, clock: int, interval: int, budget: int) {
    exists dropped :: Inv(dropped, w, clock, interval, budget)
  }

  // ---- one step ----

  lemma SettleKeepsOrder(h: seq<Episode>, clock: int, now: int)
    requires Disjoint(h) && Past(h, clock) && clock <= now
    ensures var h' := SettleLast(h, now); Disjoint(h') && Past(h', now) && Over(h')
  {
  }

  lemma SettleKeepsBound(h: seq<Episode>, now: int, interval: int, budget: int)
    requires Disjoint(h) && Bounded(h, interval, budget)
    ensures Bounded(SettleLast(h, now), interval, budget)
  {
  }

  // Closing, in the archive and in the ledger, is the same act.
  lemma SettleKeepsMemory(dropped: seq<Episode>, w: World, clock: int, now: int, interval: int)
    requires Remembers(dropped, w, clock, interval) && clock <= now
    ensures Remembers(dropped, World(Closed(w.ledger, now), SettleLast(w.archive, now)), now, interval)
  {
    var l := w.ledger;
    var n := |l.episodes| - 1;
    AllRetiredLater(dropped, clock - interval, now - interval);
    if n >= 0 {
      DropLastOfConcat(dropped, l.episodes);
      if !l.episodes[n].settled {
        assert Closed(l, now).episodes == l.episodes[..n] + [l.episodes[n].Settle(now)];
      }
    } else {
      assert w.archive == dropped;
    }
  }

  lemma CloseKeepsInv(dropped: seq<Episode>, w: World, clock: int, now: int, interval: int, budget: int)
    requires Inv(dropped, w, clock, interval, budget)
    requires clock <= now
    ensures var w' := World(Closed(w.ledger, now), SettleLast(w.archive, now));
            Inv(dropped, w', now, interval, budget) && Over(w'.archive) && Over(w'.ledger.episodes)
  {
    var w' := World(Closed(w.ledger, now), SettleLast(w.archive, now));
    SettleKeepsOrder(w.archive, clock, now);
    SettleKeepsBound(w.archive, now, interval, budget);
    SettleKeepsMemory(dropped, w, clock, now, interval);
    if |w'.ledger.episodes| > 0 { DropLastOfConcat(dropped, w'.ledger.episodes); }
  }

  lemma ExpireKeepsMemory(dropped: seq<Episode>, w: World, now: int, interval: int, s: Settings)
      returns (dropped': seq<Episode>)
    requires Remembers(dropped, w, now, interval)
    requires Disjoint(w.archive) && Over(w.ledger.episodes)
    requires interval <= s.interval && 0 < s.interval
    ensures Remembers(dropped', World(Expired(w.ledger, now, s.interval), w.archive), now, interval)
  {
    hide Disjoint, Live, AllRetired, OpenIndex;
    var es := w.ledger.episodes;
    DisjointSuffix(dropped, es);
    var gone := LiveIsSuffix(es, now - s.interval);
    var kept := Live(es, now - s.interval);
    dropped' := dropped + gone;
    AllRetiredLater(gone, now - s.interval, now - interval);
    AllRetiredConcat(dropped, gone, now - interval);
    assert w.archive == dropped' + kept;
    DisjointSuffix(dropped', kept);
    OpenIndexOf(kept);
  }

  lemma RecentCostAtMostSpent(dropped: seq<Episode>, kept: seq<Episode>, lo: int)
    requires Disjoint(dropped + kept) && AllRetired(dropped, lo)
    ensures CostAfter(dropped + kept, lo) <= Spent(kept)
  {
    CostAfterConcat(dropped, kept, lo);
    CostAfterNone(dropped, lo);
    DisjointSuffix(dropped, kept);
    CostAfterAtMostSpent(kept, lo);
  }

  lemma OpenKeepsInv(dropped: seq<Episode>, w: World, now: int, interval: int, budget: int, e: Episode, l': Ledger)
    requires Inv(dropped, w, now, interval, budget) && Over(w.archive)
    requires e.start == now && !e.settled && 0 < e.granted <= budget - Spent(w.ledger.episodes)
    requires l'.episodes == w.ledger.episodes + [e] && l'.openIdx == |l'.episodes| - 1
    requires 0 < interval
    ensures Inv(dropped, World(l', w.archive + [e]), now, interval, budget)
  {
    var h' := w.archive + [e];
    assert h'[..|w.archive|] == w.archive;
    assert Bounded(h', interval, budget) by {
      RecentCostAtMostSpent(dropped, w.ledger.episodes, now - interval);
    }
    assert h' == dropped + l'.episodes;
  }

  lemma SettledWhenAsked(l: Ledger, now: int, s: Settings)
    ensures Settled(l, now, s) == Expired(Closed(l, now), now, s.interval)
  {
  }

  lemma StepKeepsInv(w: World, clock: int, c: Call, interval: int, budget: int)
    requires w.ledger.shortRun >= 0
    requires Kept(w, clock, interval, budget)
    requires clock <= c.now && 0 < interval
    requires c.Ask? ==> interval <= c.s.interval && c.s.budget <= budget
    ensures var (a, l) := Step(w.ledger, c);
            Kept(World(l, Archived(w.archive, c, a)), c.now, interval, budget)
  {
    var dropped :| Inv(dropped, w, clock, interval, budget);
    var (a, l) := Step(w.ledger, c);
    var w1 := World(Closed(w.ledger, c.now), SettleLast(w.archive, c.now));
    if c.Shut? {
      CloseKeepsInv(dropped, w, clock, c.now, interval, budget);
    } else if c.s.window > 0 {
      CloseKeepsInv(dropped, w, clock, c.now, interval, budget);
      SettledWhenAsked(w.ledger, c.now, c.s);
      var dropped' := ExpireKeepsMemory(dropped, w1, c.now, interval, c.s);
      var w2 := World(Settled(w.ledger, c.now, c.s), w1.archive);
      assert Inv(dropped', w2, c.now, interval, budget);
      GrantFits(w.ledger, c.now, c.uptime, c.goodExit, c.s);
      if a.OK() {
        OpenKeepsInv(dropped', w2, c.now, interval, budget, Episode(c.now, a.duration, 0, false), l);
      } else {
        assert Inv(dropped', World(l, w1.archive), c.now, interval, budget);
      }
    } else {
      AllRetiredLater(dropped, clock - interval, c.now - interval);
      assert Inv(dropped, w, c.now, interval, budget);
    }
  }

  lemma {:induction false} RunKeepsInv(calls: seq<Call>, interval: int, budget: int)
    requires Monotone(calls) && Within(calls, interval, budget) && 0 < interval
    ensures |calls| > 0 ==> Kept(After(calls), Clock(calls), interval, budget)
  {
    if |calls| > 0 {
      var before := calls[..|calls| - 1];
      var c := calls[|calls| - 1];
      assert c in calls;
      RunKeepsInv(before, interval, budget);
      if |before| == 0 {
        assert Inv([], FRESH, c.now, interval, budget);
      }
      StepKeepsInv(After(before), if |before| == 0 then c.now else Clock(before), c, interval, budget);
    }
  }

  // ---- from the invariant to any window of time ----

  lemma {:induction false} CostInIsCostAfter(h: seq<Episode>, lo: int, hi: int)
    requires Disjoint(h)
    requires |h| > 0 ==> h[|h| - 1].start <= hi
    ensures CostIn(h, lo, hi) == CostAfter(h, lo)
  {
    if |h| > 0 { CostInIsCostAfter(h[..|h| - 1], lo, hi); }
  }

  lemma {:induction false} CostInBounded(h: seq<Episode>, interval: int, budget: int, t: int)
    requires Disjoint(h) && Bounded(h, interval, budget) && 0 <= budget
    ensures CostIn(h, t - interval, t) <= budget
  {
    if |h| > 0 {
      var n := |h| - 1;
      if h[n].start > t {
        CostInBounded(h[..n], interval, budget, t);
      } else {
        CostInIsCostAfter(h, t - interval, t);
        CostAfterAntitone(h, h[n].start - interval, t - interval);
      }
    }
  }

  // Windows counted over a wider stretch cost no less.
  lemma {:induction false} CostInWidens(h: seq<Episode>, lo: int, hi: int, lo': int, hi': int)
    requires Disjoint(h) && lo' <= lo && hi <= hi'
    ensures 0 <= CostIn(h, lo, hi) <= CostIn(h, lo', hi')
  {
    if |h| > 0 { CostInWidens(h[..|h| - 1], lo, hi, lo', hi'); }
  }

  // The windows that start in any half-open interval of the configured length cost no
  // more than the budget, whatever happened before, after, or in between.
  lemma RollingCostBound(calls: seq<Call>, interval: int, budget: int, t: int)
    requires Monotone(calls) && Within(calls, interval, budget) && 0 < interval && 0 <= budget
    ensures CostIn(After(calls).archive, t - interval, t) <= budget
  {
    if |calls| > 0 {
      RunKeepsInv(calls, interval, budget);
      CostInBounded(After(calls).archive, interval, budget, t);
    }
  }

  // ---- from cost to time actually spent open ----

  lemma {:induction false} OpenTimeSplits(h: seq<Episode>, lo: int, mid: int, hi: int)
    requires lo <= mid <= hi && Disjoint(h)
    ensures OpenTime(h, lo, hi) == OpenTime(h, lo, mid) + OpenTime(h, mid, hi)
  {
    if |h| > 0 { OpenTimeSplits(h[..|h| - 1], lo, mid, hi); }
  }

  lemma {:induction false} NothingOpenAfter(h: seq<Episode>, lo: int, hi: int)
    requires Disjoint(h)
    requires |h| > 0 ==> h[|h| - 1].start + h[|h| - 1].Cost() <= lo
    ensures OpenTime(h, lo, hi) == 0
  {
    if |h| > 0 { NothingOpenAfter(h[..|h| - 1], lo, hi); }
  }

  // Disjoint windows cannot be open for longer than the clock runs.
  lemma {:induction false} OpenTimeAtMostSpan(h: seq<Episode>, lo: int, hi: int)
    requires Disjoint(h) && lo <= hi
    ensures OpenTime(h, lo, hi) <= hi - lo
  {
    if |h| > 0 {
      var before, e := h[..|h| - 1], h[|h| - 1];
      if e.start <= lo {
        NothingOpenAfter(before, lo, hi);
      } else if e.start <= hi {
        OpenTimeSplits(before, lo, e.start, hi);
        NothingOpenAfter(before, e.start, hi);
        OpenTimeAtMostSpan(before, lo, e.start);
      } else {
        OpenTimeAtMostSpan(before, lo, hi);
      }
    }
  }

  // The newest window that had started by `lo`, and what it still has to run then.
  function LastBy(h: seq<Episode>, lo: int): (m: int)
    ensures -1 <= m < |h|
    ensures m >= 0 ==> h[m].start <= lo
  {
    if |h| == 0 then -1
    else if h[|h| - 1].start <= lo then |h| - 1
    else LastBy(h[..|h| - 1], lo)
  }

  function Straddle(h: seq<Episode>, lo: int): int {
    var m := LastBy(h, lo);
    if m >= 0 then Max(0, h[m].start + h[m].Cost() - lo) else 0
  }

  // Only the window already open at `lo` contributes more than its own start would say.
  lemma {:induction false} OpenTimeByStart(h: seq<Episode>, lo: int, hi: int)
    requires Disjoint(h) && lo <= hi
    ensures OpenTime(h, lo, hi) <= CostIn(h, lo, hi - 1) + Straddle(h, lo)
  {
    if |h| > 0 {
      var before, e := h[..|h| - 1], h[|h| - 1];
      if e.start <= lo {
        NothingOpenAfter(before, lo, hi);
        CostInWidens(h, lo, hi - 1, lo, hi - 1);
      } else {
        OpenTimeByStart(before, lo, hi);
      }
    }
  }

  // Counting from where a window started adds at least that window.
  lemma {:induction false} CostInIncludes(h: seq<Episode>, m: int, lo: int, hi: int)
    requires Disjoint(h) && 0 <= m < |h| && h[m].start <= lo && h[m].start <= hi
    ensures h[m].Cost() + CostIn(h, lo, hi) <= CostIn(h, h[m].start - 1, hi)
  {
    var n := |h| - 1;
    if m < n {
      CostInIncludes(h[..n], m, lo, hi);
    } else {
      CostInWidens(h[..n], lo, hi, h[m].start - 1, hi);
    }
  }

  lemma ArchiveOpenTimeBound(h: seq<Episode>, interval: int, budget: int, lo: int)
    requires Disjoint(h) && Bounded(h, interval, budget) && 0 <= budget && 0 < interval
    ensures OpenTime(h, lo, lo + interval) <= budget
  {
    var hi, m := lo + interval, LastBy(h, lo);
    OpenTimeByStart(h, lo, hi);
    if Straddle(h, lo) == 0 {
      CostInBounded(h, interval, budget, hi);
      CostInWidens(h, lo, hi - 1, lo, hi);
    } else {
      // The window that straddles `lo` stays on the ledger until `rolls`; what opens after
      // that has only `hi - rolls` left to be open in.
      var rolls := h[m].start + interval;
      CostInBounded(h, interval, budget, rolls - 1);
      CostInIncludes(h, m, lo, rolls - 1);
      if lo <= rolls {
        OpenTimeSplits(h, lo, rolls, hi);
        OpenTimeAtMostSpan(h, rolls, hi);
        OpenTimeByStart(h, lo, rolls);
      } else {
        OpenTimeAtMostSpan(h, lo, hi);
        CostInWidens(h, lo, rolls - 1, lo, rolls - 1);
      }
    }
  }

  // The promise of the budget: in any stretch of time as long as the interval, wherever it
  // is placed, automatic windows leave the guard relaxed for at most the budget.
  lemma RollingExposureBound(calls: seq<Call>, interval: int, budget: int, lo: int)
    requires Monotone(calls) && Within(calls, interval, budget) && 0 < interval && 0 <= budget
    ensures OpenTime(After(calls).archive, lo, lo + interval) <= budget
  {
    if |calls| > 0 {
      RunKeepsInv(calls, interval, budget);
      ArchiveOpenTimeBound(After(calls).archive, interval, budget, lo);
    }
  }
}
