// The rolling budget behind the automatic redial window: the ledger as a value, the
// decisions taken on it as functions, and the object the run loop owns.
//
// Instants and durations are integer nanoseconds. Instants count from the zero `time.Time`,
// which is ZERO_TIME, so none is negative.

module RedialLedger {
  import opened Basics

  const SECOND: int := 1_000_000_000
  const MIN_GRANT: int := 5 * SECOND
  const BACKOFF_STEPS: int := 4
  const ZERO_TIME: int := 0

  datatype Settings = Settings(window: int, budget: int, interval: int, minUptime: int)

  datatype Reason = Full | Backoff | Truncated | Cooldown | Exhausted | SwitchedOff

  // `duration == 0` is a refusal; `nextEligible` means something only then.
  datatype Answer = Answer(duration: int, reason: Reason, nextEligible: int) {
    predicate OK() { duration > 0 }
  }

  // `granted` is charged while the window is open, `actual` once it has closed.
  datatype Episode = Episode(start: int, granted: int, actual: int, settled: bool) {
    function Cost(): int { if settled then actual else granted }

    function Settle(now: int): Episode {
      this.(actual := Min(Max(0, now - start), granted), settled := true)
    }
  }

  datatype Ledger = Ledger(episodes: seq<Episode>, shortRun: int, coolUntil: int, openIdx: int)

  const EMPTY: Ledger := Ledger([], 0, ZERO_TIME, -1)

  // ---- what the ledger's parts mean ----

  function FloorFor(window: int): int {
    if window < MIN_GRANT then window else MIN_GRANT
  }

  function Halved(window: int, times: nat): int {
    if times == 0 then window else Halved(window, times - 1) / 2
  }

  function Spent(es: seq<Episode>): int {
    if |es| == 0 then 0 else Spent(es[..|es| - 1]) + es[|es| - 1].Cost()
  }

  predicate Retired(e: Episode, cutoff: int) {
    e.settled && e.start <= cutoff
  }

  // The episodes still on the books at `cutoff`, in order.
  function Live(es: seq<Episode>, cutoff: int): seq<Episode> {
    if |es| == 0 then []
    else
      var kept := Live(es[..|es| - 1], cutoff);
      var e := es[|es| - 1];
      if Retired(e, cutoff) then kept else kept + [e]
  }

  // The place of the window that is open now, or -1.
  function OpenIndex(es: seq<Episode>): int {
    if |es| == 0 then -1
    else if !es[|es| - 1].settled then |es| - 1
    else OpenIndex(es[..|es| - 1])
  }

  // What the ledger charges as of `now`, without ageing it.
  function SpentAsOf(es: seq<Episode>, now: int, interval: int): int {
    if interval <= 0 then Spent(es) else Spent(Live(es, now - interval))
  }

  predicate Affordable(es: seq<Episode>, s: Settings, now: int) {
    s.budget - SpentAsOf(es, now, s.interval) >= FloorFor(s.window)
  }

  // ---- the steps ----

  function Closed(l: Ledger, now: int): Ledger {
    if 0 <= l.openIdx < |l.episodes| then
      l.(episodes := l.episodes[l.openIdx := l.episodes[l.openIdx].Settle(now)], openIdx := -1)
    else l
  }

  function Expired(l: Ledger, now: int, interval: int): Ledger {
    if interval <= 0 then l
    else
      var kept := Live(l.episodes, now - interval);
      l.(episodes := kept, openIdx := OpenIndex(kept))
  }

  // What Grant looks at once it has decided to look: nothing open, nothing stale.
  function Settled(l: Ledger, now: int, s: Settings): Ledger {
    Expired(if l.openIdx >= 0 then Closed(l, now) else l, now, s.interval)
  }

  // Walk from episode `i`, oldest first, until `freed` affords `floor`.
  function Roll(es: seq<Episode>, i: nat, freed: int, floor: int, interval: int, best: int): int
    requires i <= |es|
    decreases |es| - i
  {
    if i == |es| || freed >= floor then best
    else Roll(es, i + 1, freed + es[i].Cost(), floor, interval, Max(best, es[i].start + interval))
  }

  function NextEligible(l: Ledger, now: int, s: Settings): int {
    var best := Max(l.coolUntil, now);
    if s.interval <= 0 then best
    else Roll(l.episodes, 0, s.budget - Spent(l.episodes), FloorFor(s.window), s.interval, best)
  }

  predicate Recovered(uptime: int, goodExit: bool, s: Settings) {
    goodExit || (s.minUptime > 0 && uptime >= s.minUptime)
  }

  predicate Fast(uptime: int, goodExit: bool, s: Settings) {
    s.minUptime > 0 && !goodExit && 0 < uptime < s.minUptime
  }

  // The window a drop asks for, before the budget has its say. `steps` counts the
  // consecutive fast drops, this one included; 0 when this one was not fast.
  function Wanted(steps: int, s: Settings): int
    requires steps >= 0
  {
    Max(FloorFor(s.window), Halved(s.window, Min(steps, BACKOFF_STEPS)))
  }

  function Opened(l: Ledger, now: int, fast: bool, granted: int, s: Settings): Ledger {
    var steps := if fast then l.shortRun + 1 else 0;
    Ledger(
      l.episodes + [Episode(now, granted, 0, false)],
      steps,
      if !fast then ZERO_TIME
      else if s.window * steps > 0 then now + Min(s.window * steps, s.interval)
      else l.coolUntil,
      |l.episodes|)
  }

  // What the settled ledger `l` answers.
  function Judge(l: Ledger, now: int, uptime: int, goodExit: bool, s: Settings): (Answer, Ledger)
    requires l.shortRun >= 0
  {
    if now < l.coolUntil && !Recovered(uptime, goodExit, s) then
      (Answer(0, Cooldown, NextEligible(l, now, s)), l)
    else
      var fast := Fast(uptime, goodExit, s);
      var want := Wanted(if fast then l.shortRun + 1 else 0, s);
      var remaining := s.budget - Spent(l.episodes);
      if remaining < FloorFor(s.window) then
        (Answer(0, Exhausted, NextEligible(l, now, s)), l)
      else if want > remaining then
        (Answer(remaining, Truncated, ZERO_TIME), Opened(l, now, fast, remaining, s))
      else
        (Answer(want, if fast then Backoff else Full, ZERO_TIME), Opened(l, now, fast, want, s))
  }

  function Decide(l: Ledger, now: int, uptime: int, goodExit: bool, s: Settings): (Answer, Ledger)
    requires l.shortRun >= 0
  {
    if s.window <= 0 then (Answer(0, SwitchedOff, ZERO_TIME), l)
    else Judge(Settled(l, now, s), now, uptime, goodExit, s)
  }

  // ---- the object ----

  // Half way through a compaction: the first `keep` places hold what the first `i` episodes
  // leave, and the rest is as it was.
  predicate Compacting(was: seq<Episode>, es: seq<Episode>, i: nat, keep: nat, open: int, cutoff: int) {
    && keep <= i <= |es| == |was|
    && es[i..] == was[i..]
    && es[..keep] == Live(was[..i], cutoff)
    && open == OpenIndex(es[..keep])
  }

  lemma CompactStart(was: seq<Episode>, cutoff: int)
    ensures Compacting(was, was, 0, 0, -1, cutoff)
    ensures forall es, keep: nat, open :: Compacting(was, es, |was|, keep, open, cutoff) ==>
              keep <= |es| && es[..keep] == Live(was, cutoff) && open == OpenIndex(es[..keep])
  {
    assert was[..|was|] == was;
  }

  lemma CompactStep(was: seq<Episode>, es: seq<Episode>, i: nat, keep: nat, open: int, cutoff: int)
    requires Compacting(was, es, i, keep, open, cutoff) && i < |was|
    ensures keep <= i < |es|
    ensures Retired(es[i], cutoff) ==> Compacting(was, es, i + 1, keep, open, cutoff)
    ensures !Retired(es[i], cutoff) ==>
              Compacting(was, es[keep := es[i]], i + 1, keep + 1, if es[i].settled then open else keep, cutoff)
  {
    assert es[i] == es[i..][0] == was[i..][0];
    assert was[..i + 1][..i] == was[..i];
    Overwritten(es, keep, es[i], i);
  }

  class Budget {
    var episodes: seq<Episode>
    var shortRun: int
    var coolUntil: int
    var openIdx: int

    ghost function View(): Ledger
      reads this
    {
      Ledger(episodes, shortRun, coolUntil, openIdx)
    }

    constructor ()
      ensures View() == EMPTY
    {
      episodes, shortRun, coolUntil, openIdx := [], 0, ZERO_TIME, -1;
    }

    method Grant(now: int, uptime: int, goodExit: bool, s: Settings) returns (g: Answer)
      requires shortRun >= 0
      modifies this
      ensures shortRun >= 0
      ensures g == Decide(old(View()), now, uptime, goodExit, s).0
      ensures View() == Decide(old(View()), now, uptime, goodExit, s).1
    {
      if s.window <= 0 {
        return Answer(0, SwitchedOff, ZERO_TIME);
      }
      ghost var l1 := Settled(View(), now, s);
      if openIdx >= 0 {
        Close(now);
      }
      Expire(now, s.interval);
      assert View() == l1;

      var recovered := goodExit || (s.minUptime > 0 && uptime >= s.minUptime);
      if now < coolUntil && !recovered {
        var at := FirstAffordable(now, s, FloorFor(s.window));
        return Answer(0, Cooldown, at);
      }

      var reason, want, steps := Full, s.window, 0;
      var fast := s.minUptime > 0 && !goodExit && uptime > 0 && uptime < s.minUptime;
      if fast {
        steps := shortRun + 1;
        reason := Backoff;
        want := Halved(s.window, Min(steps, BACKOFF_STEPS));
      }
      var floor := FloorFor(s.window);
      if want < floor {
        want := floor;
      }
      var spent := Total();
      var remaining := s.budget - spent;
      if remaining < floor {
        var at := FirstAffordable(now, s, floor);
        return Answer(0, Exhausted, at);
      }
      if want > remaining {
        want, reason := remaining, Truncated;
      }
      Commit(now, fast, steps, want, s);
      g := Answer(want, reason, ZERO_TIME);
    }

    // Past every refusal, a window is opening: the backoff counts and the ledger pays.
    method Commit(now: int, fast: bool, steps: int, want: int, s: Settings)
      requires steps == (if fast then shortRun + 1 else 0)
      modifies this
      ensures View() == Opened(old(View()), now, fast, want, s)
    {
      shortRun := steps;
      if fast {
        var cool := s.window * steps;
        if cool > 0 {
          coolUntil := now + Min(cool, s.interval);
        }
      } else {
        coolUntil := ZERO_TIME;
      }
      episodes := episodes + [Episode(now, want, 0, false)];
      openIdx := |episodes| - 1;
    }

    method Close(now: int)
      modifies this
      ensures View() == Closed(old(View()), now)
    {
      if openIdx < 0 || openIdx >= |episodes| {
        return;
      }
      var e := episodes[openIdx];
      episodes := episodes[openIdx := e.Settle(now)];
      openIdx := -1;
    }

    // Reads the ledger a decision at `now` would be made against, and leaves it alone.
    method Remaining(now: int, s: Settings) returns (left: int)
      ensures left == Max(0, s.budget - Spent(Expired(View(), now, s.interval).episodes))
    {
      if s.interval <= 0 {
        var spent := Total();
        return Max(0, s.budget - spent);
      }
      var cutoff := now - s.interval;
      var total, i := 0, 0;
      while i < |episodes|
        invariant 0 <= i <= |episodes|
        invariant total == Spent(Live(episodes[..i], cutoff))
      {
        assert episodes[..i + 1][..i] == episodes[..i];
        if !Retired(episodes[i], cutoff) {
          var kept := Live(episodes[..i], cutoff);
          assert (kept + [episodes[i]])[..|kept|] == kept;
          total := total + episodes[i].Cost();
        }
        i := i + 1;
      }
      assert episodes[..i] == episodes;
      left := Max(0, s.budget - total);
    }

    method Total() returns (total: int)
      ensures total == Spent(episodes)
    {
      total := 0;
      var i := 0;
      while i < |episodes|
        invariant 0 <= i <= |episodes|
        invariant total == Spent(episodes[..i])
      {
        assert episodes[..i + 1][..i] == episodes[..i];
        total := total + episodes[i].Cost();
        i := i + 1;
      }
      assert episodes[..i] == episodes;
    }

    // What is kept is written over what was read: no more is kept than was read.
    method Expire(now: int, interval: int)
      modifies this
      ensures View() == Expired(old(View()), now, interval)
    {
      if interval <= 0 {
        return;
      }
      hide Compacting, Live, OpenIndex;
      var cutoff := now - interval;
      CompactStart(episodes, cutoff);
      ghost var was := episodes;
      var es, keep := episodes, 0;
      openIdx := -1;
      for i := 0 to |es|
        invariant Compacting(was, es, i, keep, openIdx, cutoff) && episodes == was
        invariant shortRun == old(shortRun) && coolUntil == old(coolUntil)
      {
        CompactStep(was, es, i, keep, openIdx, cutoff);
        var e := es[i];
        if Retired(e, cutoff) {
          continue;
        }
        if !e.settled {
          openIdx := keep;
        }
        es := es[keep := e];
        keep := keep + 1;
      }
      episodes := es[..keep];
    }

    method FirstAffordable(now: int, s: Settings, floor: int) returns (at: int)
      requires floor == FloorFor(s.window)
      ensures at == NextEligible(View(), now, s)
    {
      at := coolUntil;
      if at < now {
        at := now;
      }
      if s.interval <= 0 {
        return;
      }
      var spent := Total();
      var freed := s.budget - spent;
      var i := 0;
      while i < |episodes| && freed < floor
        invariant 0 <= i <= |episodes|
        invariant Roll(episodes, i, freed, floor, s.interval, at) == NextEligible(View(), now, s)
      {
        freed := freed + episodes[i].Cost();
        at := Max(at, episodes[i].start + s.interval);
        i := i + 1;
      }
    }
  }
}
