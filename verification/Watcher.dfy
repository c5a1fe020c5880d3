// The tunnel watcher: up edges at once, down edges debounced.

module Watcher {

  datatype TunnelState = TunnelState(up: bool, name: string, names: seq<string>, unknown: bool, detail: string)

  const DEFAULT_DEBOUNCE: nat := 2

  function NameSet(s: TunnelState): set<string> {
    set n | n in s.names
  }

  // A sample that reports something new, and one that reports something gone.
  predicate Grows(emitted: TunnelState, s: TunnelState) {
    s.up && (!emitted.up || !(NameSet(s) <= NameSet(emitted)))
  }

  predicate ShrinksOrDrops(emitted: TunnelState, s: TunnelState) {
    (!s.up && emitted.up) || !(NameSet(emitted) <= NameSet(s))
  }

  predicate Agree(a: TunnelState, b: TunnelState) {
    a.up == b.up && NameSet(a) == NameSet(b)
  }

  // ---- the loop as a step function ----

  datatype State = State(emitted: TunnelState, streak: nat)

  function Start(first: TunnelState, d: nat): State {
    State(first, if first.up then 0 else d)
  }

  // The next state, and whether the sample is sent.
  function Step(w: State, s: TunnelState, d: nat): (State, bool) {
    if s.unknown then (w, false)
    else if Grows(w.emitted, s) then (State(s, 0), true)
    else if ShrinksOrDrops(w.emitted, s) then
      if w.streak + 1 >= d then (State(s, 0), true) else (State(w.emitted, w.streak + 1), false)
    else (State(w.emitted, 0), false)
  }

  function Run(w: State, samples: seq<TunnelState>, d: nat): (State, seq<TunnelState>) {
    if |samples| == 0 then (w, [])
    else
      var (before, sent) := Run(w, samples[..|samples| - 1], d);
      var s := samples[|samples| - 1];
      var (after, sends) := Step(before, s, d);
      (after, if sends then sent + [s] else sent)
  }

  lemma RunNext(w: State, samples: seq<TunnelState>, i: nat, d: nat)
    requires i < |samples|
    ensures var (before, sent) := Run(w, samples[..i], d);
            var (after, sends) := Step(before, samples[i], d);
            Run(w, samples[..i + 1], d) == (after, if sends then sent + [samples[i]] else sent)
  {
    hide Step;
    assert samples[..i + 1][..i] == samples[..i];
  }

  lemma RunNothing(w: State, d: nat)
    ensures Run(w, [], d) == (w, [])
  {
  }

  // ---- the loop ----

  method SetGrew(prev: seq<string>, next: seq<string>) returns (grew: bool)
    ensures grew <==> !((set n | n in next) <= (set n | n in prev))
  {
    var have: set<string> := {};
    for i := 0 to |prev|
      invariant have == set n | n in prev[..i]
    {
      assert prev[..i + 1] == prev[..i] + [prev[i]];
      have := have + {prev[i]};
    }
    assert prev[..|prev|] == prev;
    for i := 0 to |next|
      invariant forall n <- next[..i] :: n in have
    {
      if next[i] !in have {
        assert next[i] in (set n | n in next);
        return true;
      }
      assert next[..i + 1] == next[..i] + [next[i]];
    }
    assert next[..|next|] == next;
    grew := false;
  }

  // Everything the watcher sends while it takes these samples, the first one unconditionally.
  method Watch(samples: seq<TunnelState>, downDebounce: int) returns (sent: seq<TunnelState>)
    requires |samples| > 0
    ensures var d := if downDebounce <= 0 then DEFAULT_DEBOUNCE else downDebounce;
            sent == [samples[0]] + Run(Start(samples[0], d), samples[1..], d).1
  {
    var d := downDebounce;
    if d <= 0 {
      d := DEFAULT_DEBOUNCE;
    }
    hide Run;
    RunNothing(Start(samples[0], d), d);
    var emitted := samples[0];
    var downStreak := 0;
    if !emitted.up {
      downStreak := d;
    }
    sent := [emitted];
    ghost var rest := samples[1..];
    for i := 1 to |samples|
      invariant downStreak >= 0
      invariant State(emitted, downStreak) == Run(Start(samples[0], d), rest[..i - 1], d).0
      invariant sent == [samples[0]] + Run(Start(samples[0], d), rest[..i - 1], d).1
    {
      RunNext(Start(samples[0], d), rest, i - 1, d);
      var st := samples[i];
      if st.unknown {
        continue;
      }
      var grew := SetGrew(emitted.names, st.names);
      var shrank := SetGrew(st.names, emitted.names);
      if st.up && (grew || !emitted.up) {
        downStreak := 0;
        emitted := st;
        sent := sent + [st];
      } else if (!st.up && emitted.up) || shrank {
        downStreak := downStreak + 1;
        if downStreak >= d {
          downStreak := 0;
          emitted := st;
          sent := sent + [st];
        }
      } else {
        downStreak := 0;
      }
    }
    assert rest[..|rest|] == rest;
  }

  // ---- what is sent, without a counter ----

  // The last state sent and the samples taken since that showed anything.
  datatype Past = Past(emitted: TunnelState, since: seq<TunnelState>)

  // Told by name: a tunnel no one has heard of, or one at all where there was none; and a tunnel
  // gone, or none left up.
  predicate Gains(emitted: TunnelState, s: TunnelState) {
    s.up && (!emitted.up || exists n <- s.names :: n !in emitted.names)
  }

  predicate Loses(emitted: TunnelState, s: TunnelState) {
    (emitted.up && !s.up) || exists n <- emitted.names :: n !in s.names
  }

  lemma GainsGrow(emitted: TunnelState, s: TunnelState)
    ensures Gains(emitted, s) <==> Grows(emitted, s)
    ensures Loses(emitted, s) <==> ShrinksOrDrops(emitted, s)
  {
    SomeNameMissing(s, emitted);
    SomeNameMissing(emitted, s);
  }

  lemma SomeNameMissing(a: TunnelState, b: TunnelState)
    ensures (exists n <- a.names :: n !in b.names) <==> !(NameSet(a) <= NameSet(b))
  {
    forall n ensures n in NameSet(a) <==> n in a.names {}
    forall n ensures n in NameSet(b) <==> n in b.names {}
  }

  // A sample is sent at once when it grows, and otherwise when it completes `d` samples in a
  // row, all since the last one sent, that each shrink or drop.
  predicate Sends(p: Past, s: TunnelState, d: nat) {
    && !s.unknown
    && (Gains(p.emitted, s) ||
        (Loses(p.emitted, s) && |p.since| + 1 >= d &&
         forall k :: 0 <= k < |p.since| && k >= |p.since| + 1 - d ==> Loses(p.emitted, p.since[k])))
  }

  function Reference(p: Past, samples: seq<TunnelState>, d: nat): (Past, seq<TunnelState>) {
    if |samples| == 0 then (p, [])
    else
      var (before, sent) := Reference(p, samples[..|samples| - 1], d);
      var s := samples[|samples| - 1];
      if Sends(before, s, d) then (Past(s, []), sent + [s])
      else if s.unknown then (before, sent)
      else (Past(before.emitted, before.since + [s]), sent)
  }

  function Tail(emitted: TunnelState, since: seq<TunnelState>): nat {
    if |since| == 0 || !Loses(emitted, since[|since| - 1]) then 0
    else 1 + Tail(emitted, since[..|since| - 1])
  }

  lemma {:induction false} TailIs(e: TunnelState, since: seq<TunnelState>, n: nat)
    ensures Tail(e, since) >= n <==>
              |since| >= n && forall k :: 0 <= k < |since| && k >= |since| - n ==> Loses(e, since[k])
  {
    hide Loses;
    if |since| > 0 && n > 0 {
      TailIs(e, since[..|since| - 1], n - 1);
    }
  }

  // The counter counts those samples, except that until a sample shows anything it may hold
  // the value it starts at when the first state is down. That value is never looked at:
  // nothing shrinks or drops from a state that is down and has no names, and a debounce of
  // one takes any sample that does.
  predicate Tracks(w: State, p: Past, d: nat) {
    && w.emitted == p.emitted
    && (w.streak == Tail(p.emitted, p.since) ||
        (w.streak == d && p.since == [] && !w.emitted.up && (w.emitted.names == [] || d == 1)))
  }

  lemma StepTracks(w: State, p: Past, s: TunnelState, d: nat)
    requires d >= 1 && Tracks(w, p, d)
    ensures var (w', sends) := Step(w, s, d);
            && sends == Sends(p, s, d)
            && (if sends then Tracks(w', Past(s, []), d)
                else if s.unknown then w' == w
                else Tracks(w', Past(p.emitted, p.since + [s]), d))
  {
    TailIs(p.emitted, p.since, d - 1);
    TailNext(p.emitted, p.since, s);
    NothingToLose(w.emitted, s);
    GainsGrow(w.emitted, s);
    hide ShrinksOrDrops, Grows, Gains, Loses, Tail;
  }

  lemma TailNext(e: TunnelState, since: seq<TunnelState>, s: TunnelState)
    ensures Tail(e, []) == 0
    ensures Tail(e, since + [s]) == if Loses(e, s) then Tail(e, since) + 1 else 0
  {
    assert (since + [s])[..|since|] == since;
  }

  lemma NothingToLose(e: TunnelState, s: TunnelState)
    ensures !e.up && e.names == [] ==> !Loses(e, s)
  {
  }

  lemma {:induction false} RunTracks(w: State, p: Past, samples: seq<TunnelState>, d: nat)
    requires d >= 1 && Tracks(w, p, d)
    ensures Tracks(Run(w, samples, d).0, Reference(p, samples, d).0, d)
    ensures Run(w, samples, d).1 == Reference(p, samples, d).1
  {
    hide Tracks, Sends, Step;
    if |samples| > 0 {
      var front := samples[..|samples| - 1];
      RunTracks(w, p, front, d);
      StepTracks(Run(w, front, d).0, Reference(p, front, d).0, samples[|samples| - 1], d);
    }
  }

  // The streams on which counting and looking back agree: all of them, unless the very first
  // sample is down and yet names a tunnel. Then the counter starts at its limit and a single
  // sample is believed.
  lemma WatchIsReferenceIff(first: TunnelState, d: nat)
    requires d >= 1
    ensures (forall rest :: Run(Start(first, d), rest, d).1 == Reference(Past(first, []), rest, d).1)
              <==> first.up || first.names == [] || d == 1
  {
    if first.up || first.names == [] || d == 1 {
      forall rest
        ensures Run(Start(first, d), rest, d).1 == Reference(Past(first, []), rest, d).1
      {
        RunTracks(Start(first, d), Past(first, []), rest, d);
      }
    } else {
      var gone := TunnelState(false, "", [], false, "");
      assert first.names[0] in NameSet(first) && NameSet(gone) == {};
      assert [gone][..0] == [];
      assert Run(Start(first, d), [], d) == (Start(first, d), []);
      assert Reference(Past(first, []), [], d) == (Past(first, []), []);
      assert Run(Start(first, d), [gone], d).1 == [gone];
      assert Reference(Past(first, []), [gone], d).1 == [];
    }
  }

  // ---- coverage ----

  predicate AnyKnown(samples: seq<TunnelState>) {
    |samples| > 0 && (!samples[|samples| - 1].unknown || AnyKnown(samples[..|samples| - 1]))
  }

  // The latest sample that showed anything.
  function LastKnown(samples: seq<TunnelState>): TunnelState
    requires AnyKnown(samples)
  {
    var s := samples[|samples| - 1];
    if !s.unknown then s else LastKnown(samples[..|samples| - 1])
  }

  // At every moment each tunnel in the latest sample that showed anything has been sent, and
  // if one was up it has been sent as up, whatever came before and since.
  lemma {:induction false} Covered(w: State, samples: seq<TunnelState>, d: nat)
    requires AnyKnown(samples)
    requires LastKnown(samples).up || LastKnown(samples).names == []
    ensures var s, emitted := LastKnown(samples), Run(w, samples, d).0.emitted;
            NameSet(s) <= NameSet(emitted) && (s.up ==> emitted.up)
  {
    if samples[|samples| - 1].unknown {
      Covered(w, samples[..|samples| - 1], d);
    }
  }

  // ---- settling ----

  function KnownCount(samples: seq<TunnelState>): nat {
    if |samples| == 0 then 0
    else KnownCount(samples[..|samples| - 1]) + if samples[|samples| - 1].unknown then 0 else 1
  }

  // Once `d` samples in a row say the same, ignoring those that say nothing, what was last
  // sent says it too, from any state.
  lemma {:induction false} Settles(w: State, samples: seq<TunnelState>, s: TunnelState, d: nat)
    requires forall x <- samples :: x.unknown || Agree(x, s)
    requires s.up || s.names == []
    requires KnownCount(samples) >= d >= 1
    ensures Agree(Run(w, samples, d).0.emitted, s)
  {
    SettlesBy(w, samples, s, d);
  }

  lemma {:induction false} SettlesBy(w: State, samples: seq<TunnelState>, s: TunnelState, d: nat)
    requires forall x <- samples :: x.unknown || Agree(x, s)
    requires s.up || s.names == []
    requires d >= 1
    ensures var w' := Run(w, samples, d).0;
            || Agree(w'.emitted, s)
            || KnownCount(samples) == 0
            || (!Grows(w'.emitted, s) && ShrinksOrDrops(w'.emitted, s) && KnownCount(samples) <= w'.streak < d)
  {
    if |samples| > 0 {
      var front, x := samples[..|samples| - 1], samples[|samples| - 1];
      assert forall y <- front :: y in samples;
      SettlesBy(w, front, s, d);
      assert x in samples;
    }
  }

  // ---- what a down edge takes ----

  // A state that is up is taken back only on the word of `d` samples since it was sent, each
  // showing less than it, with nothing but unknown samples between them.
  lemma DownEdge(first: TunnelState, rest: seq<TunnelState>, s: TunnelState, d: nat)
    requires d >= 1 && (first.up || first.names == [] || d == 1)
    ensures var p := Reference(Past(first, []), rest, d).0;
            var (w', sends) := Step(Run(Start(first, d), rest, d).0, s, d);
            w'.emitted.up != p.emitted.up && p.emitted.up ==>
              && sends && |p.since| + 1 >= d
              && forall k :: 0 <= k < |p.since| && k >= |p.since| + 1 - d ==> Loses(p.emitted, p.since[k])
  {
    RunTracks(Start(first, d), Past(first, []), rest, d);
    StepTracks(Run(Start(first, d), rest, d).0, Reference(Past(first, []), rest, d).0, s, d);
  }
}
