// The wizard's form loop: every question once, after its gate, and shown exactly when asked.

module WizardRun {
  import opened Basics
  import opened Wizard

  function Flat(forms: seq<seq<Question>>): seq<Question> {
    if |forms| == 0 then [] else Flat(forms[..|forms| - 1]) + forms[|forms| - 1]
  }

  // Each gated question's gate was on an earlier form.
  predicate GatesFirst(forms: seq<seq<Question>>) {
    |forms| == 0 ||
    var n := |forms| - 1;
    && GatesFirst(forms[..n])
    && forall q <- forms[n] :: q.Gated() ==> exists g <- Flat(forms[..n]) :: g.id == q.requiresID
  }

  // The groups in `done` are finished: of their questions exactly the ones whose gates hold
  // have been shown. Of `group`, the ones asked have been shown, and none of them can close
  // again, since its gate is behind it.
  ghost predicate Within(qs: seq<Question>, b: Book, flat: seq<Question>, done: set<int>, group: int,
      asked: set<string>)
  {
    && (forall q <- qs :: q.group in done ==> (q in flat <==> ShouldAsk(b, q)))
    && (forall q <- qs :: q.group == group ==> (q in flat <==> q.id in asked))
    && (forall q <- flat :: q in qs && ShouldAsk(b, q) && (q.group in done || q.group == group))
    && (forall q <- flat, g <- qs :: q.group == group && q.Gated() && g.id == q.requiresID && g.group == group ==>
          g.id in asked)
  }

  // Every group before `group` is done, and none after.
  ghost predicate UpTo(qs: seq<Question>, done: set<int>, group: int) {
    && (forall q <- qs :: q.group < group ==> q.group in done)
    && (forall d <- done :: d < group)
  }

  lemma {:induction false} Untouched(b: Book, form: seq<Question>, typed: string -> Typed, id: string)
    requires forall q <- form :: q.id != id
    ensures SameAnswer(b, Submitted(b, form, typed), id)
  {
    if |form| > 0 {
      var front := form[..|form| - 1];
      assert forall q <- front :: q in form;
      assert form[|form| - 1] in form;
      Untouched(b, front, typed, id);
    }
  }

  // A question's gate is not on the form `wave`, if the question is shown by then.
  lemma GateIsBehind(qs: seq<Question>, b: Book, flat: seq<Question>, done: set<int>, group: int, asked: set<string>,
      q: Question, g: Question)
    requires Shallow(qs) && UpTo(qs, done, group) && Within(qs, b, flat, done, group, asked)
    requires q in qs && q.Gated() && g in qs && g.id == q.requiresID
    requires q.group in done || q in flat || Due(qs, q, group, asked, b)
    ensures !g.Gated() && (g.group < group || g.id in asked)
    ensures g in flat || q.group in done
  {
    assert HasGate(qs, q);
    var g' :| g' in qs && g'.id == q.requiresID && !g'.Gated() && g'.group <= q.group;
    SameID(qs, g, g');
    FirstMatch(qs, g, group, asked, b);
  }

  lemma Frozen(qs: seq<Question>, b: Book, flat: seq<Question>, done: set<int>, group: int, asked: set<string>,
      typed: string -> Typed, q: Question)
    requires Shallow(qs) && UpTo(qs, done, group) && Within(qs, b, flat, done, group, asked)
    requires q in qs && (q.group in done || q in flat || Due(qs, q, group, asked, b))
    ensures ShouldAsk(b, q) == ShouldAsk(Submitted(b, Wave(qs, qs, group, asked, b), typed), q)
  {
    var wave := Wave(qs, qs, group, asked, b);
    if q.Gated() {
      assert HasGate(qs, q);
      var g :| g in qs && g.id == q.requiresID && !g.Gated() && g.group <= q.group;
      GateIsBehind(qs, b, flat, done, group, asked, q, g);
      WaveMembers(qs, qs, group, asked, b);
      forall w <- wave ensures w.id != g.id {
        if w.id == g.id { SameID(qs, w, g); }
      }
      Untouched(b, wave, typed, g.id);
    }
  }

  function IdSet(qs: seq<Question>): set<string> {
    set q | q in qs :: q.id
  }

  // Asking a wave leaves everything said so far standing.
  lemma WaveKeeps(qs: seq<Question>, b: Book, flat: seq<Question>, done: set<int>, group: int, asked: set<string>,
      typed: string -> Typed)
    requires Shallow(qs) && UpTo(qs, done, group) && Within(qs, b, flat, done, group, asked)
    ensures var wave := Wave(qs, qs, group, asked, b);
            Within(qs, Submitted(b, wave, typed), flat + wave, done, group, asked + IdSet(wave))
  {
    var wave := Wave(qs, qs, group, asked, b);
    var b' := Submitted(b, wave, typed);
    WaveMembers(qs, qs, group, asked, b);
    forall q <- qs | q.group in done || q in flat || q in wave
      ensures ShouldAsk(b, q) == ShouldAsk(b', q)
    {
      Frozen(qs, b, flat, done, group, asked, typed, q);
    }
    forall q <- qs | q.group == group
      ensures q in flat + wave <==> q.id in asked + IdSet(wave)
    {
      if q.id in IdSet(wave) {
        var w :| w in wave && w.id == q.id;
        SameID(qs, q, w);
      }
    }
    forall q <- flat + wave, g <- qs | q.group == group && q.Gated() && g.id == q.requiresID && g.group == group
      ensures g.id in asked
    {
      GateIsBehind(qs, b, flat, done, group, asked, q, g);
    }
  }

  // When nothing is due the group is finished.
  lemma GroupEnds(qs: seq<Question>, b: Book, flat: seq<Question>, done: set<int>, group: int, asked: set<string>)
    requires Shallow(qs) && UpTo(qs, done, group) && Within(qs, b, flat, done, group, asked)
    requires Wave(qs, qs, group, asked, b) == []
    ensures forall q <- qs :: q.group in done + {group} ==> (q in flat <==> ShouldAsk(b, q))
  {
    WaveMembers(qs, qs, group, asked, b);
    forall q <- qs | q.group == group && q.id !in asked
      ensures !ShouldAsk(b, q)
    {
      assert !Due(qs, q, group, asked, b);
      if q.Gated() {
        var g :| g in qs && g.id == q.requiresID && !g.Gated() && g.group <= q.group;
        FirstMatch(qs, g, group, asked, b);
        assert !Due(qs, g, group, asked, b);
      }
    }
  }

  // The next form's questions are new, and their gates are not.
  lemma FormIsNew(qs: seq<Question>, b: Book, flat: seq<Question>, done: set<int>, group: int, asked: set<string>)
    requires Shallow(qs) && UpTo(qs, done, group) && Within(qs, b, flat, done, group, asked)
    requires Distinct(Ids(flat))
    ensures var wave := Wave(qs, qs, group, asked, b);
            && Distinct(Ids(flat + wave))
            && forall q <- wave :: q.Gated() ==> exists g <- flat :: g.id == q.requiresID
  {
    var wave := Wave(qs, qs, group, asked, b);
    WaveMembers(qs, qs, group, asked, b);
    WaveIsDistinct(qs, qs, group, asked, b);
    forall q <- wave, f <- flat ensures q.id != f.id {
      if q.id == f.id { SameID(qs, q, f); }
    }
    DistinctIds(flat, wave);
    forall q <- wave | q.Gated()
      ensures exists g <- flat :: g.id == q.requiresID
    {
      assert HasGate(qs, q);
      var g :| g in qs && g.id == q.requiresID && !g.Gated() && g.group <= q.group;
      GateIsBehind(qs, b, flat, done, group, asked, q, g);
    }
  }

  lemma IdsSnoc(qs: seq<Question>, q: Question)
    ensures Ids(qs + [q]) == Ids(qs) + [q.id]
    ensures Distinct(Ids(qs + [q])) <==> Distinct(Ids(qs)) && q.id !in Ids(qs)
  {
    assert (qs + [q])[..|qs|] == qs;
    assert (Ids(qs) + [q.id])[..|qs|] == Ids(qs);
  }

  lemma {:induction false} DistinctIds(a: seq<Question>, b: seq<Question>)
    requires Distinct(Ids(a)) && Distinct(Ids(b))
    requires forall p <- a, q <- b :: p.id != q.id
    ensures Distinct(Ids(a + b))
  {
    hide Ids, Distinct;
    if |b| == 0 {
      assert a + b == a;
    } else {
      var front, last := b[..|b| - 1], b[|b| - 1];
      assert b == front + [last] && a + b == a + front + [last];
      IdsSnoc(front, last);
      DistinctIds(a, front);
      IdsSnoc(a + front, last);
      IdsAre(a + front, last.id);
      IdsAre(front, last.id);
    }
  }

  // ---- what the user said ----

  // What a field of `q` reads as when a gate compares it.
  function Says(q: Question, t: Typed): string {
    match q.kind
    case YesNo => if t.flag then "true" else "false"
    case MultiSelect => ""
    case Other => t.text
  }

  predicate HoldsTyped(b: Book, q: Question, t: Typed) {
    match q.kind
    case YesNo => q.id in b.flag && b.flag[q.id] == t.flag
    case MultiSelect => q.id in b.list && b.list[q.id] == t.list
    case Other => q.id in b.text && b.text[q.id] == t.text
  }

  // Bindings are kept by kind.
  predicate Filed(b: Book, q: Question) {
    && (q.id in b.flag <==> q.kind.YesNo?)
    && (q.id in b.text <==> q.kind.Other?)
    && (q.id in b.list <==> q.kind.MultiSelect?)
  }

  function DefaultOf(q: Question): Typed {
    Typed(q.default_ == "true", q.default_, q.selected)
  }

  // Every question that was on a form holds what the user left there, every other one its
  // default.
  ghost predicate Told(qs: seq<Question>, b: Book, forms: seq<seq<Question>>, user: (nat, string) -> Typed) {
    && (forall q <- qs :: Filed(b, q))
    && (forall k: nat, q: Question | k < |forms| && q in forms[k] :: HoldsTyped(b, q, user(k, q.id)))
    && (forall q <- qs :: q !in Flat(forms) ==> HoldsTyped(b, q, DefaultOf(q)))
  }

  // Bindings of other questions stay.
  predicate SameBinding(b: Book, b': Book, id: string) {
    SameAnswer(b, b', id) && (id in b.list <==> id in b'.list) && (id in b.list ==> b.list[id] == b'.list[id])
  }

  lemma {:induction false} SubmittedHolds(b: Book, form: seq<Question>, typed: string -> Typed, q: Question)
    requires forall i, j :: 0 <= i < j < |form| ==> form[i].id != form[j].id
    ensures var b' := Submitted(b, form, typed);
            if q in form then HoldsTyped(b', q, typed(q.id)) && (Filed(b, q) ==> Filed(b', q))
            else (forall p <- form :: p.id != q.id) ==> SameBinding(b, b', q.id)
  {
    if |form| > 0 {
      var last, mid := form[|form| - 1], Submitted(b, form[..|form| - 1], typed);
      SubmittedHolds(b, form[..|form| - 1], typed, q);
      LastApart(form);
      SubmittedNext(b, form, typed);
      hide Submitted, HoldsTyped, Filed, SameBinding, Bind;
      if q == last {
        if q !in form[..|form| - 1] { BindingIsSame(b, mid, mid, q); }
        BindHolds(mid, last, typed(last.id));
      } else if q.id != last.id {
        BindLeaves(mid, last, typed(last.id), q.id);
        BindingIsSame(mid, Submitted(b, form, typed), mid, q);
        if q !in form && forall p <- form :: p.id != q.id {
          BindingIsSame(b, mid, Submitted(b, form, typed), q);
        }
      }
    } else {
      assert Submitted(b, form, typed) == b;
    }
  }

  lemma LastApart(form: seq<Question>)
    requires |form| > 0 && forall i, j :: 0 <= i < j < |form| ==> form[i].id != form[j].id
    ensures var front, last := form[..|form| - 1], form[|form| - 1];
            (forall q :: q in form <==> q in front || q == last) && forall p <- front :: p.id != last.id
  {
    assert form == form[..|form| - 1] + [form[|form| - 1]];
  }

  // One field written.
  function Bind(b: Book, q: Question, t: Typed): Book {
    match q.kind
    case YesNo => b.(flag := b.flag[q.id := t.flag])
    case MultiSelect => b.(list := b.list[q.id := t.list])
    case Other => b.(text := b.text[q.id := t.text])
  }

  predicate Unbound(b: Book, id: string) {
    id !in b.flag && id !in b.text && id !in b.list
  }

  lemma BindHolds(b: Book, q: Question, t: Typed)
    ensures HoldsTyped(Bind(b, q, t), q, t)
    ensures Unbound(b, q.id) || Filed(b, q) ==> Filed(Bind(b, q, t), q)
  {
  }

  lemma BindLeaves(b: Book, q: Question, t: Typed, id: string)
    requires id != q.id
    ensures SameBinding(b, Bind(b, q, t), id)
  {
  }

  lemma BindingIsSame(b: Book, b': Book, b'': Book, q: Question)
    requires SameBinding(b, b', q.id)
    ensures SameBinding(b', b'', q.id) ==> SameBinding(b, b'', q.id)
    ensures Unbound(b, q.id) ==> Unbound(b', q.id)
    ensures Filed(b, q) ==> Filed(b', q)
    ensures forall t :: HoldsTyped(b, q, t) ==> HoldsTyped(b', q, t)
  {
  }

  lemma SubmittedNext(b: Book, form: seq<Question>, typed: string -> Typed)
    requires |form| > 0
    ensures var last := form[|form| - 1];
            Submitted(b, form, typed) == Bind(Submitted(b, form[..|form| - 1], typed), last, typed(last.id))
  {
  }

  lemma SeedsNext(qs: seq<Question>)
    requires |qs| > 0
    ensures var last := qs[|qs| - 1]; Seeds(qs) == Bind(Seeds(qs[..|qs| - 1]), last, DefaultOf(last))
  {
  }

  lemma {:induction false} SeedsHold(qs: seq<Question>, q: Question)
    requires UniqueIDs(qs)
    ensures q in qs ==> Filed(Seeds(qs), q) && HoldsTyped(Seeds(qs), q, DefaultOf(q))
    ensures (forall p <- qs :: p.id != q.id) ==> Unbound(Seeds(qs), q.id)
  {
    if |qs| > 0 {
      var last, mid := qs[|qs| - 1], Seeds(qs[..|qs| - 1]);
      SeedsHold(qs[..|qs| - 1], q);
      LastApart(qs);
      SeedsNext(qs);
      hide Seeds, HoldsTyped, Filed, DefaultOf, Bind, Unbound, SameBinding;
      if q.id == last.id {
        BindHolds(mid, last, DefaultOf(last));
      } else {
        BindLeaves(mid, last, DefaultOf(last), q.id);
        BindingIsSame(mid, Seeds(qs), mid, q);
      }
    }
  }

  lemma NothingTold(qs: seq<Question>, user: (nat, string) -> Typed)
    requires UniqueIDs(qs)
    ensures Told(qs, Seeds(qs), [], user)
  {
    forall q <- qs ensures Filed(Seeds(qs), q) && HoldsTyped(Seeds(qs), q, DefaultOf(q)) { SeedsHold(qs, q); }
  }

  lemma {:induction false} DistinctAt(qs: seq<Question>, i: nat, j: nat)
    requires Distinct(Ids(qs)) && i < j < |qs|
    ensures qs[i].id != qs[j].id
  {
    var front := qs[..|qs| - 1];
    assert Ids(qs)[..|qs| - 1] == Ids(front);
    if j < |qs| - 1 { DistinctAt(front, i, j); } else { IdsAre(front, qs[i].id); assert front[i] == qs[i]; }
  }

  lemma {:induction false} FlatMembers(forms: seq<seq<Question>>, q: Question)
    ensures q in Flat(forms) <==> exists k: nat :: k < |forms| && q in forms[k]
  {
    if |forms| > 0 {
      var front := forms[..|forms| - 1];
      FlatMembers(front, q);
      if q in Flat(front) {
        var k: nat :| k < |front| && q in front[k];
        assert q in forms[k];
      } else if q in Flat(forms) {
        assert q in forms[|forms| - 1];
      } else if exists k: nat :: k < |forms| && q in forms[k] {
        var k: nat :| k < |forms| && q in forms[k];
        if k < |front| { assert q in front[k]; }
      }
    }
  }

  // What a form does to every question's binding.
  lemma {:induction false} FormHolds(qs: seq<Question>, b: Book, wave: seq<Question>, typed: string -> Typed,
      q: Question)
    requires UniqueIDs(qs) && Distinct(Ids(wave)) && q in qs && Filed(b, q) && forall p <- wave :: p in qs
    ensures var b' := Submitted(b, wave, typed);
            && Filed(b', q)
            && (q in wave ==> HoldsTyped(b', q, typed(q.id)))
            && (q !in wave ==> forall t :: HoldsTyped(b, q, t) ==> HoldsTyped(b', q, t))
  {
    hide HoldsTyped, Filed, SameBinding, Submitted, Distinct, Ids;
    forall i, j | 0 <= i < j < |wave| ensures wave[i].id != wave[j].id { DistinctAt(wave, i, j); }
    SubmittedHolds(b, wave, typed, q);
    if q !in wave {
      forall p <- wave ensures p.id != q.id {
        if p.id == q.id { SameID(qs, p, q); }
      }
      BindingIsSame(b, Submitted(b, wave, typed), b, q);
    }
  }

  lemma {:induction false} LastAreDistinct(a: seq<Question>, b: seq<Question>)
    requires Distinct(Ids(a + b))
    ensures Distinct(Ids(b)) && forall q <- a :: q !in b
  {
    forall q <- a ensures q !in b {
      var i :| 0 <= i < |a| && a[i] == q;
      forall j | 0 <= j < |b| ensures b[j] != q {
        DistinctAt(a + b, i, |a| + j);
        assert (a + b)[i] == q && (a + b)[|a| + j] == b[j];
      }
    }
    EndIsDistinct(a, b);
  }

  lemma {:induction false} EndIsDistinct(a: seq<Question>, b: seq<Question>)
    requires Distinct(Ids(a + b))
    ensures Distinct(Ids(b))
  {
    if |b| > 0 {
      var front, last := b[..|b| - 1], b[|b| - 1];
      assert b == front + [last] && a + b == a + front + [last];
      IdsSnoc(a + front, last);
      IdsSnoc(front, last);
      EndIsDistinct(a, front);
      IdsAre(a + front, last.id);
      IdsAre(front, last.id);
      hide Ids, Distinct;
      assert last.id in Ids(front) ==> last.id in Ids(a + front);
    }
  }

  // One more form submitted.
  lemma ToldMore(qs: seq<Question>, b: Book, forms: seq<seq<Question>>, wave: seq<Question>,
      user: (nat, string) -> Typed, typed: string -> Typed)
    requires UniqueIDs(qs) && Told(qs, b, forms, user) && Distinct(Ids(Flat(forms) + wave))
    requires (forall q <- Flat(forms) :: q in qs) && forall q <- wave :: q in qs
    requires forall id :: typed(id) == user(|forms|, id)
    ensures Told(qs, Submitted(b, wave, typed), forms + [wave], user)
  {
    hide HoldsTyped, Filed, Submitted, Distinct, Ids, UniqueIDs;
    var b', forms' := Submitted(b, wave, typed), forms + [wave];
    assert forms'[..|forms|] == forms && Flat(forms') == Flat(forms) + wave;
    LastAreDistinct(Flat(forms), wave);
    hide Flat;
    forall q <- qs
      ensures Filed(b', q)
      ensures q in wave ==> HoldsTyped(b', q, typed(q.id))
      ensures q !in wave ==> forall t :: HoldsTyped(b, q, t) ==> HoldsTyped(b', q, t)
    {
      FormHolds(qs, b, wave, typed, q);
    }
    forall k: nat, q: Question | k < |forms'| && q in forms'[k]
      ensures HoldsTyped(b', q, user(k, q.id))
    {
      if k < |forms| {
        assert q in forms[k];
        FlatMembers(forms, q);
      } else {
        assert forms'[k] == wave;
      }
    }
  }

  // The forms a user is shown, told of nothing but what the user enters: a question appears
  // exactly if it has no gate, or its gate was on a form and was left saying what it requires.
  ghost predicate ShownBySaid(qs: seq<Question>, forms: seq<seq<Question>>, user: (nat, string) -> Typed) {
    forall q <- qs :: q in Flat(forms) <==>
      || q.requiresID == ""
      || exists k: nat, g: Question :: k < |forms| && g in forms[k] && g.id == q.requiresID &&
                             Says(g, user(k, g.id)) == q.requiresValue
  }

  lemma ToldIsShown(qs: seq<Question>, b: Book, forms: seq<seq<Question>>, user: (nat, string) -> Typed)
    requires Shallow(qs) && Told(qs, b, forms, user)
    requires forall q :: q in Flat(forms) <==> q in qs && ShouldAsk(b, q)
    ensures ShownBySaid(qs, forms, user)
  {
    forall q <- qs
      ensures q in Flat(forms) <==>
        || q.requiresID == ""
        || exists k: nat, g: Question :: k < |forms| && g in forms[k] && g.id == q.requiresID &&
                               Says(g, user(k, g.id)) == q.requiresValue
    {
      if q.Gated() {
        assert HasGate(qs, q);
        var g :| g in qs && g.id == q.requiresID && !g.Gated() && g.group <= q.group;
        FlatMembers(forms, g);
        var k: nat :| k < |forms| && g in forms[k];
        assert Filed(b, g) && HoldsTyped(b, g, user(k, g.id));
        assert ShouldAsk(b, q) <==> Says(g, user(k, g.id)) == q.requiresValue;
        forall k': nat, g': Question | k' < |forms| && g' in forms[k'] && g'.id == q.requiresID
          ensures Says(g', user(k', g'.id)) == Says(g, user(k, g.id))
        {
          FlatMembers(forms, g');
          SameID(qs, g, g');
          assert HoldsTyped(b, g', user(k', g'.id));
        }
      }
    }
  }

  // One group's forms, each submitted however the user likes.
  method AskGroup(qs: seq<Question>, group: int, a: Answers, shown: seq<seq<Question>>, ghost done: set<int>,
      user: (nat, string) -> Typed)
    returns (forms: seq<seq<Question>>)
    requires Shallow(qs) && UpTo(qs, done, group) && Within(qs, a.View(), Flat(shown), done, group, {})
    requires Distinct(Ids(Flat(shown))) && GatesFirst(shown)
    requires Told(qs, a.View(), shown, user)
    modifies a
    ensures forall q <- qs :: q.group in done + {group} ==> (q in Flat(forms) <==> ShouldAsk(a.View(), q))
    ensures forall q <- Flat(forms) :: q in qs && ShouldAsk(a.View(), q) && q.group in done + {group}
    ensures Distinct(Ids(Flat(forms))) && GatesFirst(forms)
    ensures Told(qs, a.View(), forms, user)
  {
    hide Within, UpTo, Shallow, GatesFirst, Distinct, ShouldAsk, Told;
    forms := shown;
    var asked: set<string> := {};
    var wave := NextWave(qs, group, asked, a);
    while |wave| > 0
      invariant wave == Wave(qs, qs, group, asked, a.View())
      invariant Within(qs, a.View(), Flat(forms), done, group, asked)
      invariant Distinct(Ids(Flat(forms))) && GatesFirst(forms)
      invariant Told(qs, a.View(), forms, user)
      decreases |IdSet(qs) - asked|
    {
      ghost var b, before := a.View(), forms;
      var n := |forms|;
      var typed := (id: string) => user(n, id);
      FormIsNew(qs, b, Flat(forms), done, group, asked);
      WaveKeeps(qs, b, Flat(forms), done, group, asked, typed);
      WaveTells(qs, b, forms, done, group, asked, user, typed);
      WaveAdvances(qs, group, asked, b);
      asked := asked + IdSet(wave);
      a.Submit(wave, typed);
      forms := forms + [wave];
      AddForm(before, wave);
      wave := NextWave(qs, group, asked, a);
    }
    GroupEnds(qs, a.View(), Flat(forms), done, group, asked);
    FlatIsWithin(qs, a.View(), Flat(forms), done, group, asked);
  }

  lemma WaveTells(qs: seq<Question>, b: Book, forms: seq<seq<Question>>, done: set<int>, group: int, asked: set<string>,
      user: (nat, string) -> Typed, typed: string -> Typed)
    requires Shallow(qs) && UpTo(qs, done, group) && Within(qs, b, Flat(forms), done, group, asked)
    requires Distinct(Ids(Flat(forms))) && Told(qs, b, forms, user)
    requires forall id :: typed(id) == user(|forms|, id)
    ensures var wave := Wave(qs, qs, group, asked, b); Told(qs, Submitted(b, wave, typed), forms + [wave], user)
  {
    var wave := Wave(qs, qs, group, asked, b);
    FormIsNew(qs, b, Flat(forms), done, group, asked);
    WaveMembers(qs, qs, group, asked, b);
    FlatIsWithin(qs, b, Flat(forms), done, group, asked);
    ToldMore(qs, b, forms, wave, user, typed);
    hide *;
  }

  lemma WaveAdvances(qs: seq<Question>, group: int, asked: set<string>, b: Book)
    requires Wave(qs, qs, group, asked, b) != []
    ensures |IdSet(qs) - (asked + IdSet(Wave(qs, qs, group, asked, b)))| < |IdSet(qs) - asked|
  {
    var wave := Wave(qs, qs, group, asked, b);
    WaveMembers(qs, qs, group, asked, b);
    var left, after := IdSet(qs) - asked, IdSet(qs) - (asked + IdSet(wave));
    assert wave[0] in wave && wave[0].id in left && wave[0].id !in after;
    Smaller(after, left, wave[0].id);
  }

  lemma Smaller<T>(a: set<T>, b: set<T>, x: T)
    requires a <= b && x in b && x !in a
    ensures |a| < |b|
  {
    assert a <= b - {x};
    SubsetSize(a, b - {x});
  }

  lemma AddForm(forms: seq<seq<Question>>, wave: seq<Question>)
    requires GatesFirst(forms)
    requires forall q <- wave :: q.Gated() ==> exists g <- Flat(forms) :: g.id == q.requiresID
    ensures GatesFirst(forms + [wave]) && Flat(forms + [wave]) == Flat(forms) + wave
  {
    assert (forms + [wave])[..|forms|] == forms;
  }

  lemma FlatIsWithin(qs: seq<Question>, b: Book, flat: seq<Question>, done: set<int>, group: int, asked: set<string>)
    requires Within(qs, b, flat, done, group, asked)
    ensures forall q <- flat :: q in qs && ShouldAsk(b, q) && q.group in done + {group}
  {
  }

  // The whole wizard, for every user: no question is put twice, none before the form that
  // answers its gate, and at the end a question has been shown exactly when its gate holds.
  method Setup(qs: seq<Question>, user: (nat, string) -> Typed) returns (a: Answers, forms: seq<seq<Question>>)
    requires Shallow(qs)
    ensures a.asked == qs
    ensures forall q :: q in Flat(forms) <==> q in qs && ShouldAsk(a.View(), q)
    ensures Distinct(Ids(Flat(forms)))
    ensures GatesFirst(forms)
    ensures Told(qs, a.View(), forms, user) && ShownBySaid(qs, forms, user)
  {
    hide Told, ShownBySaid;
    a := new Answers(qs);
    var groups := GroupsOf(qs);
    NothingTold(qs, user);
    forms := [];
    for i := 0 to |groups|
      invariant fresh(a) && a.asked == qs
      invariant forall q <- qs :: q.group in groups[..i] ==> (q in Flat(forms) <==> ShouldAsk(a.View(), q))
      invariant forall q <- Flat(forms) :: q in qs && ShouldAsk(a.View(), q) && q.group in groups[..i]
      invariant Distinct(Ids(Flat(forms))) && GatesFirst(forms)
      invariant Told(qs, a.View(), forms, user)
    {
      ghost var done := set g | g in groups[..i];
      StartGroup(qs, a.View(), Flat(forms), groups, i);
      forms := AskGroup(qs, groups[i], a, forms, done, user);
      assert forall g :: g in groups[..i + 1] <==> g in done + {groups[i]};
    }
    assert groups[..|groups|] == groups && forall q <- qs :: q.group in groups;
    assert forall q :: q in Flat(forms) <==> q in qs && ShouldAsk(a.View(), q);
    ToldIsShown(qs, a.View(), forms, user);
    hide *;
  }

  lemma StartGroup(qs: seq<Question>, b: Book, flat: seq<Question>, groups: seq<int>, i: nat)
    requires i < |groups| && Ascending(groups)
    requires forall g :: g in groups <==> exists q <- qs :: q.group == g
    requires forall q <- qs :: q.group in groups[..i] ==> (q in flat <==> ShouldAsk(b, q))
    requires forall q <- flat :: q in qs && ShouldAsk(b, q) && q.group in groups[..i]
    ensures var done := set g | g in groups[..i];
            UpTo(qs, done, groups[i]) && Within(qs, b, flat, done, groups[i], {})
  {
    forall q <- qs | q.group < groups[i]
      ensures q.group in groups[..i]
    {
      assert q.group in groups;
      var k :| 0 <= k < |groups| && groups[k] == q.group;
      assert groups[..i][k] == q.group;
    }
  }

  // What a caller reads back afterwards is what the user saw.
  method SetupAndRead(qs: seq<Question>, user: (nat, string) -> Typed, id: string)
    returns (wasAsked: bool, forms: seq<seq<Question>>)
    requires Shallow(qs)
    ensures wasAsked <==> exists q <- Flat(forms) :: q.id == id
  {
    var a;
    a, forms := Setup(qs, user);
    wasAsked := a.WasAsked(id);
  }
}
