// The setup wizard: which questions go on which form, and what counts as asked.

module Wizard {

  datatype Kind = YesNo | MultiSelect | Other

  datatype Question = Question(
    id: string, kind: Kind, group: int, default_: string, selected: seq<string>,
    requiresID: string, requiresValue: string) {
    predicate Gated() { requiresID != "" }
  }

  // What a form field holds when its form is submitted. Each kind reads its own part.
  datatype Typed = Typed(flag: bool, text: string, list: seq<string>)

  // The answers so far, one binding per question.
  datatype Book = Book(flag: map<string, bool>, text: map<string, string>, list: map<string, seq<string>>)

  function FormatBool(b: bool): string {
    if b then "true" else "false"
  }

  function TextOf(b: Book, id: string): string {
    if id in b.text then b.text[id] else ""
  }

  predicate ShouldAsk(b: Book, q: Question) {
    !q.Gated() ||
    if q.requiresID in b.flag then FormatBool(b.flag[q.requiresID]) == q.requiresValue
    else TextOf(b, q.requiresID) == q.requiresValue
  }

  // Every binding at its question's default.
  function Seeds(qs: seq<Question>): Book {
    if |qs| == 0 then Book(map[], map[], map[])
    else
      var b := Seeds(qs[..|qs| - 1]);
      var q := qs[|qs| - 1];
      match q.kind
      case YesNo => b.(flag := b.flag[q.id := q.default_ == "true"])
      case MultiSelect => b.(list := b.list[q.id := q.selected])
      case Other => b.(text := b.text[q.id := q.default_])
  }

  // A submitted form writes through its fields' bindings.
  function Submitted(b: Book, form: seq<Question>, typed: string -> Typed): Book {
    if |form| == 0 then b
    else
      var b' := Submitted(b, form[..|form| - 1], typed);
      var q := form[|form| - 1];
      match q.kind
      case YesNo => b'.(flag := b'.flag[q.id := typed(q.id).flag])
      case MultiSelect => b'.(list := b'.list[q.id := typed(q.id).list])
      case Other => b'.(text := b'.text[q.id := typed(q.id).text])
  }

  // A gate reads nothing but the binding it names.
  predicate SameAnswer(b: Book, b': Book, id: string) {
    && (id in b.flag <==> id in b'.flag) && (id in b.flag ==> b.flag[id] == b'.flag[id])
    && (id in b.text <==> id in b'.text) && (id in b.text ==> b.text[id] == b'.text[id])
  }

  // ---- the shape the question set promises ----

  predicate HasGate(qs: seq<Question>, q: Question) {
    exists g <- qs :: g.id == q.requiresID && !g.Gated() && g.group <= q.group
  }

  predicate UniqueIDs(qs: seq<Question>) {
    forall i, j :: 0 <= i < j < |qs| ==> qs[i].id != qs[j].id
  }

  // Gates are questions of the set, one deep, and never in a later group.
  predicate Shallow(qs: seq<Question>) {
    UniqueIDs(qs) && forall q <- qs :: q.Gated() ==> HasGate(qs, q)
  }

  // ---- which questions go on the next form ----

  function StillToAsk(qs: seq<Question>, id: string, group: int, asked: set<string>, b: Book): bool {
    if |qs| == 0 then false
    else if qs[0].id != id then StillToAsk(qs[1..], id, group, asked, b)
    else qs[0].group == group && qs[0].id !in asked && ShouldAsk(b, qs[0])
  }

  predicate Due(qs: seq<Question>, q: Question, group: int, asked: set<string>, b: Book) {
    && q.group == group && q.id !in asked && ShouldAsk(b, q)
    && !(q.Gated() && StillToAsk(qs, q.requiresID, group, asked, b))
  }

  // The due ones among `among`, in order.
  function Wave(qs: seq<Question>, among: seq<Question>, group: int, asked: set<string>, b: Book): seq<Question> {
    if |among| == 0 then []
    else
      var before := Wave(qs, among[..|among| - 1], group, asked, b);
      if Due(qs, among[|among| - 1], group, asked, b) then before + [among[|among| - 1]] else before
  }

  function Ids(qs: seq<Question>): (ids: seq<string>)
    ensures |ids| == |qs|
  {
    if |qs| == 0 then [] else Ids(qs[..|qs| - 1]) + [qs[|qs| - 1].id]
  }

  predicate Distinct<T(==)>(s: seq<T>) {
    |s| == 0 || (Distinct(s[..|s| - 1]) && s[|s| - 1] !in s[..|s| - 1])
  }

  lemma {:induction false} IdsAre(qs: seq<Question>, id: string)
    ensures id in Ids(qs) <==> exists q <- qs :: q.id == id
  {
    if |qs| > 0 {
      var front, last := qs[..|qs| - 1], qs[|qs| - 1];
      IdsAre(front, id);
      assert qs == front + [last];
    }
  }

  lemma SameID(qs: seq<Question>, p: Question, q: Question)
    requires UniqueIDs(qs) && p in qs && q in qs && p.id == q.id
    ensures p == q
  {
    var i :| 0 <= i < |qs| && qs[i] == p;
    var j :| 0 <= j < |qs| && qs[j] == q;
  }

  lemma {:induction false} FirstMatch(qs: seq<Question>, g: Question, group: int, asked: set<string>, b: Book)
    requires UniqueIDs(qs) && g in qs
    ensures StillToAsk(qs, g.id, group, asked, b) <==> g.group == group && g.id !in asked && ShouldAsk(b, g)
  {
    hide ShouldAsk;
    if qs[0].id == g.id {
      SameID(qs, qs[0], g);
    } else {
      assert UniqueIDs(qs[1..]);
      FirstMatch(qs[1..], g, group, asked, b);
    }
  }

  lemma {:induction false} WaveMembers(qs: seq<Question>, among: seq<Question>, group: int, asked: set<string>, b: Book)
    ensures forall q :: q in Wave(qs, among, group, asked, b) <==> q in among && Due(qs, q, group, asked, b)
    ensures |Wave(qs, among, group, asked, b)| <= |among|
  {
    hide Due;
    if |among| > 0 {
      WaveMembers(qs, among[..|among| - 1], group, asked, b);
      assert among == among[..|among| - 1] + [among[|among| - 1]];
    }
  }

  lemma {:induction false} WaveIsDistinct(qs: seq<Question>, among: seq<Question>, group: int,
      asked: set<string>, b: Book)
    requires UniqueIDs(among)
    ensures Distinct(Ids(Wave(qs, among, group, asked, b)))
  {
    hide Due;
    if |among| > 0 {
      var front, last := among[..|among| - 1], among[|among| - 1];
      WaveIsDistinct(qs, front, group, asked, b);
      WaveMembers(qs, front, group, asked, b);
      var before := Wave(qs, front, group, asked, b);
      IdsAre(before, last.id);
      assert (before + [last])[..|before|] == before;
      assert (Ids(before) + [last.id])[..|before|] == Ids(before);
    }
  }

  // ---- the methods ----

  class Answers {
    var flag: map<string, bool>
    var text: map<string, string>
    var list: map<string, seq<string>>
    const asked: seq<Question>

    ghost function View(): Book
      reads this
    {
      Book(flag, text, list)
    }

    constructor (qs: seq<Question>)
      ensures asked == qs && View() == Seeds(qs)
    {
      asked := qs;
      flag, text, list := map[], map[], map[];
      new;
      for i := 0 to |qs|
        invariant asked == qs && Book(flag, text, list) == Seeds(qs[..i])
      {
        assert qs[..i + 1][..i] == qs[..i];
        var q := qs[i];
        match q.kind {
          case YesNo => flag := flag[q.id := q.default_ == "true"];
          case MultiSelect => list := list[q.id := q.selected];
          case Other => text := text[q.id := q.default_];
        }
      }
      assert qs[..|qs|] == qs;
    }

    method Asks(q: Question) returns (r: bool)
      ensures r == ShouldAsk(View(), q)
    {
      if !q.Gated() {
        return true;
      }
      if q.requiresID in flag {
        return FormatBool(flag[q.requiresID]) == q.requiresValue;
      }
      var t := "";
      if q.requiresID in text {
        t := text[q.requiresID];
      }
      return t == q.requiresValue;
    }

    // Whether the question exists and its gate holds under the answers collected.
    method WasAsked(id: string) returns (r: bool)
      requires UniqueIDs(asked)
      ensures r <==> exists q <- asked :: q.id == id && ShouldAsk(View(), q)
    {
      for i := 0 to |asked|
        invariant forall q <- asked[..i] :: q.id != id
      {
        if asked[i].id == id {
          r := Asks(asked[i]);
          forall q <- asked | q.id == id { SameID(asked, q, asked[i]); }
          return;
        }
        assert asked[..i + 1] == asked[..i] + [asked[i]];
      }
      assert asked[..|asked|] == asked;
      r := false;
    }

    method Submit(form: seq<Question>, typed: string -> Typed)
      modifies this
      ensures View() == Submitted(old(View()), form, typed)
    {
      for i := 0 to |form|
        invariant View() == Submitted(old(View()), form[..i], typed)
      {
        assert form[..i + 1][..i] == form[..i];
        var q := form[i];
        var t := typed(q.id);
        match q.kind {
          case YesNo => flag := flag[q.id := t.flag];
          case MultiSelect => list := list[q.id := t.list];
          case Other => text := text[q.id := t.text];
        }
      }
      assert form[..|form|] == form;
    }
  }

  method IsStillToAsk(qs: seq<Question>, id: string, group: int, asked: set<string>, a: Answers) returns (r: bool)
    ensures r == StillToAsk(qs, id, group, asked, a.View())
  {
    for i := 0 to |qs|
      invariant StillToAsk(qs, id, group, asked, a.View()) == StillToAsk(qs[i..], id, group, asked, a.View())
    {
      if qs[i].id != id {
        continue;
      }
      var due := a.Asks(qs[i]);
      return qs[i].group == group && qs[i].id !in asked && due;
    }
    r := false;
  }

  method NextWave(qs: seq<Question>, group: int, asked: set<string>, a: Answers) returns (wave: seq<Question>)
    ensures wave == Wave(qs, qs, group, asked, a.View())
  {
    wave := [];
    for i := 0 to |qs|
      invariant wave == Wave(qs, qs[..i], group, asked, a.View())
    {
      assert qs[..i + 1][..i] == qs[..i];
      var q := qs[i];
      var ask := a.Asks(q);
      if q.group != group || q.id in asked || !ask {
        continue;
      }
      if q.Gated() {
        var wait := IsStillToAsk(qs, q.requiresID, group, asked, a);
        if wait {
          continue;
        }
      }
      wave := wave + [q];
    }
    assert qs[..|qs|] == qs;
  }

  predicate Ascending(s: seq<int>) {
    forall i, j :: 0 <= i < j < |s| ==> s[i] < s[j]
  }

  method GroupsOf(qs: seq<Question>) returns (out: seq<int>)
    ensures Ascending(out)
    ensures forall g :: g in out <==> exists q <- qs :: q.group == g
  {
    out := [];
    var seen: set<int> := {};
    for i := 0 to |qs|
      invariant forall g :: g in out <==> g in seen
      invariant forall g :: g in seen <==> exists q <- qs[..i] :: q.group == g
      invariant Distinct(out)
    {
      assert qs[..i + 1] == qs[..i] + [qs[i]];
      var g := qs[i].group;
      if g !in seen {
        seen := seen + {g};
        out := out + [g];
        assert out[..|out| - 1] + [g] == out;
      }
    }
    assert qs[..|qs|] == qs;
    forall a, b | 0 <= a < b < |out| ensures out[a] != out[b] { DistinctApart(out, a, b); }
    ghost var unsorted := out;
    out := InsertionSort(out);
    forall g ensures g in out <==> g in unsorted {
      assert g in out <==> g in multiset(out);
      assert g in unsorted <==> g in multiset(unsorted);
    }
  }

  lemma {:induction false} DistinctApart<T>(s: seq<T>, i: int, j: int)
    requires Distinct(s) && 0 <= i < j < |s|
    ensures s[i] != s[j]
  {
    if j == |s| - 1 {
      assert s[i] in s[..|s| - 1];
    } else {
      DistinctApart(s[..|s| - 1], i, j);
    }
  }

  // Ascending as far as `i`, but for the element still sinking at `j`.
  predicate Sinking(s: seq<int>, i: int, j: int)
    requires 0 <= j <= i < |s|
  {
    && (forall a, b :: 0 <= a < b <= i && a != j && b != j ==> s[a] < s[b])
    && (forall b :: j < b <= i ==> s[j] < s[b])
  }

  predicate AllApart(s: seq<int>) {
    forall a, b :: 0 <= a < b < |s| ==> s[a] != s[b]
  }

  lemma SwapKeeps(s: seq<int>, j: nat)
    requires 0 < j < |s| && AllApart(s)
    ensures var t := s[j := s[j - 1]][j - 1 := s[j]];
            AllApart(t) && multiset(t) == multiset(s)
  {
  }

  lemma StartsSinking(s: seq<int>, i: nat)
    requires i < |s| && Ascending(s[..i])
    ensures Sinking(s, i, i)
  {
    assert forall a :: 0 <= a < i ==> s[..i][a] == s[a];
  }

  lemma SinksOn(s: seq<int>, i: nat, j: nat)
    requires 0 < j <= i < |s| && Sinking(s, i, j) && s[j] < s[j - 1]
    ensures Sinking(s[j := s[j - 1]][j - 1 := s[j]], i, j - 1)
  {
  }

  method Sink(s: seq<int>, i: nat) returns (out: seq<int>)
    requires i < |s| && AllApart(s) && Ascending(s[..i])
    ensures |out| == |s| && AllApart(out) && Ascending(out[..i + 1]) && multiset(out) == multiset(s)
  {
    out := s;
    var j := i;
    StartsSinking(s, i);
    hide AllApart, Sinking, Ascending;
    while j > 0 && out[j] < out[j - 1]
      invariant 0 <= j <= i < |out| == |s|
      invariant AllApart(out) && multiset(out) == multiset(s)
      invariant Sinking(out, i, j)
    {
      SwapKeeps(out, j);
      SinksOn(out, i, j);
      out := out[j := out[j - 1]][j - 1 := out[j]];
      j := j - 1;
    }
    SunkIsAscending(out, i, j);
  }

  lemma SunkIsAscending(s: seq<int>, i: nat, j: nat)
    requires j <= i < |s| && AllApart(s) && Sinking(s, i, j)
    requires j > 0 ==> s[j] >= s[j - 1]
    ensures Ascending(s[..i + 1])
  {
  }

  method InsertionSort(s: seq<int>) returns (out: seq<int>)
    requires AllApart(s)
    ensures Ascending(out) && multiset(out) == multiset(s)
  {
    out := s;
    var i := 1;
    while i < |out|
      invariant AllApart(out) && multiset(out) == multiset(s)
      invariant 1 <= i && Ascending(if i <= |out| then out[..i] else out)
    {
      out := Sink(out, i);
      i := i + 1;
    }
    if i == |out| { assert out[..i] == out; }
  }
}
