// A JSON document decoded, rewritten string by string, and printed again, its order kept.

module JsonTree {
  import opened Basics

  // Numbers, booleans and null are atoms, kept as they were written. The fields of an object
  // stand in the order of their keys.
  datatype Json = Str(s: string) | Atom(text: string) | Arr(items: seq<Json>) | Obj(fields: seq<Field>)

  datatype Field = Field(key: string, value: Json)

  datatype Token = OpenBrace | CloseBrace | OpenBracket | CloseBracket | StrToken(s: string) | AtomToken(text: string)

  // What a decoding yields: a value and the tokens after it, or nothing.
  type Decoded = Option<(Json, seq<Token>)>

  // ---- objects ----

  function Keys(fs: seq<Field>): (ks: seq<string>)
    ensures |ks| == |fs| && forall i :: 0 <= i < |fs| ==> ks[i] == fs[i].key
  {
    seq(|fs|, i requires 0 <= i < |fs| => fs[i].key)
  }

  predicate DistinctKeys(fs: seq<Field>) {
    forall i, j :: 0 <= i < j < |fs| ==> fs[i].key != fs[j].key
  }

  function IndexOf(fs: seq<Field>, key: string): (k: int)
    ensures -1 <= k < |fs|
    ensures k == -1 ==> key !in Keys(fs)
    ensures k >= 0 ==> fs[k].key == key && key !in Keys(fs[..k])
  {
    if |fs| == 0 then -1
    else
      var k := IndexOf(fs[..|fs| - 1], key);
      assert Keys(fs) == Keys(fs[..|fs| - 1]) + [fs[|fs| - 1].key];
      if k >= 0 then assert fs[..|fs| - 1][..k] == fs[..k]; k
      else if fs[|fs| - 1].key == key then |fs| - 1
      else -1
  }

  // A key seen before keeps its place and takes the new value.
  function Put(fs: seq<Field>, f: Field): seq<Field> {
    var k := IndexOf(fs, f.key);
    if k >= 0 then fs[k := f] else fs + [f]
  }

  function PutAll(fs: seq<Field>, more: seq<Field>): seq<Field>
    decreases |more|
  {
    if |more| == 0 then fs else PutAll(Put(fs, more[0]), more[1..])
  }

  // No object anywhere in the value has a key twice.
  predicate WellFormed(v: Json) {
    match v
    case Arr(items) => forall i :: 0 <= i < |items| ==> WellFormed(items[i])
    case Obj(fs) => DistinctKeys(fs) && forall i :: 0 <= i < |fs| ==> WellFormed(fs[i].value)
    case _ => true
  }

  // ---- printing ----

  function Tokens(v: Json): (ts: seq<Token>)
    ensures |ts| > 0 && !ts[0].CloseBrace? && !ts[0].CloseBracket?
    decreases v
  {
    match v
    case Str(s) => [StrToken(s)]
    case Atom(text) => [AtomToken(text)]
    case Arr(items) => [OpenBracket] + (ItemTokens(items) + [CloseBracket])
    case Obj(fs) => [OpenBrace] + (FieldTokens(fs) + [CloseBrace])
  }

  function ItemTokens(items: seq<Json>): seq<Token>
    decreases items
  {
    if |items| == 0 then [] else Tokens(items[0]) + ItemTokens(items[1..])
  }

  function FieldTokens(fs: seq<Field>): seq<Token>
    decreases fs
  {
    if |fs| == 0 then [] else [StrToken(fs[0].key)] + (Tokens(fs[0].value) + FieldTokens(fs[1..]))
  }

  // ---- decoding ----

  function DecodeValue(tok: Token, rest: seq<Token>): (r: Decoded)
    ensures r.Some? ==> |r.value.1| <= |rest|
    decreases |rest|, 1
  {
    match tok
    case StrToken(s) => Some((Str(s), rest))
    case AtomToken(text) => Some((Atom(text), rest))
    case OpenBrace => DecodeFields([], rest)
    case OpenBracket => DecodeItems([], rest)
    case _ => None
  }

  function DecodeFields(fs: seq<Field>, rest: seq<Token>): (r: Decoded)
    ensures r.Some? ==> |r.value.1| <= |rest|
    decreases |rest|, 0
  {
    if |rest| == 0 then None
    else if rest[0].CloseBrace? then Some((Obj(fs), rest[1..]))
    else if !rest[0].StrToken? || |rest| == 1 then None
    else
      match DecodeValue(rest[1], rest[2..])
      case None => None
      case Some((v, after)) => DecodeFields(Put(fs, Field(rest[0].s, v)), after)
  }

  function DecodeItems(items: seq<Json>, rest: seq<Token>): (r: Decoded)
    ensures r.Some? ==> |r.value.1| <= |rest|
    decreases |rest|, 0
  {
    if |rest| == 0 then None
    else if rest[0].CloseBracket? then Some((Arr(items), rest[1..]))
    else
      match DecodeValue(rest[0], rest[1..])
      case None => None
      case Some((v, after)) => DecodeItems(items + [v], after)
  }

  method Decode(tok: Token, tokens: seq<Token>) returns (r: Decoded)
    ensures r == DecodeValue(tok, tokens)
    decreases |tokens|
  {
    match tok {
      case StrToken(s) => return Some((Str(s), tokens));
      case AtomToken(text) => return Some((Atom(text), tokens));
      case OpenBrace =>
        var fs, rest := [], tokens;
        while true
          invariant |rest| <= |tokens| && DecodeFields(fs, rest) == DecodeFields([], tokens)
          decreases |rest|
        {
          if |rest| == 0 {
            return None;
          }
          if rest[0].CloseBrace? {
            return Some((Obj(fs), rest[1..]));
          }
          if !rest[0].StrToken? || |rest| == 1 {
            return None;
          }
          var v := Decode(rest[1], rest[2..]);
          if v.None? {
            return None;
          }
          fs := Put(fs, Field(rest[0].s, v.value.0));
          rest := v.value.1;
        }
      case OpenBracket =>
        var items, rest := [], tokens;
        while true
          invariant |rest| <= |tokens| && DecodeItems(items, rest) == DecodeItems([], tokens)
          decreases |rest|
        {
          if |rest| == 0 {
            return None;
          }
          if rest[0].CloseBracket? {
            return Some((Arr(items), rest[1..]));
          }
          var v := Decode(rest[0], rest[1..]);
          if v.None? {
            return None;
          }
          items := items + [v.value.0];
          rest := v.value.1;
        }
      case _ => return None;
    }
  }

  // ---- printed and decoded ----

  // A document as it may be written, its objects with the same key as often as they like, and
  // the value it stands for: of each key the first place and the last value.
  function Meant(v: Json): Json
    decreases v
  {
    match v
    case Arr(items) => Arr(MeantItems(items))
    case Obj(fs) => Obj(PutAll([], MeantFields(fs)))
    case _ => v
  }

  function MeantItems(items: seq<Json>): seq<Json>
    decreases items
  {
    if |items| == 0 then [] else [Meant(items[0])] + MeantItems(items[1..])
  }

  function MeantFields(fs: seq<Field>): seq<Field>
    decreases fs
  {
    if |fs| == 0 then [] else [Field(fs[0].key, Meant(fs[0].value))] + MeantFields(fs[1..])
  }

  // Whatever is written decodes to what it means.
  lemma {:induction false} WrittenDecodes(v: Json, rest: seq<Token>)
    ensures DecodeValue(Tokens(v)[0], Tokens(v)[1..] + rest) == Some((Meant(v), rest))
    decreases v, 1
  {
    match v
    case Str(_) => assert Tokens(v)[1..] + rest == rest;
    case Atom(_) => assert Tokens(v)[1..] + rest == rest;
    case Arr(items) =>
      assert Tokens(v)[1..] + rest == ItemTokens(items) + [CloseBracket] + rest;
      WrittenItemsDecode([], items, rest);
      assert [] + MeantItems(items) == MeantItems(items);
    case Obj(fs) =>
      assert Tokens(v)[1..] + rest == FieldTokens(fs) + [CloseBrace] + rest;
      WrittenFieldsDecode([], fs, rest);
  }

  lemma {:induction false} WrittenItemsDecode(done: seq<Json>, items: seq<Json>, rest: seq<Token>)
    ensures DecodeItems(done, ItemTokens(items) + [CloseBracket] + rest) == Some((Arr(done + MeantItems(items)), rest))
    decreases items, 0
  {
    var ts := ItemTokens(items) + [CloseBracket] + rest;
    if |items| == 0 {
      assert ts == [CloseBracket] + rest && done + [] == done;
      assert ts[1..] == rest;
    } else {
      var first := Tokens(items[0]);
      var after := ItemTokens(items[1..]) + [CloseBracket] + rest;
      assert ts == first + after;
      assert ts[0] == first[0] && ts[1..] == first[1..] + after;
      WrittenDecodes(items[0], after);
      WrittenItemsDecode(done + [Meant(items[0])], items[1..], rest);
      assert done + [Meant(items[0])] + MeantItems(items[1..]) == done + MeantItems(items);
    }
  }

  lemma {:induction false} WrittenFieldsDecode(done: seq<Field>, fs: seq<Field>, rest: seq<Token>)
    ensures DecodeFields(done, FieldTokens(fs) + [CloseBrace] + rest) ==
              Some((Obj(PutAll(done, MeantFields(fs))), rest))
    decreases fs, 0
  {
    var ts := FieldTokens(fs) + [CloseBrace] + rest;
    if |fs| == 0 {
      assert ts == [CloseBrace] + rest;
      assert ts[1..] == rest;
    } else {
      var first := Tokens(fs[0].value);
      var after := FieldTokens(fs[1..]) + [CloseBrace] + rest;
      assert ts == [StrToken(fs[0].key)] + (first + after);
      assert ts[1] == first[0] && ts[2..] == first[1..] + after;
      WrittenDecodes(fs[0].value, after);
      var f := Field(fs[0].key, Meant(fs[0].value));
      WrittenFieldsDecode(Put(done, f), fs[1..], rest);
      assert MeantFields(fs)[1..] == MeantFields(fs[1..]);
    }
  }

  // A value without repeated keys means itself.
  lemma {:induction false} MeansItself(v: Json)
    requires WellFormed(v)
    ensures Meant(v) == v
    decreases v, 1
  {
    match v
    case Arr(items) => ItemsMeanThemselves(items);
    case Obj(fs) =>
      FieldsMeanThemselves(fs);
      assert [] + fs == fs;
      DistinctStay([], fs);
    case _ =>
  }

  lemma {:induction false} ItemsMeanThemselves(items: seq<Json>)
    requires forall i :: 0 <= i < |items| ==> WellFormed(items[i])
    ensures MeantItems(items) == items
    decreases items, 0
  {
    if |items| > 0 {
      MeansItself(items[0]);
      ItemsMeanThemselves(items[1..]);
      assert items == [items[0]] + items[1..];
    }
  }

  lemma {:induction false} FieldsMeanThemselves(fs: seq<Field>)
    requires forall i :: 0 <= i < |fs| ==> WellFormed(fs[i].value)
    ensures MeantFields(fs) == fs
    decreases fs, 0
  {
    if |fs| > 0 {
      MeansItself(fs[0].value);
      FieldsMeanThemselves(fs[1..]);
      assert fs == [fs[0]] + fs[1..];
    }
  }

  // Any value prints to tokens that decode to that value, and to exactly what follows it.
  lemma PrintedDecodes(v: Json, rest: seq<Token>)
    requires WellFormed(v)
    ensures DecodeValue(Tokens(v)[0], Tokens(v)[1..] + rest) == Some((v, rest))
  {
    WrittenDecodes(v, rest);
    MeansItself(v);
  }

  lemma {:induction false} DistinctStay(done: seq<Field>, fs: seq<Field>)
    requires DistinctKeys(done + fs)
    ensures PutAll(done, fs) == done + fs
    decreases |fs|
  {
    if |fs| == 0 {
      assert done + fs == done;
    } else {
      forall i | 0 <= i < |done| ensures done[i].key != fs[0].key {
        assert (done + fs)[i] == done[i] && (done + fs)[|done|] == fs[0];
      }
      assert done + fs == done + [fs[0]] + fs[1..];
      DistinctStay(done + [fs[0]], fs[1..]);
    }
  }

  // ---- duplicate keys ----

  // Each key once, where it first stands.
  function Firsts(keys: seq<string>): seq<string> {
    if |keys| == 0 then []
    else
      var before := Firsts(keys[..|keys| - 1]);
      if keys[|keys| - 1] in before then before else before + [keys[|keys| - 1]]
  }

  // The value of the last field with this key.
  function LastValue(fs: seq<Field>, key: string): Option<Json> {
    if |fs| == 0 then None
    else if fs[|fs| - 1].key == key then Some(fs[|fs| - 1].value)
    else LastValue(fs[..|fs| - 1], key)
  }

  predicate Collapses(fs: seq<Field>, r: seq<Field>) {
    && Keys(r) == Firsts(Keys(fs))
    && DistinctKeys(r)
    && forall i :: 0 <= i < |r| ==> LastValue(fs, r[i].key) == Some(r[i].value)
  }

  lemma PutCollapses(fs: seq<Field>, r: seq<Field>, f: Field)
    requires Collapses(fs, r)
    ensures Collapses(fs + [f], Put(r, f))
  {
    var k := IndexOf(r, f.key);
    var r' := Put(r, f);
    assert (fs + [f])[..|fs|] == fs;
    assert Keys(fs + [f])[..|fs|] == Keys(fs);
    if k >= 0 {
      assert Keys(r)[k] == f.key && Keys(r') == Keys(r);
    } else {
      assert Keys(r') == Keys(r) + [f.key];
      forall i | 0 <= i < |r| ensures r[i].key != f.key {
        assert Keys(r)[i] in Keys(r);
      }
    }
  }

  lemma {:induction false} PutAllCollapses(done: seq<Field>, r: seq<Field>, fs: seq<Field>)
    requires Collapses(done, r)
    ensures Collapses(done + fs, PutAll(r, fs))
    decreases |fs|
  {
    hide Collapses, Put;
    if |fs| == 0 {
      assert done + fs == done;
    } else {
      PutCollapses(done, r, fs[0]);
      PutAllCollapses(done + [fs[0]], Put(r, fs[0]), fs[1..]);
      assert done + [fs[0]] + fs[1..] == done + fs;
    }
  }

  // An object written with a key more than once decodes to one with each key once, at its
  // first place, with its last value.
  lemma DuplicatesCollapse(fs: seq<Field>, rest: seq<Token>)
    requires forall i :: 0 <= i < |fs| ==> WellFormed(fs[i].value)
    ensures exists r :: Collapses(fs, r) &&
              DecodeValue(OpenBrace, FieldTokens(fs) + [CloseBrace] + rest) == Some((Obj(r), rest))
  {
    FieldsMeanThemselves(fs);
    WrittenFieldsDecode([], fs, rest);
    assert Collapses([], []);
    PutAllCollapses([], [], fs);
    assert [] + fs == fs;
    assert Collapses(fs, PutAll([], fs));
  }

  // ---- whatever decodes ----

  predicate Suffix(rest: seq<Token>, tokens: seq<Token>) {
    |rest| <= |tokens| && rest == tokens[|tokens| - |rest|..]
  }

  lemma SuffixOf(a: seq<Token>, b: seq<Token>, c: seq<Token>)
    requires Suffix(a, b) && Suffix(b, c)
    ensures Suffix(a, c)
  {
  }

  // Whatever the tokens, a value that decodes has no key twice, and is followed by the end
  // of those very tokens.
  lemma {:induction false} DecodedIsWellFormed(tok: Token, rest: seq<Token>)
    ensures var r := DecodeValue(tok, rest);
            r.Some? ==> WellFormed(r.value.0) && Suffix(r.value.1, rest)
    decreases |rest|, 1
  {
    match tok
    case OpenBrace => FieldsAreWellFormed([], rest);
    case OpenBracket => ItemsAreWellFormed([], rest);
    case _ =>
  }

  lemma {:induction false} FieldsAreWellFormed(fs: seq<Field>, rest: seq<Token>)
    requires DistinctKeys(fs) && forall i :: 0 <= i < |fs| ==> WellFormed(fs[i].value)
    ensures var r := DecodeFields(fs, rest);
            r.Some? ==> WellFormed(r.value.0) && Suffix(r.value.1, rest)
    decreases |rest|, 0
  {
    if |rest| > 1 && rest[0].StrToken? {
      DecodedIsWellFormed(rest[1], rest[2..]);
      var v := DecodeValue(rest[1], rest[2..]);
      if v.Some? {
        var f := Field(rest[0].s, v.value.0);
        PutStaysDistinct(fs, f);
        FieldsAreWellFormed(Put(fs, f), v.value.1);
        assert Suffix(rest[2..], rest);
        SuffixOf(v.value.1, rest[2..], rest);
        var r := DecodeFields(fs, rest);
        if r.Some? { SuffixOf(r.value.1, v.value.1, rest); }
      }
    }
  }

  lemma PutStaysDistinct(fs: seq<Field>, f: Field)
    requires DistinctKeys(fs) && WellFormed(f.value) && forall i :: 0 <= i < |fs| ==> WellFormed(fs[i].value)
    ensures DistinctKeys(Put(fs, f)) && forall i :: 0 <= i < |Put(fs, f)| ==> WellFormed(Put(fs, f)[i].value)
  {
    if IndexOf(fs, f.key) == -1 {
      forall i | 0 <= i < |fs| ensures fs[i].key != f.key {
        assert Keys(fs)[i] in Keys(fs);
      }
    }
  }

  lemma {:induction false} ItemsAreWellFormed(items: seq<Json>, rest: seq<Token>)
    requires forall i :: 0 <= i < |items| ==> WellFormed(items[i])
    ensures var r := DecodeItems(items, rest);
            r.Some? ==> WellFormed(r.value.0) && Suffix(r.value.1, rest)
    decreases |rest|, 0
  {
    if |rest| > 0 && !rest[0].CloseBracket? {
      DecodedIsWellFormed(rest[0], rest[1..]);
      var v := DecodeValue(rest[0], rest[1..]);
      if v.Some? {
        ItemsAreWellFormed(items + [v.value.0], v.value.1);
        assert Suffix(rest[1..], rest);
        SuffixOf(v.value.1, rest[1..], rest);
        var r := DecodeItems(items, rest);
        if r.Some? { SuffixOf(r.value.1, v.value.1, rest); }
      }
    }
  }

  // ---- the documents that decode ----

  // And nothing else does: whatever decodes was written, as a document that means the value.
  lemma {:induction false} DecodedWasWritten(tok: Token, rest: seq<Token>) returns (v: Json)
    requires DecodeValue(tok, rest).Some?
    ensures var (w, after) := DecodeValue(tok, rest).value;
            [tok] + rest == Tokens(v) + after && w == Meant(v)
    decreases |rest|, 1
  {
    hide DecodeFields, FieldTokens, MeantFields, DecodeItems, ItemTokens, MeantItems, PutAll, Tokens;
    var (w, after) := DecodeValue(tok, rest).value;
    match tok
    case StrToken(s) =>
      v := Str(s);
      LeafTokens(v);
    case AtomToken(text) =>
      v := Atom(text);
      LeafTokens(v);
    case OpenBrace =>
      var fs := FieldsWereWritten([], rest);
      v := Obj(fs);
      BranchTokens([], fs, after);
    case OpenBracket =>
      var items := ItemsWereWritten([], rest);
      v := Arr(items);
      BranchTokens(items, [], after);
      assert [] + MeantItems(items) == MeantItems(items);
  }

  lemma LeafTokens(v: Json)
    ensures v.Str? ==> Tokens(v) == [StrToken(v.s)]
    ensures v.Atom? ==> Tokens(v) == [AtomToken(v.text)]
  {
  }

  lemma BranchTokens(items: seq<Json>, fs: seq<Field>, after: seq<Token>)
    ensures Tokens(Arr(items)) + after == [OpenBracket] + (ItemTokens(items) + [CloseBracket] + after)
    ensures Tokens(Obj(fs)) + after == [OpenBrace] + (FieldTokens(fs) + [CloseBrace] + after)
  {
    hide ItemTokens, FieldTokens;
  }

  lemma ItemsCons(v: Json, more: seq<Json>, after: seq<Token>)
    ensures ItemTokens([v] + more) + [CloseBracket] + after == Tokens(v) + (ItemTokens(more) + [CloseBracket] + after)
    ensures MeantItems([v] + more) == [Meant(v)] + MeantItems(more)
  {
    assert ([v] + more)[1..] == more;
    hide Tokens, Meant;
  }

  lemma FieldsCons(key: string, v: Json, more: seq<Field>, after: seq<Token>)
    ensures FieldTokens([Field(key, v)] + more) + [CloseBrace] + after ==
              [StrToken(key)] + (Tokens(v) + (FieldTokens(more) + [CloseBrace] + after))
    ensures MeantFields([Field(key, v)] + more) == [Field(key, Meant(v))] + MeantFields(more)
  {
    assert ([Field(key, v)] + more)[1..] == more;
    hide Tokens, Meant;
  }

  lemma PutAllCons(fs: seq<Field>, f: Field, more: seq<Field>)
    ensures PutAll(fs, [f] + more) == PutAll(Put(fs, f), more)
  {
    assert ([f] + more)[1..] == more;
    hide Put;
  }

  lemma {:induction false} ItemsWereWritten(done: seq<Json>, rest: seq<Token>) returns (items: seq<Json>)
    requires DecodeItems(done, rest).Some?
    ensures var (w, after) := DecodeItems(done, rest).value;
            rest == ItemTokens(items) + [CloseBracket] + after && w == Arr(done + MeantItems(items))
    decreases |rest|, 0
  {
    var (w, after) := DecodeItems(done, rest).value;
    if rest[0].CloseBracket? {
      items := [];
      assert rest == [rest[0]] + rest[1..] && [] + [CloseBracket] == [CloseBracket];
      assert done + MeantItems([]) == done;
    } else {
      var (x, mid) := DecodeValue(rest[0], rest[1..]).value;
      var v := DecodedWasWritten(rest[0], rest[1..]);
      var more := ItemsWereWritten(done + [x], mid);
      items := [v] + more;
      ItemsCons(v, more, after);
      assert rest == [rest[0]] + rest[1..];
      assert done + ([x] + MeantItems(more)) == done + [x] + MeantItems(more);
      hide Tokens, ItemTokens, Meant, MeantItems, DecodeValue, DecodeItems;
    }
  }

  lemma {:induction false} FieldsWereWritten(done: seq<Field>, rest: seq<Token>) returns (fs: seq<Field>)
    requires DecodeFields(done, rest).Some?
    ensures var (w, after) := DecodeFields(done, rest).value;
            rest == FieldTokens(fs) + [CloseBrace] + after && w == Obj(PutAll(done, MeantFields(fs)))
    decreases |rest|, 0
  {
    var (w, after) := DecodeFields(done, rest).value;
    if rest[0].CloseBrace? {
      fs := [];
      assert rest == [rest[0]] + rest[1..] && [] + [CloseBrace] == [CloseBrace];
    } else {
      var (x, mid) := DecodeValue(rest[1], rest[2..]).value;
      var v := DecodedWasWritten(rest[1], rest[2..]);
      var more := FieldsWereWritten(Put(done, Field(rest[0].s, x)), mid);
      fs := [Field(rest[0].s, v)] + more;
      FieldsCons(rest[0].s, v, more, after);
      PutAllCons(done, Field(rest[0].s, x), MeantFields(more));
      assert rest == [rest[0]] + ([rest[1]] + rest[2..]);
      hide Tokens, FieldTokens, Meant, MeantFields, DecodeValue, DecodeFields, Put, PutAll;
    }
  }

  // ---- rewriting ----

  // A string may be rewritten knowing the keys down to it. An array's elements share its path.
  type Rewrite = (string, seq<string>) -> string

  function Walked(f: Rewrite, v: Json, path: seq<string>): Json
    decreases v
  {
    match v
    case Str(s) => Str(f(s, path))
    case Atom(_) => v
    case Arr(items) => Arr(WalkedItems(f, items, path))
    case Obj(fs) => Obj(WalkedFields(f, fs, path))
  }

  function WalkedItems(f: Rewrite, items: seq<Json>, path: seq<string>): (r: seq<Json>)
    ensures |r| == |items|
    decreases items
  {
    if |items| == 0 then []
    else WalkedItems(f, items[..|items| - 1], path) + [Walked(f, items[|items| - 1], path)]
  }

  function WalkedFields(f: Rewrite, fs: seq<Field>, path: seq<string>): (r: seq<Field>)
    ensures |r| == |fs| && forall i :: 0 <= i < |fs| ==> r[i].key == fs[i].key
    decreases fs
  {
    if |fs| == 0 then []
    else
      var last := fs[|fs| - 1];
      WalkedFields(f, fs[..|fs| - 1], path) + [Field(last.key, Walked(f, last.value, path + [last.key]))]
  }

  method Walk(f: Rewrite, v: Json, path: seq<string>) returns (r: Json)
    ensures r == Walked(f, v, path)
    decreases v
  {
    match v {
      case Str(s) => r := Str(f(s, path));
      case Atom(_) => r := v;
      case Arr(items) =>
        var t := items;
        for i := 0 to |items|
          invariant |t| == |items| && t[i..] == items[i..]
          invariant t[..i] == WalkedItems(f, items[..i], path)
        {
          assert t[i] == items[i] && items[..i + 1][..i] == items[..i];
          ghost var before := t;
          var w := Walk(f, t[i], path);
          t := t[i := w];
          assert t[..i + 1] == before[..i] + [w] && t[i + 1..] == before[i..][1..];
        }
        assert items[..|items|] == items && t[..|items|] == t;
        r := Arr(t);
      case Obj(fs) =>
        var t := fs;
        for i := 0 to |fs|
          invariant |t| == |fs| && t[i..] == fs[i..]
          invariant t[..i] == WalkedFields(f, fs[..i], path)
        {
          assert t[i] == fs[i] && fs[..i + 1][..i] == fs[..i];
          ghost var before := t;
          var w := Walk(f, t[i].value, path + [t[i].key]);
          t := t[i := Field(t[i].key, w)];
          assert t[..i + 1] == before[..i] + [Field(fs[i].key, w)] && t[i + 1..] == before[i..][1..];
        }
        assert fs[..|fs|] == fs && t[..|fs|] == t;
        r := Obj(t);
    }
  }

  // Every string in document order, with the keys down to it.
  function Leaves(v: Json, path: seq<string>): seq<(string, seq<string>)>
    decreases v
  {
    match v
    case Str(s) => [(s, path)]
    case Atom(_) => []
    case Arr(items) => ItemLeaves(items, path)
    case Obj(fs) => FieldLeaves(fs, path)
  }

  function ItemLeaves(items: seq<Json>, path: seq<string>): seq<(string, seq<string>)>
    decreases items
  {
    if |items| == 0 then [] else ItemLeaves(items[..|items| - 1], path) + Leaves(items[|items| - 1], path)
  }

  function FieldLeaves(fs: seq<Field>, path: seq<string>): seq<(string, seq<string>)>
    decreases fs
  {
    if |fs| == 0 then []
    else FieldLeaves(fs[..|fs| - 1], path) + Leaves(fs[|fs| - 1].value, path + [fs[|fs| - 1].key])
  }

  // The document with every string blanked: all a rewriting must leave alone.
  function Skeleton(v: Json): Json {
    Walked((_, _) => "", v, [])
  }

  function Rewritten(f: Rewrite, leaves: seq<(string, seq<string>)>): (r: seq<(string, seq<string>)>)
    ensures |r| == |leaves|
    ensures forall i :: 0 <= i < |leaves| ==> r[i] == (f(leaves[i].0, leaves[i].1), leaves[i].1)
  {
    seq(|leaves|, i requires 0 <= i < |leaves| => (f(leaves[i].0, leaves[i].1), leaves[i].1))
  }

  lemma RewrittenConcat(f: Rewrite, a: seq<(string, seq<string>)>, b: seq<(string, seq<string>)>)
    ensures Rewritten(f, a + b) == Rewritten(f, a) + Rewritten(f, b)
  {
  }

  // The strings of the walked document are those of the document, each rewritten under its
  // own path, none added, dropped or moved.
  lemma {:induction false} WalkRewritesLeaves(f: Rewrite, v: Json, path: seq<string>)
    ensures Leaves(Walked(f, v, path), path) == Rewritten(f, Leaves(v, path))
    decreases v, 1
  {
    match v
    case Arr(items) => ItemsRewrite(f, items, path);
    case Obj(fs) => FieldsRewrite(f, fs, path);
    case _ =>
  }

  lemma {:induction false} ItemsRewrite(f: Rewrite, items: seq<Json>, path: seq<string>)
    ensures ItemLeaves(WalkedItems(f, items, path), path) == Rewritten(f, ItemLeaves(items, path))
    decreases items, 0
  {
    if |items| > 0 {
      var front, last := items[..|items| - 1], items[|items| - 1];
      ItemsRewrite(f, front, path);
      WalkRewritesLeaves(f, last, path);
      RewrittenConcat(f, ItemLeaves(front, path), Leaves(last, path));
      assert WalkedItems(f, items, path)[..|front|] == WalkedItems(f, front, path);
    }
  }

  lemma {:induction false} FieldsRewrite(f: Rewrite, fs: seq<Field>, path: seq<string>)
    ensures FieldLeaves(WalkedFields(f, fs, path), path) == Rewritten(f, FieldLeaves(fs, path))
    decreases fs, 0
  {
    if |fs| > 0 {
      var front, last := fs[..|fs| - 1], fs[|fs| - 1];
      FieldsRewrite(f, front, path);
      WalkRewritesLeaves(f, last.value, path + [last.key]);
      RewrittenConcat(f, FieldLeaves(front, path), Leaves(last.value, path + [last.key]));
      assert WalkedFields(f, fs, path)[..|front|] == WalkedFields(f, front, path);
    }
  }

  // Two walks leave the second's strings, if the second does not look at them; so walking
  // changes no key, no order, no length and nothing that is not a string.
  lemma {:induction false} WalkTwice(f: Rewrite, g: Rewrite, v: Json, path: seq<string>, path': seq<string>)
    requires forall s, s', p, p' :: g(s, p) == g(s', p')
    ensures Walked(g, Walked(f, v, path), path') == Walked(g, v, path')
    decreases v, 1
  {
    match v
    case Str(s) => assert g(s, path') == g(f(s, path), path');
    case Arr(items) => ItemsTwice(f, g, items, path, path');
    case Obj(fs) => FieldsTwice(f, g, fs, path, path');
    case _ =>
  }

  lemma {:induction false} ItemsTwice(f: Rewrite, g: Rewrite, items: seq<Json>, path: seq<string>, path': seq<string>)
    requires forall s, s', p, p' :: g(s, p) == g(s', p')
    ensures WalkedItems(g, WalkedItems(f, items, path), path') == WalkedItems(g, items, path')
    decreases items, 0
  {
    if |items| > 0 {
      var front, last := items[..|items| - 1], items[|items| - 1];
      ItemsTwice(f, g, front, path, path');
      WalkTwice(f, g, last, path, path');
      assert WalkedItems(f, items, path)[..|front|] == WalkedItems(f, front, path);
    }
  }

  lemma {:induction false} FieldsTwice(f: Rewrite, g: Rewrite, fs: seq<Field>, path: seq<string>, path': seq<string>)
    requires forall s, s', p, p' :: g(s, p) == g(s', p')
    ensures WalkedFields(g, WalkedFields(f, fs, path), path') == WalkedFields(g, fs, path')
    decreases fs, 0
  {
    if |fs| > 0 {
      var front, last := fs[..|fs| - 1], fs[|fs| - 1];
      FieldsTwice(f, g, front, path, path');
      WalkTwice(f, g, last.value, path + [last.key], path' + [last.key]);
      assert WalkedFields(f, fs, path)[..|front|] == WalkedFields(f, front, path);
    }
  }

  lemma WalkKeepsSkeleton(f: Rewrite, v: Json, path: seq<string>)
    ensures Skeleton(Walked(f, v, path)) == Skeleton(v)
  {
    WalkTwice(f, (_, _) => "", v, path, []);
  }

  // ---- the whole document ----

  // One value and nothing else is walked and printed; anything else is not this code's to
  // rewrite, which is None.
  method Redact(tokens: seq<Token>, f: Rewrite) returns (out: Option<seq<Token>>)
    ensures out.Some? <==>
              exists v :: WellFormed(v) && |tokens| > 0 && DecodeValue(tokens[0], tokens[1..]) == Some((v, []))
    ensures out.Some? ==>
              var v := DecodeValue(tokens[0], tokens[1..]).value.0;
              |out.value| > 0 && DecodeValue(out.value[0], out.value[1..]) == Some((Walked(f, v, []), []))
    ensures out.Some? <==> exists v :: tokens == Tokens(v)
    ensures forall v :: tokens == Tokens(v) ==> out == Some(Tokens(Walked(f, Meant(v), [])))
  {
    out := None;
    WrittenIff(tokens);
    if |tokens| == 0 {
      return;
    }
    var doc := Decode(tokens[0], tokens[1..]);
    DecodedIsWellFormed(tokens[0], tokens[1..]);
    if doc.None? || |doc.value.1| > 0 {
      return;
    }
    var walked := Walk(f, doc.value.0, []);
    WalkStaysWellFormed(f, doc.value.0, []);
    PrintedDecodes(walked, []);
    assert Tokens(walked)[1..] + [] == Tokens(walked)[1..];
    out := Some(Tokens(walked));
  }

  lemma WrittenIff(tokens: seq<Token>)
    ensures forall v :: tokens == Tokens(v) ==>
              |tokens| > 0 && DecodeValue(tokens[0], tokens[1..]) == Some((Meant(v), []))
    ensures |tokens| > 0 ==>
              var r := DecodeValue(tokens[0], tokens[1..]);
              r.Some? && r.value.1 == [] ==> exists v :: tokens == Tokens(v)
  {
    forall v | tokens == Tokens(v)
      ensures |tokens| > 0 && DecodeValue(tokens[0], tokens[1..]) == Some((Meant(v), []))
    {
      WrittenDecodes(v, []);
      assert Tokens(v)[1..] + [] == Tokens(v)[1..];
    }
    if |tokens| > 0 && DecodeValue(tokens[0], tokens[1..]).Some? && DecodeValue(tokens[0], tokens[1..]).value.1 == [] {
      var v := DecodedWasWritten(tokens[0], tokens[1..]);
      assert tokens == [tokens[0]] + tokens[1..] && Tokens(v) + [] == Tokens(v);
    }
  }

  lemma {:induction false} WalkStaysWellFormed(f: Rewrite, v: Json, path: seq<string>)
    requires WellFormed(v)
    ensures WellFormed(Walked(f, v, path))
    decreases v, 1
  {
    match v
    case Arr(items) =>
      forall i | 0 <= i < |items| ensures WellFormed(WalkedItems(f, items, path)[i]) {
        WalkedItemAt(f, items, path, i);
        WalkStaysWellFormed(f, items[i], path);
      }
    case Obj(fs) =>
      forall i | 0 <= i < |fs| ensures WellFormed(WalkedFields(f, fs, path)[i].value) {
        WalkedFieldAt(f, fs, path, i);
        WalkStaysWellFormed(f, fs[i].value, path + [fs[i].key]);
      }
    case _ =>
  }

  lemma {:induction false} WalkedItemAt(f: Rewrite, items: seq<Json>, path: seq<string>, i: nat)
    requires i < |items|
    ensures WalkedItems(f, items, path)[i] == Walked(f, items[i], path)
  {
    if i < |items| - 1 { WalkedItemAt(f, items[..|items| - 1], path, i); }
  }

  lemma {:induction false} WalkedFieldAt(f: Rewrite, fs: seq<Field>, path: seq<string>, i: nat)
    requires i < |fs|
    ensures WalkedFields(f, fs, path)[i].value == Walked(f, fs[i].value, path + [fs[i].key])
  {
    if i < |fs| - 1 { WalkedFieldAt(f, fs[..|fs| - 1], path, i); }
  }
}
