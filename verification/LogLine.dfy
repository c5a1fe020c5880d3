// One line of the daemon's log, taken apart into a record.

module LogLine {
  import opened Basics
  import opened Text

  datatype Attr = Attr(key: string, value: string)

  // `time` is None where the source has the zero time.
  datatype Record = Record(time: Option<int>, level: string, msg: string, attrs: seq<Attr>, raw: string)

  // The library calls: reading a timestamp, deciding which values are written as they are,
  // writing a quoted string, and decoding the quoted string a text starts with, if it does,
  // along with its length there.
  datatype Library = Library(
    parseTime: string -> Option<int>,
    plain: string -> bool,
    quote: string -> string,
    unquote: string -> Option<(string, nat)>)

  // A quoted prefix is a prefix.
  ghost predicate Prefixes(lib: Library) {
    forall s: string :: lib.unquote(s).Some? ==> lib.unquote(s).value.1 <= |s|
  }

  // Quoting is undone by decoding, whatever follows.
  ghost predicate Undone(lib: Library, v: string) {
    && lib.quote(v) != "" && lib.quote(v)[0] == '"'
    && forall rest: string :: lib.unquote(lib.quote(v) + rest) == Some((v, |lib.quote(v)|))
  }

  const UNPARSED_KEY := "logread.unparsed"
  const OVERSIZED_KEY := "logread.oversized"
  const LIMIT_KEY := "limit"
  const OVERSIZED_MSG := "log line too long to read; skipped"
  const MAX_LINE: nat := 4_194_304

  // Where `c` first stands in `s`, or -1.
  function IndexOf(s: string, c: char): (k: int)
    ensures -1 <= k < |s|
    ensures k == -1 <==> c !in s
    ensures k >= 0 ==> s[k] == c && c !in s[..k]
  {
    if |s| == 0 then -1
    else if s[0] == c then 0
    else
      var k := IndexOf(s[1..], c);
      assert s == [s[0]] + s[1..];
      if k == -1 then -1
      else
        assert s[..k + 1] == [s[0]] + s[1..][..k];
        k + 1
  }

  function TrimBlanks(s: string): (t: string)
    ensures |t| <= |s|
  {
    if |s| > 0 && s[0] == ' ' then TrimBlanks(s[1..]) else s
  }

  // ---- pairs ----

  datatype Pair = NoPair | Pair(key: string, value: string, rest: string)

  predicate PlainKey(key: string) {
    ' ' !in key && '"' !in key && '=' !in key
  }

  function ReadValue(lib: Library, key: string, v: string): (p: Pair)
    requires Prefixes(lib)
    ensures p.Pair? && p.key == key && |p.rest| <= |v|
  {
    if |v| > 0 && v[0] == '"' then
      match lib.unquote(v)
      case Some((value, n)) => Pair(key, value, v[n..])
      case None => Pair(key, v, "")
    else
      var end := IndexOf(v, ' ');
      if end < 0 then Pair(key, v, "") else Pair(key, v[..end], v[end..])
  }

  function NextPair(lib: Library, s0: string): (p: Pair)
    requires Prefixes(lib)
    ensures p.Pair? ==> |p.rest| < |s0|
  {
    var s := TrimBlanks(s0);
    var eq := IndexOf(s, '=');
    if eq < 0 then NoPair
    else
      var key, v := s[..eq], s[eq + 1..];
      if ' ' in key || '"' in key then NoPair else ReadValue(lib, key, v)
  }

  // All the pairs a line starts with, and what is left of it.
  function Scan(lib: Library, s: string): (seq<Attr>, string)
    requires Prefixes(lib)
    decreases |s|
  {
    match NextPair(lib, s)
    case NoPair => ([], s)
    case Pair(key, value, rest) =>
      var (pairs, left) := Scan(lib, rest);
      ([Attr(key, value)] + pairs, left)
  }

  // ---- the record the pairs make ----

  predicate Reserved(key: string) {
    key == "time" || key == "level" || key == "msg"
  }

  // The value of the last pair with this key.
  function Last(pairs: seq<Attr>, key: string): Option<string> {
    if |pairs| == 0 then None
    else if pairs[|pairs| - 1].key == key then Some(pairs[|pairs| - 1].value)
    else Last(pairs[..|pairs| - 1], key)
  }

  // The last time that reads as one.
  function TimeOf(lib: Library, pairs: seq<Attr>): Option<int> {
    if |pairs| == 0 then None
    else
      var p := pairs[|pairs| - 1];
      if p.key == "time" && lib.parseTime(p.value).Some? then lib.parseTime(p.value)
      else TimeOf(lib, pairs[..|pairs| - 1])
  }

  function Others(pairs: seq<Attr>): seq<Attr> {
    if |pairs| == 0 then []
    else if Reserved(pairs[|pairs| - 1].key) then Others(pairs[..|pairs| - 1])
    else Others(pairs[..|pairs| - 1]) + [pairs[|pairs| - 1]]
  }

  function OrEmpty(v: Option<string>): string {
    if v.Some? then v.value else ""
  }

  function Built(lib: Library, line: string, pairs: seq<Attr>, left: string): Record {
    var msg, attrs := Last(pairs, "msg"), Others(pairs);
    var understood := msg.Some? || |attrs| > 0;
    Record(
      TimeOf(lib, pairs),
      OrEmpty(Last(pairs, "level")),
      if understood then OrEmpty(msg) else Trim(line),
      if understood && Trim(left) != "" then attrs + [Attr(UNPARSED_KEY, Trim(left))] else attrs,
      line)
  }

  function Parsed(lib: Library, line: string): Record
    requires Prefixes(lib)
  {
    var (pairs, left) := Scan(lib, line);
    Built(lib, line, pairs, left)
  }

  // Reading `line` comes to reading `pairs` and then `rest`.
  predicate Reads(lib: Library, line: string, pairs: seq<Attr>, rest: string)
    requires Prefixes(lib)
  {
    Scan(lib, line) == (pairs + Scan(lib, rest).0, Scan(lib, rest).1)
  }

  lemma ReadsFirst(lib: Library, line: string)
    requires Prefixes(lib)
    ensures Reads(lib, line, [], line)
  {
    assert [] + Scan(lib, line).0 == Scan(lib, line).0;
  }

  lemma ReadsNext(lib: Library, line: string, pairs: seq<Attr>, rest: string)
    requires Prefixes(lib) && Reads(lib, line, pairs, rest)
    ensures var p := NextPair(lib, rest);
            match p
            case NoPair => Scan(lib, line) == (pairs, rest)
            case Pair(key, value, rest') => Reads(lib, line, pairs + [Attr(key, value)], rest')
  {
    hide NextPair;
    var p := NextPair(lib, rest);
    match p
    case NoPair => assert pairs + [] == pairs;
    case Pair(key, value, rest') =>
      var more := Scan(lib, rest').0;
      assert pairs + ([Attr(key, value)] + more) == (pairs + [Attr(key, value)]) + more;
  }

  method ParseLine(lib: Library, line: string) returns (r: Record)
    requires Prefixes(lib)
    ensures r == Parsed(lib, line)
  {
    hide Scan, Reads, NextPair, Trim;
    var time, level, msg, attrs := None, "", "", [];
    var sawMsg := false;
    var rest := line;
    ghost var pairs: seq<Attr> := [];
    ReadsFirst(lib, line);
    var p := NextPair(lib, rest);
    while p.Pair?
      invariant p == NextPair(lib, rest)
      invariant Reads(lib, line, pairs, rest)
      invariant time == TimeOf(lib, pairs)
      invariant level == OrEmpty(Last(pairs, "level"))
      invariant sawMsg == Last(pairs, "msg").Some? && msg == OrEmpty(Last(pairs, "msg"))
      invariant attrs == Others(pairs)
      decreases |rest|
    {
      ghost var now := Attr(p.key, p.value);
      assert (pairs + [now])[..|pairs|] == pairs;
      ReadsNext(lib, line, pairs, rest);
      rest := p.rest;
      pairs := pairs + [now];
      if p.key == "time" {
        var t := lib.parseTime(p.value);
        if t.Some? {
          time := t;
        }
      } else if p.key == "level" {
        level := p.value;
      } else if p.key == "msg" {
        msg, sawMsg := p.value, true;
      } else {
        attrs := attrs + [Attr(p.key, p.value)];
      }
      p := NextPair(lib, rest);
    }
    ReadsNext(lib, line, pairs, rest);
    var unread := Trim(rest);
    var understood := sawMsg || |attrs| > 0;
    if unread != "" && understood {
      attrs := attrs + [Attr(UNPARSED_KEY, unread)];
    }
    if !understood {
      msg := Trim(line);
    }
    r := Record(time, level, msg, attrs, line);
  }

  // ---- writing a line, and reading it back ----

  // A value that can be written as it is and read back.
  predicate Bare(v: string) {
    ' ' !in v && '"' !in v
  }

  function Rendered(lib: Library, a: Attr): string {
    a.key + "=" + if lib.plain(a.value) then a.value else lib.quote(a.value)
  }

  function Line(lib: Library, pairs: seq<Attr>): string {
    if |pairs| == 0 then ""
    else if |pairs| == 1 then Rendered(lib, pairs[0])
    else Rendered(lib, pairs[0]) + " " + Line(lib, pairs[1..])
  }

  // The writer's decision is sound for a value: bare only if it reads back bare, and quoted
  // only if quoting it is undone.
  ghost predicate Sound(lib: Library, v: string) {
    if lib.plain(v) then Bare(v) else Undone(lib, v)
  }

  ghost predicate Writable(lib: Library, pairs: seq<Attr>) {
    forall a <- pairs :: PlainKey(a.key) && Sound(lib, a.value)
  }

  lemma FirstAt(a: string, c: char, b: string)
    requires c !in a
    ensures IndexOf(a + [c] + b, c) == |a|
  {
    var s := a + [c] + b;
    assert s[|a|] == c;
    forall n | 0 <= n < |a| ensures s[n] != c {
      assert s[n] == a[n] && a[n] in a;
    }
    forall n | |a| < n <= |s| ensures c in s[..n] {
      assert s[..n][|a|] == c;
    }
  }

  // A key with no blank in it ends at its '='.
  lemma KeyReads(key: string, v: string)
    requires PlainKey(key)
    ensures var s := key + "=" + v;
            TrimBlanks(s) == s && IndexOf(s, '=') == |key| && s[..|key|] == key && s[|key| + 1..] == v
  {
    var s := key + "=" + v;
    FirstAt(key, '=', v);
    assert s[0] == if |key| > 0 then key[0] else '=';
    assert |key| > 0 ==> key[0] in key;
  }

  // A bare value ends at the blank after it, or with the line.
  lemma BareReads(v: string, tail: string)
    requires Bare(v)
    requires tail == "" || tail[0] == ' '
    ensures var s, end := v + tail, IndexOf(v + tail, ' ');
            && (|s| > 0 ==> s[0] != '"')
            && (if end < 0 then s == v && tail == "" else s[..end] == v && s[end..] == tail)
  {
    assert |v| > 0 ==> v[0] in v;
    if tail == "" {
      assert v + tail == v;
    } else {
      FirstAt(v, ' ', tail[1..]);
      assert v + [' '] + tail[1..] == v + tail;
    }
  }

  lemma PairReads(lib: Library, a: Attr, tail: string)
    requires Prefixes(lib)
    requires PlainKey(a.key) && Sound(lib, a.value)
    requires tail == "" || tail[0] == ' '
    ensures NextPair(lib, Rendered(lib, a) + tail) == Pair(a.key, a.value, tail)
  {
    hide IndexOf, TrimBlanks, Prefixes;
    var text := if lib.plain(a.value) then a.value else lib.quote(a.value);
    assert Rendered(lib, a) + tail == a.key + "=" + (text + tail);
    KeyReads(a.key, text + tail);
    if lib.plain(a.value) {
      BareReads(text, tail);
    } else {
      assert (text + tail)[|text|..] == tail && (text + tail)[0] == '"';
    }
  }

  lemma BlankAhead(lib: Library, s: string)
    requires Prefixes(lib) && NextPair(lib, s).Pair?
    ensures Scan(lib, " " + s) == Scan(lib, s)
  {
    assert TrimBlanks(" " + s) == TrimBlanks(s);
    assert NextPair(lib, " " + s) == NextPair(lib, s);
  }

  // Whatever pairs are written, the same pairs are read, in order, with nothing left over.
  lemma {:induction false} LineReads(lib: Library, pairs: seq<Attr>)
    requires Prefixes(lib) && Writable(lib, pairs)
    ensures Scan(lib, Line(lib, pairs)) == (pairs, "")
    ensures |pairs| > 0 ==> NextPair(lib, Line(lib, pairs)).Pair?
  {
    hide Scan, NextPair, Rendered, PlainKey, Sound, Prefixes, Writable, Line;
    NothingReads(lib);
    if |pairs| > 0 {
      var a, rest := pairs[0], pairs[1..];
      FirstOfLine(lib, pairs);
      LineReads(lib, rest);
      var tail := if |rest| == 0 then "" else " " + Line(lib, rest);
      PairReads(lib, a, tail);
      if |rest| > 0 {
        BlankAhead(lib, Line(lib, rest));
      }
      OneMore(lib, Line(lib, pairs), a, tail);
      assert pairs == [a] + rest;
    }
  }

  lemma FirstOfLine(lib: Library, pairs: seq<Attr>)
    requires Writable(lib, pairs) && |pairs| > 0
    ensures PlainKey(pairs[0].key) && Sound(lib, pairs[0].value)
    ensures Writable(lib, pairs[1..])
    ensures Line(lib, pairs) ==
              Rendered(lib, pairs[0]) + if |pairs| == 1 then "" else " " + Line(lib, pairs[1..])
  {
    hide PlainKey, Sound, Rendered;
    RestIsWritable(lib, pairs);
    hide Writable;
    if |pairs| == 1 { assert pairs[1..] == []; }
  }

  lemma RestIsWritable(lib: Library, pairs: seq<Attr>)
    requires Writable(lib, pairs) && |pairs| > 0
    ensures PlainKey(pairs[0].key) && Sound(lib, pairs[0].value)
    ensures Writable(lib, pairs[1..])
  {
    hide PlainKey, Sound;
    assert pairs[0] in pairs;
    assert forall i :: 0 <= i < |pairs[1..]| ==> pairs[1..][i] == pairs[i + 1] && pairs[i + 1] in pairs;
  }

  lemma OneMore(lib: Library, s: string, a: Attr, tail: string)
    requires Prefixes(lib) && NextPair(lib, s) == Pair(a.key, a.value, tail)
    ensures Scan(lib, s) == ([a] + Scan(lib, tail).0, Scan(lib, tail).1)
  {
  }

  lemma NothingReads(lib: Library)
    requires Prefixes(lib)
    ensures Scan(lib, "") == ([], "") && Line(lib, []) == ""
  {
  }

  // ---- the record a written line makes ----

  ghost predicate Free(attrs: seq<Attr>) {
    forall a <- attrs :: !Reserved(a.key)
  }

  lemma {:induction false} FreeAttrsAreOthers(lib: Library, head: seq<Attr>, attrs: seq<Attr>)
    requires Free(attrs)
    ensures Last(head + attrs, "level") == Last(head, "level")
    ensures Last(head + attrs, "msg") == Last(head, "msg")
    ensures TimeOf(lib, head + attrs) == TimeOf(lib, head)
    ensures Others(head + attrs) == Others(head) + attrs
  {
    hide Last, Others, TimeOf, Reserved;
    if |attrs| == 0 {
      NoAttrs(head);
      assert head + attrs == head;
    } else {
      var n := |attrs| - 1;
      assert attrs[n] in attrs && forall a <- attrs[..n] :: a in attrs;
      FreeAttrsAreOthers(lib, head, attrs[..n]);
      FreeAttrIsOther(lib, head + attrs[..n], attrs[n]);
      assert head + attrs == head + attrs[..n] + [attrs[n]];
      assert Others(head) + attrs == Others(head) + attrs[..n] + [attrs[n]];
    }
  }

  lemma NoAttrs(head: seq<Attr>)
    ensures Others(head) + [] == Others(head)
  {
  }

  lemma FreeAttrIsOther(lib: Library, pairs: seq<Attr>, a: Attr)
    requires !Reserved(a.key)
    ensures Last(pairs + [a], "level") == Last(pairs, "level")
    ensures Last(pairs + [a], "msg") == Last(pairs, "msg")
    ensures TimeOf(lib, pairs + [a]) == TimeOf(lib, pairs)
    ensures Others(pairs + [a]) == Others(pairs) + [a]
  {
    assert (pairs + [a])[..|pairs|] == pairs;
  }

  // What the writer puts ahead of the attributes.
  function Head(stamp: Option<string>, level: string, msg: string): seq<Attr> {
    (if stamp.Some? then [Attr("time", stamp.value)] else []) + [Attr("level", level), Attr("msg", msg)]
  }

  lemma HeadIs(lib: Library, stamp: Option<string>, level: string, msg: string)
    ensures var h := Head(stamp, level, msg);
            && Last(h, "level") == Some(level) && Last(h, "msg") == Some(msg) && Others(h) == []
            && TimeOf(lib, h) == if stamp.Some? then lib.parseTime(stamp.value) else None
  {
    var h := Head(stamp, level, msg);
    var h' := h[..|h| - 1];
    var s := h'[..|h'| - 1];
    assert h[|h| - 1] == Attr("msg", msg) && h'[|h'| - 1] == Attr("level", level);
    assert s == if stamp.Some? then [Attr("time", stamp.value)] else [];
    assert Others(h) == Others(h') == Others(s) && TimeOf(lib, h) == TimeOf(lib, h') == TimeOf(lib, s);
    if stamp.Some? {
      assert s[..|s| - 1] == [] && Others([]) == [] && TimeOf(lib, []) == None;
      assert s[|s| - 1] == Attr("time", stamp.value);
    }
  }

  // A record the daemon writes is the record a reader gets, whatever its message, level and
  // attributes, empty ones included.
  lemma WrittenIsRead(lib: Library, stamp: Option<string>, level: string, msg: string, attrs: seq<Attr>)
    requires Prefixes(lib) && Free(attrs) && Writable(lib, Head(stamp, level, msg) + attrs)
    ensures var line := Line(lib, Head(stamp, level, msg) + attrs);
            Parsed(lib, line) ==
              Record(if stamp.Some? then lib.parseTime(stamp.value) else None, level, msg, attrs, line)
  {
    hide Prefixes, Writable, Free, Scan, Line, Last, Others, TimeOf;
    var h := Head(stamp, level, msg);
    LineReads(lib, h + attrs);
    HeadIs(lib, stamp, level, msg);
    FreeAttrsAreOthers(lib, h, attrs);
    assert [] + attrs == attrs;
    assert Trim("") == "";
    hide *;
  }

  // ---- the record in place of a line too long to hold ----

  function Digits(n: nat): string {
    if n < 10 then [('0' as int + n) as char] else Digits(n / 10) + [('0' as int + n % 10) as char]
  }

  // The number a text of digits reads as.
  function NumberOf(s: string): int {
    if |s| == 0 then 0 else 10 * NumberOf(s[..|s| - 1]) + (s[|s| - 1] as int - '0' as int)
  }

  // The length in the record reads as the length.
  lemma {:induction false} DigitsRead(n: nat)
    ensures NumberOf(Digits(n)) == n && forall c <- Digits(n) :: '0' <= c <= '9'
  {
    if n >= 10 {
      DigitsRead(n / 10);
      var front, last := Digits(n / 10), ('0' as int + n % 10) as char;
      assert (front + [last])[..|front|] == front;
    } else {
      assert Digits(n)[..0] == "";
    }
  }

  lemma {:induction false} DigitsAreBare(n: nat)
    ensures Bare(Digits(n))
  {
    if n >= 10 { DigitsAreBare(n / 10); }
  }

  function Oversized(lib: Library, n: nat): Record {
    Record(None, "WARN", OVERSIZED_MSG,
      [Attr(OVERSIZED_KEY, Digits(n)), Attr(LIMIT_KEY, Digits(MAX_LINE))],
      "level=WARN" + " " + ("msg=" + lib.quote(OVERSIZED_MSG) + " " +
        (OVERSIZED_KEY + "=" + Digits(n) + " " + ("limit=" + Digits(MAX_LINE)))))
  }

  lemma FourPairs(lib: Library, a: Attr, b: Attr, c: Attr, d: Attr)
    ensures Line(lib, [a, b, c, d]) ==
              Rendered(lib, a) + " " + (Rendered(lib, b) + " " + (Rendered(lib, c) + " " + Rendered(lib, d)))
  {
    hide Rendered;
    assert [a, b, c, d][1..] == [b, c, d] && [b, c, d][1..] == [c, d] && [c, d][1..] == [d];
    assert Line(lib, [c, d]) == Rendered(lib, c) + " " + Line(lib, [d]);
    assert Line(lib, [b, c, d]) == Rendered(lib, b) + " " + Line(lib, [c, d]);
  }

  lemma OversizedWords()
    ensures "level=WARN" == "level" + "=" + "WARN" && "msg=" == "msg" + "=" && "limit=" == LIMIT_KEY + "="
    ensures PlainKey("level") && PlainKey("msg") && PlainKey(LIMIT_KEY) && Bare("WARN")
    ensures !Reserved(LIMIT_KEY)
  {
  }

  lemma OversizedKey()
    ensures PlainKey(OVERSIZED_KEY) && !Reserved(OVERSIZED_KEY)
  {
  }

  lemma OversizedMsg()
    ensures !Bare(OVERSIZED_MSG)
  {
    assert OVERSIZED_MSG[3] == ' ';
  }

  // A writer that quotes just what it must.
  function Frugal(lib: Library): Library {
    lib.(plain := v => Bare(v))
  }

  // Reading does not ask how the writer decides.
  lemma {:induction false} ReadsTheSame(lib: Library, s: string)
    requires Prefixes(lib)
    ensures Prefixes(Frugal(lib)) && Scan(Frugal(lib), s) == Scan(lib, s)
    decreases |s|
  {
    var p := NextPair(lib, s);
    assert NextPair(Frugal(lib), s) == p;
    if p.Pair? { ReadsTheSame(lib, p.rest); }
  }

  lemma {:induction false} TimesTheSame(lib: Library, pairs: seq<Attr>)
    ensures TimeOf(Frugal(lib), pairs) == TimeOf(lib, pairs)
  {
    if |pairs| > 0 { TimesTheSame(lib, pairs[..|pairs| - 1]); }
  }

  lemma ParsedTheSame(lib: Library, line: string)
    requires Prefixes(lib)
    ensures Prefixes(Frugal(lib)) && Parsed(Frugal(lib), line) == Parsed(lib, line)
  {
    hide Prefixes, Last, Others, Trim, TimeOf;
    ReadsTheSame(lib, line);
    TimesTheSame(lib, Scan(lib, line).0);
    hide Scan;
  }

  lemma FrugalOversized(lib: Library, n: nat)
    requires Prefixes(lib) && Undone(lib, OVERSIZED_MSG)
    requires forall v :: lib.plain(v) == Bare(v)
    ensures Parsed(lib, Oversized(lib, n).raw) == Oversized(lib, n)
  {
    OversizedWords();
    OversizedKey();
    OversizedMsg();
    DigitsAreBare(n);
    DigitsAreBare(MAX_LINE);
    hide Digits, Bare, PlainKey, Undone, Parsed, Line, Reserved, Prefixes, OVERSIZED_MSG, OVERSIZED_KEY, LIMIT_KEY;
    var a, b := Attr("level", "WARN"), Attr("msg", OVERSIZED_MSG);
    var c, d := Attr(OVERSIZED_KEY, Digits(n)), Attr(LIMIT_KEY, Digits(MAX_LINE));
    FourPairs(lib, a, b, c, d);
    OversizedPairs(lib, n, a, b, c, d);
    WrittenIsRead(lib, None, "WARN", OVERSIZED_MSG, [c, d]);
  }

  // Its raw text is a line this very parser takes back to the same record.
  lemma OversizedIsRead(lib: Library, n: nat)
    requires Prefixes(lib) && Undone(lib, OVERSIZED_MSG)
    ensures Parsed(lib, Oversized(lib, n).raw) == Oversized(lib, n)
  {
    hide Digits, Parsed, Bare, OVERSIZED_MSG, OVERSIZED_KEY, LIMIT_KEY;
    ParsedTheSame(lib, Oversized(lib, n).raw);
    FrugalOversized(Frugal(lib), n);
  }

  lemma OversizedPairs(lib: Library, n: nat, a: Attr, b: Attr, c: Attr, d: Attr)
    requires a == Attr("level", "WARN") && b == Attr("msg", OVERSIZED_MSG)
    requires c == Attr(OVERSIZED_KEY, Digits(n)) && d == Attr(LIMIT_KEY, Digits(MAX_LINE))
    ensures Head(None, "WARN", OVERSIZED_MSG) + [c, d] == [a, b, c, d]
  {
  }
}
