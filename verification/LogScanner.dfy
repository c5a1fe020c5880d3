// The windowed reader against a line scanner, which takes one carriage return off every line.

module LogScanner {
  import opened Basics
  import opened Text
  import opened LogLine
  import opened LogReader

  predicate EndsInReturn(s: string) {
    |s| > 0 && s[|s| - 1] == '\r'
  }

  // A line as a read hands it over, one carriage return gone with its newline if it had one.
  datatype Handed = Handed(text: string, terminated: bool)

  function Tagged(content: string): seq<Handed> {
    var k := IndexOf(content, '\n');
    if k >= 0 then [Handed(TrimSuffix(content[..k], '\r'), true)] + Tagged(content[k + 1..])
    else if content == "" then []
    else [Handed(content, false)]
  }

  // What a scanner makes of the file: one carriage return off every line, the last included.
  function Scanned(content: string): seq<string> {
    var k := IndexOf(content, '\n');
    if k >= 0 then [TrimSuffix(content[..k], '\r')] + Scanned(content[k + 1..])
    else if content == "" then []
    else [TrimSuffix(content, '\r')]
  }

  function ScannerText(h: Handed): string {
    if h.terminated then h.text else TrimSuffix(h.text, '\r')
  }

  function Texts(hs: seq<Handed>): (r: seq<string>)
    ensures |r| == |hs| && forall i :: 0 <= i < |hs| ==> r[i] == hs[i].text
  {
    if |hs| == 0 then [] else [hs[0].text] + Texts(hs[1..])
  }

  function ScannerTexts(hs: seq<Handed>): (r: seq<string>)
    ensures |r| == |hs| && forall i :: 0 <= i < |hs| ==> r[i] == ScannerText(hs[i])
  {
    if |hs| == 0 then [] else [ScannerText(hs[0])] + ScannerTexts(hs[1..])
  }

  lemma SplitOnce(content: string, k: nat)
    requires IndexOf(content, '\n') == k
    ensures var first, rest := TrimSuffix(content[..k], '\r'), content[k + 1..];
            && Lines(content) == [first] + Lines(rest)
            && Scanned(content) == [first] + Scanned(rest)
            && Tagged(content) == [Handed(first, true)] + Tagged(rest)
  {
    hide TrimSuffix, IndexOf;
  }

  lemma TextsOf(h: Handed, hs: seq<Handed>)
    ensures Texts([h] + hs) == [h.text] + Texts(hs)
    ensures ScannerTexts([h] + hs) == [ScannerText(h)] + ScannerTexts(hs)
  {
    assert ([h] + hs)[1..] == hs;
  }

  // Both splits, in terms of the lines handed over.
  lemma {:induction false} Splits(content: string)
    ensures Lines(content) == Texts(Tagged(content))
  {
    var k := IndexOf(content, '\n');
    if k >= 0 {
      SplitOnce(content, k);
      Splits(content[k + 1..]);
      TextsOf(Handed(TrimSuffix(content[..k], '\r'), true), Tagged(content[k + 1..]));
      hide Lines, Scanned, Tagged, Texts, ScannerTexts, TrimSuffix;
    } else if content != "" {
      TextsOf(Handed(content, false), []);
      assert [Handed(content, false)] + [] == [Handed(content, false)];
      hide Texts, ScannerTexts, TrimSuffix;
    }
  }

  lemma {:induction false} ScannerSplits(content: string)
    ensures Scanned(content) == ScannerTexts(Tagged(content))
  {
    var k := IndexOf(content, '\n');
    if k >= 0 {
      SplitOnce(content, k);
      ScannerSplits(content[k + 1..]);
      TextsOf(Handed(TrimSuffix(content[..k], '\r'), true), Tagged(content[k + 1..]));
      hide Lines, Scanned, Tagged, Texts, ScannerTexts, TrimSuffix;
    } else if content != "" {
      TextsOf(Handed(content, false), []);
      assert [Handed(content, false)] + [] == [Handed(content, false)];
      hide Texts, ScannerTexts, TrimSuffix;
    }
  }

  // The record of a scanner's line. A line too long to hold is the same gap either way.
  function ScannedRecord(lib: Library, h: Handed): Option<Record>
    requires Prefixes(lib)
  {
    if |h.text| > MAX_LINE then Some(Oversized(lib, |h.text|))
    else if Trim(ScannerText(h)) == "" then None
    else Some(Parsed(lib, ScannerText(h)))
  }

  function OneRecord(r: Option<Record>, opt: Options): seq<Record> {
    if r.Some? && Kept(r.value, opt) then [r.value] else []
  }

  function ReaderRecords(lib: Library, hs: seq<Handed>, opt: Options): seq<Record>
    requires Prefixes(lib)
  {
    if |hs| == 0 then []
    else ReaderRecords(lib, hs[..|hs| - 1], opt) + OneRecord(LineRecord(lib, hs[|hs| - 1].text), opt)
  }

  function ScannerRecords(lib: Library, hs: seq<Handed>, opt: Options): seq<Record>
    requires Prefixes(lib)
  {
    if |hs| == 0 then []
    else ScannerRecords(lib, hs[..|hs| - 1], opt) + OneRecord(ScannedRecord(lib, hs[|hs| - 1]), opt)
  }

  lemma {:induction false} ReaderIs(lib: Library, lines: seq<string>, hs: seq<Handed>, opt: Options)
    requires Prefixes(lib) && |lines| == |hs| && forall i :: 0 <= i < |hs| ==> lines[i] == hs[i].text
    ensures Records(lib, lines, opt) == ReaderRecords(lib, hs, opt)
  {
    hide LineRecord, Kept;
    if |hs| > 0 {
      var n := |hs| - 1;
      ReaderIs(lib, lines[..n], hs[..n], opt);
      assert ReaderRecords(lib, hs[..n], opt) + [] == ReaderRecords(lib, hs[..n], opt);
    }
  }

  // A line on which the two part: it ends in two carriage returns and a newline, is within the
  // cap and not blank, and the query keeps one reading of it or the other.
  predicate Parts(lib: Library, h: Handed, opt: Options)
    requires Prefixes(lib)
  {
    && h.terminated && |h.text| <= MAX_LINE && EndsInReturn(h.text) && Trim(h.text) != ""
    && (Kept(Parsed(lib, h.text), opt) || Kept(Parsed(lib, TrimSuffix(h.text, '\r')), opt))
  }

  // ---- white space at the end ----

  lemma {:induction false} ReturnTrims(s: string)
    ensures Trim(s + "\r") == Trim(s)
  {
    if |s| > 0 && IsSpace(s[0]) {
      assert (s + "\r")[1..] == s[1..] + "\r";
      ReturnTrims(s[1..]);
    } else if |s| > 0 {
      assert (s + "\r")[..|s|] == s;
    } else {
      assert "" + "\r" == "\r" && "\r"[1..] == "";
    }
  }

  lemma EndingTrims(s: string)
    ensures Trim(TrimSuffix(s, '\r')) == Trim(s)
    ensures EndsInReturn(s) ==> s == TrimSuffix(s, '\r') + "\r"
  {
    if EndsInReturn(s) {
      var t := TrimSuffix(s, '\r');
      assert s == t + "\r";
      ReturnTrims(t);
    }
  }

  // ---- where no line parts them ----

  lemma OneAgrees(lib: Library, h: Handed, opt: Options)
    requires Prefixes(lib) && !Parts(lib, h, opt)
    ensures OneRecord(LineRecord(lib, h.text), opt) == OneRecord(ScannedRecord(lib, h), opt)
  {
    hide Parsed, Kept, Trim, Oversized;
    EndingTrims(h.text);
  }

  lemma {:induction false} NothingParts(lib: Library, hs: seq<Handed>, opt: Options)
    requires Prefixes(lib) && forall h <- hs :: !Parts(lib, h, opt)
    ensures ReaderRecords(lib, hs, opt) == ScannerRecords(lib, hs, opt)
  {
    hide Parts, LineRecord, ScannedRecord, OneRecord;
    if |hs| > 0 {
      var n := |hs| - 1;
      assert hs[n] in hs && forall h <- hs[..n] :: h in hs;
      NothingParts(lib, hs[..n], opt);
      OneAgrees(lib, hs[n], opt);
    }
  }

  // ---- one more carriage return ----

  // Two facts about the library: no timestamp ends in a carriage return, and one after a text
  // does not change the quoted string the text starts with, if it starts with one.
  ghost predicate EndBlind(lib: Library) {
    && (forall v: string :: EndsInReturn(v) ==> lib.parseTime(v) == None)
    && (forall s: string :: lib.unquote(s + "\r") == lib.unquote(s))
  }

  predicate OneMoreReturn(v: string, w: string) {
    EndsInReturn(v) && w == v + "\r"
  }

  lemma {:induction false} BlanksBlind(s: string)
    requires EndsInReturn(s)
    ensures OneMoreReturn(TrimBlanks(s), TrimBlanks(s + "\r"))
  {
    if s[0] == ' ' {
      assert (s + "\r")[1..] == s[1..] + "\r";
      BlanksBlind(s[1..]);
    }
  }

  lemma IndexBlind(s: string, c: char)
    requires c != '\r'
    ensures IndexOf(s + "\r", c) == IndexOf(s, c)
  {
    var k := IndexOf(s, c);
    if k >= 0 {
      FirstAt(s[..k], c, s[k + 1..] + "\r");
      assert s[..k] + [c] + (s[k + 1..] + "\r") == s + "\r";
    } else {
      assert c !in s + "\r";
    }
  }

  predicate SameButEnd(p: Pair, p': Pair, key: string) {
    && p.Pair? && p'.Pair? && p'.key == p.key == key
    && if p.rest == "" then OneMoreReturn(p.value, p'.value) && p'.rest == ""
       else p'.value == p.value && OneMoreReturn(p.rest, p'.rest)
  }

  // A pair read from a line that ends in a carriage return, and from the line with one more:
  // the same pair, or the same but for its value's end if it is the last.
  lemma PairBlind(lib: Library, s: string)
    requires Prefixes(lib) && EndBlind(lib) && EndsInReturn(s)
    ensures match NextPair(lib, s)
            case NoPair => NextPair(lib, s + "\r") == NoPair
            case Pair(key, _, _) => SameButEnd(NextPair(lib, s), NextPair(lib, s + "\r"), key)
  {
    hide TrimBlanks, IndexOf, EndBlind, Prefixes, ReadValue, SameButEnd;
    var t := TrimBlanks(s);
    BlanksBlind(s);
    IndexBlind(t, '=');
    var eq := IndexOf(t, '=');
    if eq < 0 {
      assert NextPair(lib, s) == NextPair(lib, s + "\r") == NoPair;
    } else {
      var key, v := t[..eq], t[eq + 1..];
      CutAt(t, eq);
      if ' ' in key || '"' in key {
        assert NextPair(lib, s) == NextPair(lib, s + "\r") == NoPair;
      } else {
        assert NextPair(lib, s) == ReadValue(lib, key, v);
        assert NextPair(lib, s + "\r") == ReadValue(lib, key, v + "\r");
        ValueBlind(lib, key, v);
      }
    }
  }

  lemma CutAt(t: string, eq: nat)
    requires EndsInReturn(t) && eq < |t| && t[eq] == '='
    ensures var t' := t + "\r";
            t'[..eq] == t[..eq] && t'[eq + 1..] == t[eq + 1..] + "\r" && EndsInReturn(t[eq + 1..])
  {
  }

  lemma ValueBlind(lib: Library, key: string, v: string)
    requires Prefixes(lib) && EndBlind(lib) && EndsInReturn(v)
    ensures SameButEnd(ReadValue(lib, key, v), ReadValue(lib, key, v + "\r"), key)
  {
    if v[0] == '"' {
      QuotedBlind(lib, key, v);
    } else {
      BareBlind(lib, key, v);
    }
  }

  lemma CutBlind(v: string, n: nat)
    requires EndsInReturn(v) && n < |v|
    ensures OneMoreReturn(v[n..], (v + "\r")[n..]) && (v + "\r")[..n] == v[..n]
  {
  }

  lemma QuotedBlind(lib: Library, key: string, v: string)
    requires Prefixes(lib) && EndBlind(lib) && EndsInReturn(v) && v[0] == '"'
    ensures SameButEnd(ReadValue(lib, key, v), ReadValue(lib, key, v + "\r"), key)
  {
    var u := v[..|v| - 1];
    assert u + "\r" == v;
    var q := lib.unquote(v);
    assert lib.unquote(v + "\r") == q == lib.unquote(u);
    if q.Some? {
      assert q.value.1 <= |u|;
      CutBlind(v, q.value.1);
    }
    hide EndBlind, IndexOf;
  }

  lemma BareBlind(lib: Library, key: string, v: string)
    requires Prefixes(lib) && EndsInReturn(v) && v[0] != '"'
    ensures SameButEnd(ReadValue(lib, key, v), ReadValue(lib, key, v + "\r"), key)
  {
    hide IndexOf, Prefixes;
    IndexBlind(v, ' ');
    var end := IndexOf(v, ' ');
    if end >= 0 { CutBlind(v, end); }
  }

  predicate Alike(p: seq<Attr>, q: seq<Attr>) {
    |p| == |q| && forall i :: 0 <= i < |p| ==>
      p[i].key == q[i].key && (p[i].value == q[i].value || OneMoreReturn(p[i].value, q[i].value))
  }

  lemma {:induction false} ScanBlind(lib: Library, s: string)
    requires Prefixes(lib) && EndBlind(lib) && EndsInReturn(s)
    ensures Alike(Scan(lib, s).0, Scan(lib, s + "\r").0)
    decreases |s|
  {
    hide NextPair, EndBlind, Prefixes;
    PairBlind(lib, s);
    var p := NextPair(lib, s);
    if p.Pair? {
      if p.rest == "" {
        NothingReads(lib);
      } else {
        ScanBlind(lib, p.rest);
      }
    }
  }

  lemma {:induction false} AlikeTimes(lib: Library, p: seq<Attr>, q: seq<Attr>)
    requires EndBlind(lib) && Alike(p, q)
    ensures TimeOf(lib, p) == TimeOf(lib, q)
  {
    if |p| > 0 {
      var n := |p| - 1;
      AlikeTimes(lib, p[..n], q[..n]);
      assert OneMoreReturn(p[n].value, q[n].value) ==> EndsInReturn(q[n].value);
    }
  }

  lemma {:induction false} AlikeLevels(p: seq<Attr>, q: seq<Attr>)
    requires Alike(p, q)
    ensures Trim(OrEmpty(Last(p, "level"))) == Trim(OrEmpty(Last(q, "level")))
  {
    hide Trim;
    if |p| > 0 {
      var n := |p| - 1;
      AlikeLevels(p[..n], q[..n]);
      ReturnTrims(p[n].value);
    }
  }

  // Past the first, carriage returns at the end of a line do not move it in or out of a query.
  lemma KeptBlind(lib: Library, s: string, opt: Options)
    requires Prefixes(lib) && EndBlind(lib) && EndsInReturn(s)
    ensures Kept(Parsed(lib, s), opt) <==> Kept(Parsed(lib, s + "\r"), opt)
  {
    hide Scan, EndBlind, Prefixes, Alike, Trim, Last, TimeOf, Others, EndsInReturn;
    ScanBlind(lib, s);
    var p, q := Scan(lib, s).0, Scan(lib, s + "\r").0;
    AlikeTimes(lib, p, q);
    AlikeLevels(p, q);
    ParsedTimes(lib, s);
    ParsedTimes(lib, s + "\r");
    hide Parsed, Kept, OrEmpty;
    KeptAlike(Parsed(lib, s), Parsed(lib, s + "\r"), opt);
  }

  lemma ParsedTimes(lib: Library, s: string)
    requires Prefixes(lib)
    ensures Parsed(lib, s).time == TimeOf(lib, Scan(lib, s).0)
    ensures Parsed(lib, s).level == OrEmpty(Last(Scan(lib, s).0, "level"))
    ensures Parsed(lib, s).raw == s
  {
    hide Scan, Prefixes, TimeOf, Last, Others, Trim, OrEmpty;
  }

  // The filter looks at the time, and at the level with its ends trimmed.
  lemma KeptAlike(r: Record, r': Record, opt: Options)
    requires r.time == r'.time && Trim(r.level) == Trim(r'.level)
    ensures Kept(r, opt) <==> Kept(r', opt)
  {
    hide Trim, Upper;
  }

  // ---- where some line parts them ----

  function Stem(s: string): string {
    if EndsInReturn(s) then Stem(s[..|s| - 1]) else s
  }

  function Returns(s: string): nat {
    if EndsInReturn(s) then Returns(s[..|s| - 1]) + 1 else 0
  }

  lemma {:induction false} KeptByStem(lib: Library, s: string, opt: Options)
    requires Prefixes(lib) && EndBlind(lib) && EndsInReturn(s)
    ensures Kept(Parsed(lib, s), opt) <==> Kept(Parsed(lib, Stem(s) + "\r"), opt)
  {
    hide Kept, Parsed, EndBlind, Prefixes;
    var t := s[..|s| - 1];
    assert s == t + "\r";
    if EndsInReturn(t) {
      KeptBlind(lib, t, opt);
      KeptByStem(lib, t, opt);
    }
  }

  // What the records of one stem weigh.
  function Weight(rs: seq<Record>, stem: string): nat {
    if |rs| == 0 then 0
    else
      var r := rs[|rs| - 1];
      Weight(rs[..|rs| - 1], stem) + if Stem(r.raw) == stem then 1 + Returns(r.raw) else 0
  }

  lemma WeightOfOne(r: Record, stem: string)
    ensures Weight([r], stem) == if Stem(r.raw) == stem then 1 + Returns(r.raw) else 0
    ensures Weight([], stem) == 0
  {
    assert [r][..0] == [];
  }

  lemma {:induction false} WeightConcat(a: seq<Record>, b: seq<Record>, stem: string)
    ensures Weight(a + b, stem) == Weight(a, stem) + Weight(b, stem)
  {
    if |b| == 0 {
      assert a + b == a;
    } else {
      DropLastOfConcat(a, b);
      WeightConcat(a, b[..|b| - 1], stem);
    }
  }

  // One line tips the scales of its stem to one side, always the same for that stem.
  lemma LineWeighs(lib: Library, h: Handed, opt: Options, stem: string)
    requires Prefixes(lib) && EndBlind(lib)
    ensures var reader, scanner := OneRecord(LineRecord(lib, h.text), opt), OneRecord(ScannedRecord(lib, h), opt);
            && (Kept(Parsed(lib, stem + "\r"), opt) ==> Weight(reader, stem) <= Weight(scanner, stem))
            && (!Kept(Parsed(lib, stem + "\r"), opt) ==> Weight(reader, stem) >= Weight(scanner, stem))
            && (Parts(lib, h, opt) && Stem(h.text) == stem ==> Weight(reader, stem) != Weight(scanner, stem))
  {
    hide Parsed, Kept, Trim, Weight, Stem, Returns, EndBlind, Prefixes, Oversized, LineRecord, ScannedRecord;
    if !Parts(lib, h, opt) {
      OneAgrees(lib, h, opt);
    } else {
      PartedRecords(lib, h, opt);
      PartedTexts(h.text);
      KeptByStem(lib, h.text, opt);
      WeightOfOne(Parsed(lib, h.text), stem);
      WeightOfOne(Parsed(lib, TrimSuffix(h.text, '\r')), stem);
      hide Parts, TrimSuffix;
    }
  }

  lemma PartedRecords(lib: Library, h: Handed, opt: Options)
    requires Prefixes(lib)
    ensures var t, s := h.text, TrimSuffix(h.text, '\r');
            Parts(lib, h, opt) ==>
            && EndsInReturn(t)
            && LineRecord(lib, t) == Some(Parsed(lib, s)) && Parsed(lib, s).raw == s
            && ScannedRecord(lib, h) == Some(Parsed(lib, t)) && Parsed(lib, t).raw == t
            && (Kept(Parsed(lib, t), opt) || Kept(Parsed(lib, s), opt))
  {
    hide Parsed, Kept, Trim, TrimSuffix, Prefixes, Oversized;
    if Parts(lib, h, opt) {
      EndingTrims(h.text);
      ParsedTimes(lib, h.text);
      ParsedTimes(lib, TrimSuffix(h.text, '\r'));
    }
  }

  lemma PartedTexts(t: string)
    requires EndsInReturn(t)
    ensures Stem(TrimSuffix(t, '\r')) == Stem(t) && Returns(t) == Returns(TrimSuffix(t, '\r')) + 1
  {
  }

  lemma {:induction false} LinesWeigh(lib: Library, hs: seq<Handed>, opt: Options, stem: string)
    requires Prefixes(lib) && EndBlind(lib)
    ensures var reader := Weight(ReaderRecords(lib, hs, opt), stem);
            var scanner := Weight(ScannerRecords(lib, hs, opt), stem);
            && (Kept(Parsed(lib, stem + "\r"), opt) ==> reader <= scanner)
            && (!Kept(Parsed(lib, stem + "\r"), opt) ==> reader >= scanner)
            && ((exists h <- hs :: Parts(lib, h, opt) && Stem(h.text) == stem) ==> reader != scanner)
  {
    hide Weight, Parts, LineRecord, ScannedRecord, OneRecord, Kept, Parsed, Stem, EndBlind, Prefixes;
    if |hs| > 0 {
      var n := |hs| - 1;
      var h := hs[n];
      LinesWeigh(lib, hs[..n], opt, stem);
      LineWeighs(lib, h, opt, stem);
      WeightConcat(ReaderRecords(lib, hs[..n], opt), OneRecord(LineRecord(lib, h.text), opt), stem);
      WeightConcat(ScannerRecords(lib, hs[..n], opt), OneRecord(ScannedRecord(lib, h), opt), stem);
      assert hs == hs[..n] + [h];
    }
  }

  // For every file and every query: the reader's records are a scanner's if and only if no line
  // parts them.
  lemma SameRecordsIff(lib: Library, content: string, opt: Options)
    requires Prefixes(lib) && EndBlind(lib)
    ensures Records(lib, Lines(content), opt) == ScannerRecords(lib, Tagged(content), opt) <==>
              forall h <- Tagged(content) :: !Parts(lib, h, opt)
  {
    var hs := Tagged(content);
    Splits(content);
    ScannerSplits(content);
    ReaderIs(lib, Lines(content), hs, opt);
    hide Parts, Lines, Tagged, Records, ReaderRecords, ScannerRecords, EndBlind, Prefixes;
    if forall h <- hs :: !Parts(lib, h, opt) {
      NothingParts(lib, hs, opt);
    } else {
      var h :| h in hs && Parts(lib, h, opt);
      LinesWeigh(lib, hs, opt, Stem(h.text));
    }
  }

  lemma OneLineFile(text: string)
    requires '\n' !in text
    ensures var line := TrimSuffix(text, '\r');
            Lines(text + "\n") == [line] && Tagged(text + "\n") == [Handed(line, true)]
  {
    FirstAt(text, '\n', "");
    assert text + ['\n'] + "" == text + "\n";
    assert (text + "\n")[..|text|] == text && (text + "\n")[|text| + 1..] == "";
    SplitOnce(text + "\n", |text|);
    LastLine("");
    assert Tagged("") == [];
    hide Lines, Tagged, TrimSuffix, IndexOf;
  }

  // A query that asks for nothing in particular keeps everything.
  const ALL: Options := Options("", None)

  lemma AllKept(r: Record)
    ensures Kept(r, ALL)
  {
    assert Trim("") == "";
  }

  lemma OneLineRecords(lib: Library, text: string)
    requires Prefixes(lib) && '\n' !in text
    ensures var h := Handed(TrimSuffix(text, '\r'), true);
            && Records(lib, Lines(text + "\n"), ALL) == OneRecord(LineRecord(lib, h.text), ALL)
            && ScannerRecords(lib, Tagged(text + "\n"), ALL) == OneRecord(ScannedRecord(lib, h), ALL)
  {
    hide LineRecord, ScannedRecord, Kept, Lines, Tagged, TrimSuffix, Prefixes;
    OneLineFile(text);
    var h := Handed(TrimSuffix(text, '\r'), true);
    assert [h.text][..0] == [] && [h][..0] == [];
  }

  // Ending in two is not enough: a blank line that does so parts nothing. Any other line within
  // the cap does: the reader's record has one carriage return less than the scanner's.
  lemma TwoReturns(lib: Library, x: string)
    requires Prefixes(lib) && '\n' !in x && |x| < MAX_LINE && !EndsInReturn(x)
    ensures var reader := Records(lib, Lines(x + "\r\r\n"), ALL);
            var scanner := ScannerRecords(lib, Tagged(x + "\r\r\n"), ALL);
            if Trim(x) == "" then reader == [] == scanner
            else reader == [Parsed(lib, x)] != [Parsed(lib, x + "\r")] == scanner
  {
    hide Parsed, Kept, Trim, Lines, Tagged, Records, ScannerRecords, Prefixes, Oversized;
    var text := x + "\r\r";
    assert text + "\n" == x + "\r\r\n" && TrimSuffix(text, '\r') == x + "\r" && TrimSuffix(x + "\r", '\r') == x;
    OneLineRecords(lib, text);
    ReturnTrims(x);
    AllKept(Parsed(lib, x));
    AllKept(Parsed(lib, x + "\r"));
    ParsedTimes(lib, x);
    ParsedTimes(lib, x + "\r");
  }
}
