// Reading a log file through a window, against splitting it whole.

module LogReader {
  import opened Basics
  import opened Text
  import opened LogLine

  // ---- the whole file, split ----

  function TrimSuffix(s: string, c: char): string {
    if |s| > 0 && s[|s| - 1] == c then s[..|s| - 1] else s
  }

  // The lines of `content`: each ends at a newline, a carriage return before it goes with it,
  // and a last line without one counts if it holds anything.
  function Lines(content: string): seq<string> {
    var k := IndexOf(content, '\n');
    if k >= 0 then [TrimSuffix(content[..k], '\r')] + Lines(content[k + 1..])
    else if content == "" then []
    else [content]
  }

  datatype Options = Options(minLevel: string, since: Option<int>)

  function Severity(level: string): int {
    var l := Upper(Trim(level));
    if l == "DEBUG" then 0
    else if l == "WARN" || l == "WARNING" then 2
    else if l == "ERROR" then 3
    else 1
  }

  predicate Known(level: string) {
    Upper(Trim(level)) in ["DEBUG", "INFO", "WARN", "WARNING", "ERROR"]
  }

  function Floor(opt: Options): int {
    if Trim(opt.minLevel) == "" then -1 else Severity(opt.minLevel)
  }

  // What a query lets through: everything but a known level below its floor and a known time
  // before its start.
  predicate Kept(r: Record, opt: Options) {
    && !(Known(r.level) && Severity(r.level) < Floor(opt))
    && !(opt.since.Some? && r.time.Some? && r.time.value < opt.since.value)
  }

  function LineRecord(lib: Library, line: string): Option<Record>
    requires Prefixes(lib)
  {
    if |line| > MAX_LINE then Some(Oversized(lib, |line|))
    else
      var s := TrimSuffix(line, '\r');
      if Trim(s) == "" then None else Some(Parsed(lib, s))
  }

  // The records of whole lines, each on its own, in order.
  function Records(lib: Library, lines: seq<string>, opt: Options): seq<Record>
    requires Prefixes(lib)
  {
    if |lines| == 0 then []
    else
      var before := Records(lib, lines[..|lines| - 1], opt);
      match LineRecord(lib, lines[|lines| - 1])
      case Some(r) => if Kept(r, opt) then before + [r] else before
      case None => before
  }

  // What one read through a window returns: a line or part of one, what follows it, and whether
  // the file was at its end.
  datatype Piece = Piece(frag: string, isPrefix: bool, rest: string, end: bool)

  // ---- a line seen so far ----

  // `seen` is the start of a line that goes on with `rest`; if it stops at a carriage return,
  // another one follows.
  predicate Partial(seen: string, rest: string) {
    '\n' !in seen && (|seen| > 0 && seen[|seen| - 1] == '\r' ==> |rest| > 0 && rest[0] == '\r')
  }

  lemma LinesNext(content: string)
    ensures var k := IndexOf(content, '\n');
            k >= 0 ==> Lines(content) == [TrimSuffix(content[..k], '\r')] + Lines(content[k + 1..])
  {
  }

  lemma LastLine(a: string)
    requires '\n' !in a
    ensures Lines(a) == if a == "" then [] else [a]
  {
  }

  lemma TrimAfter(seen: string, s: string)
    requires |s| == 0 ==> seen == "" || seen[|seen| - 1] != '\r'
    ensures TrimSuffix(seen + s, '\r') == seen + TrimSuffix(s, '\r')
  {
    if |s| > 0 {
      assert (seen + s)[..|seen + s| - 1] == seen + s[..|s| - 1];
    } else {
      assert seen + s == seen;
    }
  }

  // What a piece of `rest` does to the lines of `seen + rest`: it makes `seen` longer, or ends
  // its line, or ends the file.
  predicate Cuts(seen: string, rest: string, p: Piece) {
    if p.isPrefix then
      !p.end && Partial(seen + p.frag, p.rest) && seen + rest == (seen + p.frag) + p.rest && |p.rest| < |rest|
    else if p.end then
      p.frag == "" && p.rest == "" && Lines(seen + rest) == (if seen == "" then [] else [seen])
    else
      Lines(seen + rest) == [seen + p.frag] + Lines(p.rest) && |p.rest| < |rest|
  }

  lemma LastPiece(seen: string, rest: string, k: nat)
    requires Partial(seen, rest) && k < |rest| && rest[k] == '\n' && '\n' !in rest[..k]
    ensures Cuts(seen, rest, Piece(TrimSuffix(rest[..k], '\r'), false, rest[k + 1..], false))
  {
    var a, b := seen + rest[..k], rest[k + 1..];
    FirstAt(a, '\n', b);
    assert a + ['\n'] + b == seen + rest;
    assert (seen + rest)[..|a|] == a && (seen + rest)[|a| + 1..] == b;
    LinesNext(seen + rest);
    TrimAfter(seen, rest[..k]);
    hide Lines, IndexOf;
  }

  lemma FullPiece(seen: string, rest: string, size: nat)
    requires size >= 2 && Partial(seen, rest) && |rest| >= size && '\n' !in rest[..size]
    ensures var frag := TrimSuffix(rest[..size], '\r');
            |frag| <= |rest| && Cuts(seen, rest, Piece(frag, true, rest[|frag|..], false))
  {
    var frag := TrimSuffix(rest[..size], '\r');
    assert frag == rest[..|frag|];
    assert '\n' !in frag by {
      assert forall c <- frag :: c in rest[..size];
    }
  }

  lemma RestOfFile(seen: string, rest: string)
    requires Partial(seen, rest) && '\n' !in rest
    ensures Cuts(seen, rest, if rest == "" then Piece("", false, "", true) else Piece(rest, false, "", false))
  {
    LastLine(seen + rest);
    LastLine("");
    assert [seen + rest] + [] == [seen + rest];
    if rest == "" { assert seen + rest == seen; }
    hide Lines;
  }

  lemma StartOfStart(s: string, n: nat, k: nat)
    requires k <= n <= |s|
    ensures s[..n][..k] == s[..k] && s[..|s|] == s && (k < n ==> s[..n][k] == s[k])
  {
  }

  // One read through a window of `size` bytes: the rest of the line if it fits, else as much of
  // it as does; a carriage return that would end a partial piece is left for the next read, in
  // case a newline follows it. Every read cuts the line it is in, and partially only where the
  // line does not fit.
  method ReadLine(rest: string, size: nat, ghost seen: string) returns (p: Piece)
    requires size >= 2 && Partial(seen, rest)
    ensures Cuts(seen, rest, p)
    ensures |p.frag| <= size && (p.isPrefix ==> |rest| >= size && '\n' !in rest[..size])
  {
    hide IndexOf, Partial, Cuts, Lines;
    var n := Min(size, |rest|);
    var window := rest[..n];
    var k := IndexOf(window, '\n');
    if k >= 0 {
      StartOfStart(rest, n, k);
      LastPiece(seen, rest, k);
      return Piece(TrimSuffix(window[..k], '\r'), false, rest[k + 1..], false);
    }
    StartOfStart(rest, |rest|, n);
    if |rest| >= size {
      FullPiece(seen, rest, size);
      var frag := TrimSuffix(window, '\r');
      return Piece(frag, true, rest[|frag|..], false);
    }
    RestOfFile(seen, rest);
    p := if rest == "" then Piece("", false, "", true) else Piece(rest, false, "", false);
  }

  // ---- the reader ----

  // The part of a line that is kept: all of it while it fits the cap, and past the cap
  // nothing but its length.
  predicate Holds(seen: string, line: string, dropped: nat) {
    if |seen| > MAX_LINE then line == "" && dropped == |seen| else line == seen && dropped == 0
  }

  method Take(line: string, dropped: nat, frag: string, ghost seen: string) returns (line': string, dropped': nat)
    requires Holds(seen, line, dropped)
    ensures Holds(seen + frag, line', dropped')
  {
    if dropped > 0 {
      line', dropped' := line, dropped + |frag|;
    } else if |line| + |frag| > MAX_LINE {
      line', dropped' := "", |line| + |frag|;
    } else {
      line', dropped' := line + frag, 0;
    }
  }

  method Emit(lib: Library, line: string, dropped: nat, ghost seen: string, opt: Options, before: seq<Record>)
    returns (out: seq<Record>)
    requires Prefixes(lib) && Holds(seen, line, dropped)
    ensures out == match LineRecord(lib, seen)
                   case Some(r) => if Kept(r, opt) then before + [r] else before
                   case None => before
  {
    hide Kept, Parsed, Oversized, Trim, TrimSuffix;
    out := before;
    if dropped > 0 {
      var r := Oversized(lib, dropped);
      if Kept(r, opt) {
        out := out + [r];
      }
    } else {
      var s := TrimSuffix(line, '\r');
      if Trim(s) != "" {
        var r := ParseLine(lib, s);
        if Kept(r, opt) {
          out := out + [r];
        }
      }
    }
  }

  // Whatever window the file is read through, the records are those of its lines taken one by
  // one: none lost after a line too long, the last one not lost without a newline, and never
  // more than the cap in hand.
  method ReadFile(lib: Library, content: string, size: nat, opt: Options) returns (out: seq<Record>, ghost held: nat)
    requires Prefixes(lib) && size >= 2
    ensures out == Records(lib, Lines(content), opt)
    ensures held <= MAX_LINE
  {
    hide Lines, Records, LineRecord, Prefixes, Kept, Holds, Partial;
    out, held := [], 0;
    var rest, line, dropped := content, "", 0;
    ghost var seen, done, pending := "", [], Lines(content);
    var end := false;
    NothingHeld(lib, opt);
    assert "" + content == content && [] + pending == pending;
    while !end
      invariant Lines(content) == done + pending && pending == if end then [] else Lines(seen + rest)
      invariant out == Records(lib, done, opt)
      invariant Partial(seen, rest) && Holds(seen, line, dropped)
      invariant held <= MAX_LINE
      decreases !end, |rest|
    {
      var p := ReadLine(rest, size, seen);
      line, dropped := Take(line, dropped, p.frag, seen);
      ghost var whole := seen + p.frag;
      HeldFits(whole, line, dropped);
      held := if |line| > held then |line| else held;
      assert p.end ==> whole == seen;
      if p.isPrefix {
        assert seen + rest == whole + p.rest;
        rest, seen := p.rest, whole;
        continue;
      }
      out := Emit(lib, line, dropped, whole, opt, out);
      ghost var left := if p.end then [] else Lines(p.rest);
      if !p.end || seen != "" {
        assert pending == [whole] + left;
        AppendIsAssociative(done, [whole], left);
        RecordsNext(lib, done, whole, opt);
        done := done + [whole];
      }
      pending := left;
      rest, end := p.rest, p.end;
      line, dropped, seen := "", 0, "";
      assert "" + rest == rest;
    }
    assert done + [] == done;
  }

  lemma RecordsNext(lib: Library, done: seq<string>, line: string, opt: Options)
    requires Prefixes(lib)
    ensures Records(lib, done + [line], opt) ==
              match LineRecord(lib, line)
              case Some(r) => if Kept(r, opt) then Records(lib, done, opt) + [r] else Records(lib, done, opt)
              case None => Records(lib, done, opt)
  {
    hide LineRecord, Kept;
    assert (done + [line])[..|done|] == done;
  }

  lemma NothingHeld(lib: Library, opt: Options)
    requires Prefixes(lib)
    ensures Holds("", "", 0) && LineRecord(lib, "") == None && Records(lib, [], opt) == []
    ensures forall rest :: Partial("", rest)
  {
  }

  lemma HeldFits(seen: string, line: string, dropped: nat)
    requires Holds(seen, line, dropped)
    ensures |line| <= MAX_LINE
  {
  }

  // The levels a query for `floor` hides, by name. A level no one knows is never hidden, and a
  // floor no one knows stands for the ordinary one.
  predicate Hidden(level: string, floor: string) {
    var l, f := Upper(Trim(level)), Upper(Trim(floor));
    if Trim(floor) == "" || f == "DEBUG" then false
    else if f == "ERROR" then l == "DEBUG" || l == "INFO" || l == "WARN" || l == "WARNING"
    else if f == "WARN" || f == "WARNING" then l == "DEBUG" || l == "INFO"
    else l == "DEBUG"
  }

  predicate TooOld(r: Record, since: Option<int>) {
    match (since, r.time)
    case (Some(from), Some(at)) => at < from
    case _ => false
  }

  lemma KeptIff(r: Record, opt: Options)
    ensures Kept(r, opt) <==> !Hidden(r.level, opt.minLevel) && !TooOld(r, opt.since)
  {
    hide Trim, Upper;
  }

  // A query returns exactly the records of the file's lines whose level it does not hide and
  // that are not too old for it.
  lemma {:induction false} QueryReturns(lib: Library, lines: seq<string>, opt: Options, r: Record)
    requires Prefixes(lib)
    ensures r in Records(lib, lines, opt) <==>
              && (exists line <- lines :: LineRecord(lib, line) == Some(r))
              && !Hidden(r.level, opt.minLevel) && !TooOld(r, opt.since)
  {
    KeptIff(r, opt);
    hide Kept, Hidden, TooOld, LineRecord, Prefixes;
    if |lines| > 0 {
      QueryReturns(lib, lines[..|lines| - 1], opt, r);
      assert lines == lines[..|lines| - 1] + [lines[|lines| - 1]];
    }
  }

  // A gap is hidden from a query only if it asks for nothing but errors, never by its time.
  lemma GapsAreShown(lib: Library, n: nat, opt: Options)
    ensures Kept(Oversized(lib, n), opt) <==> Floor(opt) <= 2
  {
    var warn := "WARN";
    TrimmedStays(warn);
    assert Upper(Trim(warn)) == warn;
    assert Known(warn) && Severity(warn) == 2;
    hide Trim, Upper, Known, Severity, Floor, Digits, OVERSIZED_MSG;
  }
}
