// The string operations configuration needs, over ASCII.

module Text {

  predicate IsSpace(c: char) {
    c == ' ' || '\t' <= c <= '\r'
  }

  function TrimLeft(s: string): string {
    if |s| > 0 && IsSpace(s[0]) then TrimLeft(s[1..]) else s
  }

  function TrimRight(s: string): string {
    if |s| > 0 && IsSpace(s[|s| - 1]) then TrimRight(s[..|s| - 1]) else s
  }

  function Trim(s: string): string {
    TrimRight(TrimLeft(s))
  }

  // No white space at either end.
  predicate Trimmed(s: string) {
    |s| > 0 ==> !IsSpace(s[0]) && !IsSpace(s[|s| - 1])
  }

  lemma {:induction false} TrimLeftEnds(s: string)
    ensures |TrimLeft(s)| > 0 ==> !IsSpace(TrimLeft(s)[0])
  {
    if |s| > 0 && IsSpace(s[0]) { TrimLeftEnds(s[1..]); }
  }

  lemma {:induction false} TrimRightEnds(s: string)
    ensures |TrimRight(s)| > 0 ==> !IsSpace(TrimRight(s)[|TrimRight(s)| - 1])
    ensures TrimRight(s) <= s
  {
    if |s| > 0 && IsSpace(s[|s| - 1]) { TrimRightEnds(s[..|s| - 1]); }
  }

  lemma TrimTrims(s: string)
    ensures Trimmed(Trim(s))
  {
    TrimLeftEnds(s);
    TrimRightEnds(TrimLeft(s));
  }

  lemma TrimmedStays(s: string)
    requires Trimmed(s)
    ensures Trim(s) == s
  {
  }

  // A blank, or one of the five control characters from tab to carriage return.
  predicate Blank(c: char) {
    c as int == 32 || 9 <= c as int <= 13
  }

  predicate AllSpace(s: string) {
    forall c <- s :: Blank(c)
  }

  lemma {:induction false} TrimLeftIs(s: string) returns (n: nat)
    ensures n <= |s| && AllSpace(s[..n]) && TrimLeft(s) == s[n..]
  {
    n := 0;
    if |s| > 0 && IsSpace(s[0]) {
      n := TrimLeftIs(s[1..]);
      n := n + 1;
      assert s[..n] == [s[0]] + s[1..][..n - 1] && s[n..] == s[1..][n - 1..];
    }
  }

  lemma {:induction false} TrimRightIs(s: string) returns (n: nat)
    ensures n <= |s| && AllSpace(s[n..]) && TrimRight(s) == s[..n]
  {
    n := |s|;
    if |s| > 0 && IsSpace(s[|s| - 1]) {
      n := TrimRightIs(s[..|s| - 1]);
      assert s[n..] == s[..|s| - 1][n..] + [s[|s| - 1]] && s[..n] == s[..|s| - 1][..n];
    }
  }

  // Trimming cuts off white space at the ends, all of it, and nothing else.
  lemma TrimIs(s: string) returns (i: nat, j: nat)
    ensures i <= j <= |s| && Trim(s) == s[i..j] && AllSpace(s[..i]) && AllSpace(s[j..])
    ensures i < j ==> !Blank(s[i]) && !Blank(s[j - 1])
  {
    TrimTrims(s);
    i := TrimLeftIs(s);
    var n := TrimRightIs(TrimLeft(s));
    j := i + n;
    assert s[i..][n..] == s[j..] && s[i..][..n] == s[i..j];
  }

  function UpperChar(c: char): char {
    if 'a' <= c <= 'z' then c - 'a' + 'A' else c
  }

  function LowerChar(c: char): char {
    if 'A' <= c <= 'Z' then c - 'A' + 'a' else c
  }

  // ASCII letters are 32 apart, and nothing else has a case.
  lemma CaseIs(c: char)
    ensures UpperChar(c) as int == if 97 <= c as int <= 122 then c as int - 32 else c as int
    ensures LowerChar(c) as int == if 65 <= c as int <= 90 then c as int + 32 else c as int
  {
  }

  function Upper(s: string): (u: string)
    ensures |u| == |s| && forall i :: 0 <= i < |s| ==> u[i] == UpperChar(s[i])
  {
    seq(|s|, i requires 0 <= i < |s| => UpperChar(s[i]))
  }

  function Lower(s: string): (l: string)
    ensures |l| == |s| && forall i :: 0 <= i < |s| ==> l[i] == LowerChar(s[i])
  {
    seq(|s|, i requires 0 <= i < |s| => LowerChar(s[i]))
  }

  // Cleaning a cleaned string changes nothing.
  lemma UpperTrimTwice(s: string)
    ensures Upper(Trim(Upper(Trim(s)))) == Upper(Trim(s))
  {
    TrimTrims(s);
    TrimmedStays(Upper(Trim(s)));
  }

  lemma LowerTrimTwice(s: string)
    ensures Lower(Trim(Lower(Trim(s)))) == Lower(Trim(s))
  {
    TrimTrims(s);
    TrimmedStays(Lower(Trim(s)));
  }

  lemma TrimTwice(s: string)
    ensures Trim(Trim(s)) == Trim(s)
  {
    TrimTrims(s);
    TrimmedStays(Trim(s));
  }

  // Equality up to ASCII case.
  predicate EqualFold(a: string, b: string) {
    Lower(a) == Lower(b)
  }

  function Join(parts: seq<string>, sep: string): string {
    if |parts| == 0 then ""
    else if |parts| == 1 then parts[0]
    else parts[0] + sep + Join(parts[1..], sep)
  }

  // Joining parts of one length loses nothing, whatever is in them.
  lemma {:induction false} JoinIsInjective(xs: seq<string>, ys: seq<string>, n: nat)
    requires n > 0
    requires forall x <- xs :: |x| == n
    requires forall y <- ys :: |y| == n
    requires Join(xs, ",") == Join(ys, ",")
    ensures xs == ys
  {
    var s := Join(xs, ",");
    assert |xs| > 0 ==> s[..n] == xs[0] && |xs[0]| == n;
    assert |ys| > 0 ==> s[..n] == ys[0] && |ys[0]| == n;
    if |xs| > 1 {
      assert s[n + 1..] == Join(xs[1..], ",") == Join(ys[1..], ",");
      JoinIsInjective(xs[1..], ys[1..], n);
      assert xs == [xs[0]] + xs[1..] && ys == [ys[0]] + ys[1..];
    }
  }

  predicate CommaFree(parts: seq<string>) {
    forall p <- parts :: ',' !in p
  }

  // The part before the first comma, and what follows it, are read back from the whole.
  lemma FirstPart(a: string, x: string, b: string, y: string)
    requires ',' !in a && ',' !in b
    requires a + "," + x == b + "," + y
    ensures a == b && x == y
  {
    var s := a + "," + x;
    assert s == b + "," + y;
    assert s[|a|] == ',' && s[|b|] == ',';
    assert forall i :: 0 <= i < |a| ==> s[i] == a[i] && a[i] in a;
    assert forall i :: 0 <= i < |b| ==> s[i] == b[i] && b[i] in b;
    assert |a| == |b|;
    assert a == s[..|a|] && b == s[..|b|] && x == s[|a| + 1..] && y == s[|b| + 1..];
  }

  lemma JoinHasComma(parts: seq<string>)
    requires |parts| > 1
    ensures Join(parts, ",") == parts[0] + "," + Join(parts[1..], ",") && ',' in Join(parts, ",")
  {
    assert Join(parts, ",")[|parts[0]|] == ',';
  }

  // Lists of parts without commas join alike exactly when they are one list.
  lemma {:induction false} JoinIff(xs: seq<string>, ys: seq<string>)
    requires CommaFree(xs) && CommaFree(ys) && |xs| > 0 && |ys| > 0
    ensures Join(xs, ",") == Join(ys, ",") <==> xs == ys
  {
    assert xs[0] in xs && ys[0] in ys;
    if |xs| > 1 { JoinHasComma(xs); }
    if |ys| > 1 { JoinHasComma(ys); }
    if |xs| > 1 && |ys| > 1 && Join(xs, ",") == Join(ys, ",") {
      FirstPart(xs[0], Join(xs[1..], ","), ys[0], Join(ys[1..], ","));
      assert CommaFree(xs[1..]) && CommaFree(ys[1..]) by {
        assert forall p <- xs[1..] :: p in xs;
        assert forall p <- ys[1..] :: p in ys;
      }
      JoinIff(xs[1..], ys[1..]);
      assert xs == [xs[0]] + xs[1..] && ys == [ys[0]] + ys[1..];
    }
  }

  // Two neighbours of a list joined by a comma into one part.
  function Merged(parts: seq<string>, i: nat): seq<string>
    requires i + 1 < |parts|
  {
    parts[..i] + [parts[i] + "," + parts[i + 1]] + parts[i + 2..]
  }

  // The list with its element at `i` parted at `j`.
  function Parted(parts: seq<string>, i: nat, j: nat): seq<string>
    requires i < |parts| && j < |parts[i]|
  {
    parts[..i] + [parts[i][..j], parts[i][j + 1..]] + parts[i + 1..]
  }

  lemma PartedMerges(parts: seq<string>, i: nat, j: nat)
    requires i < |parts| && j < |parts[i]| && parts[i][j] == ','
    ensures Merged(Parted(parts, i, j), i) == parts
  {
    var xs := Parted(parts, i, j);
    assert parts[i] == parts[i][..j] + "," + parts[i][j + 1..];
    assert xs[..i] == parts[..i] && xs[i + 2..] == parts[i + 1..];
  }

  // A join cannot tell such a list from the one it came from.
  lemma {:induction false} JoinMerged(parts: seq<string>, i: nat)
    requires i + 1 < |parts|
    ensures Merged(parts, i) != parts && Join(Merged(parts, i), ",") == Join(parts, ",")
  {
    var m := Merged(parts, i);
    assert |m| == |parts| - 1;
    if i == 0 {
      var rest := parts[2..];
      assert m == [parts[0] + "," + parts[1]] + rest && m[1..] == rest && parts[1..][1..] == rest;
      if |rest| == 0 {
        assert Join(parts[1..], ",") == parts[1];
      } else {
        assert Join(parts[1..], ",") == parts[1] + "," + Join(rest, ",");
        assert parts[0] + "," + parts[1] + "," + Join(rest, ",") == parts[0] + "," + (parts[1] + "," + Join(rest, ","));
      }
    } else {
      assert m[0] == parts[0] && m[1..] == Merged(parts[1..], i - 1);
      JoinMerged(parts[1..], i - 1);
    }
  }
}
