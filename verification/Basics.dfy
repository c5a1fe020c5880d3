// Vocabulary shared by the other modules.

module Basics {

  datatype Option<+T> = None | Some(value: T)

  datatype Result<+T, +E> = Ok(value: T) | Err(error: E)

  function Min(a: int, b: int): int {
    if a < b then a else b
  }

  function Max(a: int, b: int): int {
    if a > b then a else b
  }

  // Dropping the last element of `a + b` drops it from `b`. Most folds below consume a
  // sequence from the right, the way a left-to-right loop builds it.
  lemma DropLastOfConcat<T>(a: seq<T>, b: seq<T>)
    requires |b| > 0
    ensures (a + b)[..|a + b| - 1] == a + b[..|b| - 1]
    ensures (a + b)[|a + b| - 1] == b[|b| - 1]
  {
  }

  // One step of a compaction in place: `x`, read at `i`, is written where the next kept element
  // goes.
  lemma AppendIsAssociative<T>(a: seq<T>, b: seq<T>, c: seq<T>)
    ensures (a + b) + c == a + (b + c)
  {
  }

  lemma Overwritten<T>(s: seq<T>, keep: nat, x: T, i: nat)
    requires keep <= i < |s|
    ensures s[keep := x][..keep + 1] == s[..keep] + [x] && s[keep := x][i + 1..] == s[i + 1..]
    ensures s[i + 1..] == s[i..][1..] && (s[..keep] + [x])[..keep] == s[..keep]
  {
  }

  lemma {:induction false} SubsetSize<T>(a: set<T>, b: set<T>)
    requires a <= b
    ensures |a| <= |b|
  {
    if a != {} {
      var x :| x in a;
      SubsetSize(a - {x}, b - {x});
    }
  }
}
