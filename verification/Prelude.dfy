/** Small datatypes and sequence functions that the other modules share. */
module Prelude {

  datatype Option<+T> = None | Some(value: T)

  datatype Result<+T, +E> = Ok(value: T) | Err(error: E)

  /** Python's `s[:n]`: a negative bound counts from the end, and both ends are clamped. */
  function SliceTo<T>(s: seq<T>, n: int): seq<T> {
    if n >= 0 then (if n <= |s| then s[..n] else s)
    else if |s| + n >= 0 then s[..|s| + n] else []
  }

  /** How many of `g` elements the slice `[:n]` keeps. */
  function KeepCount(g: nat, n: int): (c: nat)
    ensures c <= g
  {
    if n >= 0 then Min(n, g) else if g + n >= 0 then g + n else 0
  }

  /** Python's `s[n:]` for a non-negative bound. */
  function SliceFrom<T>(s: seq<T>, n: nat): seq<T> {
    if n <= |s| then s[n..] else []
  }

  function Flatten<T>(ss: seq<seq<T>>): seq<T> {
    if ss == [] then [] else ss[0] + Flatten(ss[1..])
  }

  ghost predicate NoDuplicates<T>(s: seq<T>) {
    forall i, j :: 0 <= i < j < |s| ==> s[i] != s[j]
  }

  function Min(a: int, b: int): int { if a <= b then a else b }

  function MinReal(a: real, b: real): real { if a <= b then a else b }

  predicate OccursAt<T(==)>(part: seq<T>, whole: seq<T>, i: nat) {
    i + |part| <= |whole| && whole[i..i + |part|] == part
  }

  /** `part` is a contiguous piece of `whole`: Python's `part in whole` on strings. */
  predicate Occurs<T(==)>(part: seq<T>, whole: seq<T>) {
    exists i: nat | i <= |whole| :: OccursAt(part, whole, i)
  }

  lemma SameByHead<T>(a: seq<T>, b: seq<T>)
    requires a != [] && b != [] && a[0] == b[0] && a[1..] == b[1..]
    ensures a == b
  {
    assert a == [a[0]] + a[1..] && b == [b[0]] + b[1..];
  }

  lemma OccursInside<T>(part: seq<T>, pre: seq<T>, mid: seq<T>, post: seq<T>)
    requires Occurs(part, mid)
    ensures Occurs(part, pre + mid + post)
  {
    var i: nat :| i <= |mid| && OccursAt(part, mid, i);
    var whole := pre + mid + post;
    assert whole[|pre| + i..|pre| + i + |part|] == part;
    assert OccursAt(part, whole, |pre| + i);
  }

  // Arithmetic of products, stated apart for the same reason as the sequence facts below.

  lemma ScaleMonotone(a: real, b: real, x: real)
    requires a <= b && x >= 0.0
    ensures a * x <= b * x && x * a <= x * b
  {
  }

  /** A product under a name, so that a proof can treat it as a unit. */
  function Scale(a: real, x: real): real { a * x }

  lemma ScaleUp(a: real, x: real, y: real)
    requires a >= 0.0 && x <= y
    ensures Scale(a, x) <= Scale(a, y)
  {
  }

  lemma ScaleInto(a: real, x: real)
    ensures Scale(a, x) + Scale(1.0 - a, x) == x && Scale(a, 0.0) == 0.0 && Scale(a, 1.0) == a
  {
  }

  lemma Shrink(a: real, x: real)
    requires a >= 0.0 && 0.0 <= x <= 1.0
    ensures 0.0 <= a * x <= a
  {
  }

  lemma ScaleMonotoneInt(a: int, b: int, n: int)
    requires a <= b && n >= 0
    ensures n * a <= n * b
  {
  }

  lemma DistributeInt(a: int, b: int, n: int)
    ensures n * (a + b) == n * a + n * b
  {
  }

  lemma Distribute(a: real, b: real, x: real)
    ensures (a + b) * x == a * x + b * x && x * (a + b) == x * a + x * b
  {
  }

  // Facts about sequences, stated apart because they are costly to find in a larger proof.

  lemma ConcatTail<T>(a: seq<T>, b: seq<T>)
    requires a != []
    ensures (a + b)[0] == a[0] && (a + b)[1..] == a[1..] + b
  {
  }

  lemma Assoc<T>(a: seq<T>, b: seq<T>, c: seq<T>)
    ensures (a + b) + c == a + (b + c)
  {
  }

  lemma Unit<T>(a: seq<T>)
    ensures [] + a == a && a + [] == a
  {
  }

  lemma CutAt<T>(s: seq<T>, n: nat)
    requires n <= |s|
    ensures s == s[..n] + s[n..]
  {
  }

  lemma CutConcat<T>(a: seq<T>, b: seq<T>)
    ensures (a + b)[..|a|] == a && (a + b)[|a|..] == b
  {
  }

  lemma HeadTail<T>(s: seq<T>)
    requires s != []
    ensures s == [s[0]] + s[1..]
  {
  }

  lemma TakeSnoc<T>(s: seq<T>, n: nat)
    requires n < |s|
    ensures s[..n + 1] == s[..n] + [s[n]]
  {
  }
}
