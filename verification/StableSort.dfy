/**
 Python's `sort(key=..., reverse=True)`: descending by key, elements with equal keys keeping
 their input order. `StableSortIsUnique` shows that these two facts leave only one result, so
 the insertion sort below stands for any stable sorting algorithm.
 */
module StableSort {
  import opened Prelude

  ghost predicate SortedDesc<T>(key: T -> real, s: seq<T>) {
    forall i, j :: 0 <= i < j < |s| ==> key(s[i]) >= key(s[j])
  }

  function Insert<T>(key: T -> real, x: T, s: seq<T>): seq<T> {
    if s == [] || key(s[0]) <= key(x) then [x] + s
    else [s[0]] + Insert(key, x, s[1..])
  }

  function SortDesc<T>(key: T -> real, s: seq<T>): seq<T> {
    if s == [] then [] else Insert(key, s[0], SortDesc(key, s[1..]))
  }

  /** The elements whose key is `k`, in order. */
  function AtKey<T>(key: T -> real, k: real, s: seq<T>): seq<T> {
    if s == [] then [] else (if key(s[0]) == k then [s[0]] else []) + AtKey(key, k, s[1..])
  }

  lemma {:induction false} AtKeyMembers<T>(key: T -> real, k: real, s: seq<T>)
    ensures forall x :: x in AtKey(key, k, s) <==> x in s && key(x) == k
  {
    if s != [] {
      AtKeyMembers(key, k, s[1..]);
      forall x ensures x in AtKey(key, k, s) <==> x in s && key(x) == k {
        assert x in s <==> x == s[0] || x in s[1..];
      }
    }
  }

  lemma {:induction false} AtKeyTail<T>(key: T -> real, k: real, s: seq<T>)
    requires s != []
    ensures AtKey(key, k, s[1..]) == if key(s[0]) == k then AtKey(key, k, s)[1..] else AtKey(key, k, s)
  {
    if key(s[0]) == k {
      assert AtKey(key, k, s) == [s[0]] + AtKey(key, k, s[1..]);
    } else {
      assert AtKey(key, k, s) == [] + AtKey(key, k, s[1..]);
    }
  }

  lemma {:induction false} InsertContents<T>(key: T -> real, x: T, s: seq<T>)
    ensures multiset(Insert(key, x, s)) == multiset{x} + multiset(s)
    ensures |Insert(key, x, s)| == |s| + 1
  {
    if s == [] || key(s[0]) <= key(x) {
    } else {
      InsertContents(key, x, s[1..]);
      assert s == [s[0]] + s[1..];
    }
  }

  lemma {:induction false} InsertSorted<T>(key: T -> real, x: T, s: seq<T>)
    requires SortedDesc(key, s)
    ensures SortedDesc(key, Insert(key, x, s))
  {
    if s == [] || key(s[0]) <= key(x) {
    } else {
      InsertSorted(key, x, s[1..]);
      InsertContents(key, x, s[1..]);
      var r := Insert(key, x, s[1..]);
      forall i | 0 <= i < |r| ensures key(s[0]) >= key(r[i]) {
        assert r[i] in multiset(r);
        assert r[i] == x || r[i] in s[1..];
      }
    }
  }

  lemma {:induction false} InsertStable<T>(key: T -> real, x: T, s: seq<T>, k: real)
    requires SortedDesc(key, s)
    ensures AtKey(key, k, Insert(key, x, s)) == AtKey(key, k, [x] + s)
  {
    if s == [] || key(s[0]) <= key(x) {
    } else {
      InsertStable(key, x, s[1..], k);
      var r := Insert(key, x, s[1..]);
      assert ([s[0]] + r)[1..] == r;
      assert ([x] + s)[1..] == s && ([x] + s[1..])[1..] == s[1..];
    }
  }

  /** The sort is a descending, stable permutation. */
  lemma {:induction false} SortDescSpec<T>(key: T -> real, s: seq<T>)
    ensures SortedDesc(key, SortDesc(key, s))
    ensures multiset(SortDesc(key, s)) == multiset(s)
    ensures |SortDesc(key, s)| == |s|
    ensures forall k :: AtKey(key, k, SortDesc(key, s)) == AtKey(key, k, s)
  {
    if s != [] {
      SortDescSpec(key, s[1..]);
      var r := SortDesc(key, s[1..]);
      InsertContents(key, s[0], r);
      InsertSorted(key, s[0], r);
      assert s == [s[0]] + s[1..];
      hide AtKey, Insert, SortedDesc;
      forall k ensures AtKey(key, k, Insert(key, s[0], r)) == AtKey(key, k, s) {
        assert AtKey(key, k, r) == AtKey(key, k, s[1..]);
        InsertStable(key, s[0], r, k);
        SameTailsAtKey(key, k, s[0], r, s[1..]);
      }
    }
  }

  lemma SameTailsAtKey<T>(key: T -> real, k: real, x: T, a: seq<T>, b: seq<T>)
    requires AtKey(key, k, a) == AtKey(key, k, b)
    ensures AtKey(key, k, [x] + a) == AtKey(key, k, [x] + b)
  {
    assert ([x] + a)[1..] == a && ([x] + b)[1..] == b;
  }

  lemma SortMember<T>(key: T -> real, s: seq<T>, x: T)
    ensures x in SortDesc(key, s) <==> x in s
  {
    SortDescSpec(key, s);
    assert x in SortDesc(key, s) <==> x in multiset(SortDesc(key, s));
    assert x in s <==> x in multiset(s);
  }

  lemma {:induction false} SameAtKeysSameHead<T>(key: T -> real, a: seq<T>, b: seq<T>)
    requires SortedDesc(key, a) && SortedDesc(key, b)
    requires forall k :: AtKey(key, k, a) == AtKey(key, k, b)
    requires a != []
    ensures b != [] && a[0] == b[0]
  {
    var k := key(a[0]);
    AtKeyMembers(key, k, a);
    AtKeyMembers(key, k, b);
    assert a[0] in AtKey(key, k, b);
    AtKeyMembers(key, key(b[0]), a);
    AtKeyMembers(key, key(b[0]), b);
    assert b[0] in AtKey(key, key(b[0]), a);
    assert AtKey(key, k, a)[0] == a[0] && AtKey(key, k, b)[0] == b[0];
  }

  /** Two descending sequences with the same elements, in the same order, at every key are equal. */
  lemma {:induction false} SortedDescDeterminedByKeys<T>(key: T -> real, a: seq<T>, b: seq<T>)
    requires SortedDesc(key, a) && SortedDesc(key, b)
    requires forall k :: AtKey(key, k, a) == AtKey(key, k, b)
    ensures a == b
    decreases |a|
  {
    if a == [] {
      if b != [] { SameAtKeysSameHead(key, b, a); }
    } else {
      SameAtKeysSameHead(key, a, b);
      forall k ensures AtKey(key, k, a[1..]) == AtKey(key, k, b[1..]) {
        AtKeyTail(key, k, a);
        AtKeyTail(key, k, b);
        assert AtKey(key, k, a) == AtKey(key, k, b);
      }
      SortedDescDeterminedByKeys(key, a[1..], b[1..]);
    }
  }

  lemma StableSortIsUnique<T>(key: T -> real, s: seq<T>, r: seq<T>)
    requires SortedDesc(key, r)
    requires forall k :: AtKey(key, k, r) == AtKey(key, k, s)
    ensures r == SortDesc(key, s)
  {
    SortDescSpec(key, s);
    SortedDescDeterminedByKeys(key, r, SortDesc(key, s));
  }

  lemma SortedIsFixed<T>(key: T -> real, s: seq<T>)
    requires SortedDesc(key, s)
    ensures SortDesc(key, s) == s
  {
    StableSortIsUnique(key, s, s);
  }

  /** Keys that agree on the elements sort alike. */
  lemma {:induction false} SortAgree<T>(f: T -> real, g: T -> real, s: seq<T>)
    requires forall x :: x in s ==> f(x) == g(x)
    ensures SortDesc(f, s) == SortDesc(g, s)
  {
    if s != [] {
      SortAgree(f, g, s[1..]);
      SortDescSpec(f, s[1..]);
      forall y | y in SortDesc(f, s[1..]) ensures f(y) == g(y) {
        assert y in multiset(SortDesc(f, s[1..]));
        assert y in s[1..];
      }
      InsertAgree(f, g, s[0], SortDesc(f, s[1..]));
    }
  }

  lemma {:induction false} InsertAgree<T>(f: T -> real, g: T -> real, x: T, s: seq<T>)
    requires f(x) == g(x) && forall y :: y in s ==> f(y) == g(y)
    ensures Insert(f, x, s) == Insert(g, x, s)
  {
    if s != [] { InsertAgree(f, g, x, s[1..]); }
  }

  // ---------------------------------------------------------------- permutations

  ghost predicate DistinctBy<T>(f: T -> int, s: seq<T>) {
    forall i, j :: 0 <= i < j < |s| ==> f(s[i]) != f(s[j])
  }

  lemma {:induction false} OccursOnce<T>(f: T -> int, s: seq<T>, x: T)
    requires DistinctBy(f, s)
    ensures multiset(s)[x] <= 1
  {
    if s != [] {
      HeadTail(s);
      if x == s[0] {
        forall i | 0 <= i < |s[1..]| ensures s[1..][i] != x { assert f(s[0]) != f(s[i + 1]); }
        assert x !in s[1..];
      } else {
        OccursOnce(f, s[1..], x);
      }
    }
  }

  lemma OccursTwice<T>(s: seq<T>, i: nat, j: nat)
    requires i < j < |s| && s[i] == s[j]
    ensures multiset(s)[s[i]] >= 2
  {
    CutAt(s, j);
    assert s[i] in s[..j] && s[i] in s[j..];
    assert s[i] in multiset(s[..j]) && s[i] in multiset(s[j..]);
  }

  lemma PermutationKeepsDistinct<T>(f: T -> int, a: seq<T>, b: seq<T>)
    requires DistinctBy(f, a) && multiset(a) == multiset(b)
    ensures DistinctBy(f, b)
  {
    forall i, j | 0 <= i < j < |b| ensures f(b[i]) != f(b[j]) {
      assert multiset(b)[b[i]] > 0 && multiset(b)[b[j]] > 0;
      assert b[i] in a && b[j] in a;
      if b[i] == b[j] {
        OccursTwice(b, i, j);
        OccursOnce(f, a, b[i]);
      } else {
        var m :| 0 <= m < |a| && a[m] == b[i];
        var n :| 0 <= n < |a| && a[n] == b[j];
        if m < n { assert f(a[m]) != f(a[n]); } else { assert f(a[n]) != f(a[m]); }
      }
    }
  }

  // ---------------------------------------------------------------- ties

  /** By descending key, and where keys are equal by ascending place. */
  ghost predicate ByKeyThenPlace<T(!new)>(key: T -> real, place: T -> int, s: seq<T>) {
    forall i, j :: 0 <= i < j < |s| ==>
      key(s[i]) > key(s[j]) || (key(s[i]) == key(s[j]) && place(s[i]) < place(s[j]))
  }

  lemma {:induction false} InsertPlaced<T(!new)>(key: T -> real, place: T -> int, x: T, s: seq<T>)
    requires ByKeyThenPlace(key, place, s) && forall y :: y in s ==> place(x) < place(y)
    ensures ByKeyThenPlace(key, place, Insert(key, x, s))
    ensures forall y :: y in Insert(key, x, s) <==> y == x || y in s
  {
    var r := Insert(key, x, s);
    if s == [] || key(s[0]) <= key(x) {
      assert r == [x] + s;
    } else {
      InsertPlaced(key, place, x, s[1..]);
      var tail := Insert(key, x, s[1..]);
      assert r == [s[0]] + tail;
      forall y ensures y in r <==> y == x || y in s { assert y in s <==> y == s[0] || y in s[1..]; }
    }
  }

  /** A list given in ascending place comes out in ascending place wherever keys are equal. */
  lemma {:induction false} SortPlaced<T(!new)>(key: T -> real, place: T -> int, s: seq<T>)
    requires forall i, j :: 0 <= i < j < |s| ==> place(s[i]) < place(s[j])
    ensures ByKeyThenPlace(key, place, SortDesc(key, s))
    ensures forall y :: y in SortDesc(key, s) <==> y in s
  {
    if s != [] {
      SortPlaced(key, place, s[1..]);
      InsertPlaced(key, place, s[0], SortDesc(key, s[1..]));
      forall y ensures y in s <==> y == s[0] || y in s[1..] {}
    }
  }
}
