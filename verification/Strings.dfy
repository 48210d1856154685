/** The string methods the repository relies on: split, join, strip and replace. */
module Strings {
  import opened Prelude

  /** `s.split(c)`: always at least one piece. */
  function Split(s: string, c: char): (r: seq<string>)
    ensures |r| >= 1
  {
    if s == "" then [""]
    else
      var tail := Split(s[1..], c);
      if s[0] == c then [""] + tail else [[s[0]] + tail[0]] + tail[1..]
  }

  /** `sep.join(parts)`. */
  function Join(parts: seq<string>, sep: string): string {
    if |parts| == 0 then ""
    else if |parts| == 1 then parts[0]
    else parts[0] + sep + Join(parts[1..], sep)
  }

  function Count(s: string, c: char): nat {
    if s == "" then 0 else (if s[0] == c then 1 else 0) + Count(s[1..], c)
  }

  function Repeat(c: char, n: int): string {
    if n <= 0 then "" else seq(n, _ => c)
  }

  /** `s.replace(c, "")`. */
  function Remove(s: string, c: char): string {
    if s == "" then "" else (if s[0] == c then "" else [s[0]]) + Remove(s[1..], c)
  }

  /** The characters that are not white space, in order. */
  function Ink(space: char -> bool, s: string): string {
    if s == "" then "" else (if space(s[0]) then "" else [s[0]]) + Ink(space, s[1..])
  }

  function Leading(space: char -> bool, s: string): (n: nat)
    ensures n <= |s|
  {
    if s != "" && space(s[0]) then 1 + Leading(space, s[1..]) else 0
  }

  function StripLeft(space: char -> bool, s: string): string {
    s[Leading(space, s)..]
  }

  /** The length left after dropping white space at the end. */
  function Trimmed(space: char -> bool, s: string): (n: nat)
    ensures n <= |s|
  {
    if s != "" && space(s[|s| - 1]) then Trimmed(space, s[..|s| - 1]) else |s|
  }

  function StripRight(space: char -> bool, s: string): string {
    s[..Trimmed(space, s)]
  }

  /** `s.strip()`. */
  function Strip(space: char -> bool, s: string): string {
    StripRight(space, StripLeft(space, s))
  }

  lemma {:induction false} CountConcat(a: string, b: string, c: char)
    ensures Count(a + b, c) == Count(a, c) + Count(b, c)
  {
    if a == "" {
      Unit(b);
    } else {
      ConcatTail(a, b);
      CountConcat(a[1..], b, c);
    }
  }

  lemma {:induction false} CountZero(s: string, c: char)
    ensures Count(s, c) == 0 <==> c !in s
  {
    if s != "" {
      CountZero(s[1..], c);
      assert c in s <==> c == s[0] || c in s[1..];
    }
  }

  lemma {:induction false} SplitCount(s: string, c: char)
    ensures |Split(s, c)| == Count(s, c) + 1
  {
    if s != "" { SplitCount(s[1..], c); }
  }

  lemma {:induction false} SplitPieces(s: string, c: char)
    ensures forall p :: p in Split(s, c) ==> c !in p
  {
    if s != "" {
      SplitPieces(s[1..], c);
      var tail := Split(s[1..], c);
      if s[0] != c {
        assert tail[0] in tail;
        forall p | p in Split(s, c) ensures c !in p {
          if p != [s[0]] + tail[0] { assert p in tail[1..]; assert p in tail; }
        }
      }
    }
  }

  lemma JoinCons(first: string, rest: seq<string>, sep: string)
    ensures Join([first] + rest, sep) == if rest == [] then first else first + sep + Join(rest, sep)
  {
    assert ([first] + rest)[1..] == rest;
  }

  /** Joining undoes splitting. */
  lemma {:induction false} JoinSplit(s: string, c: char)
    ensures Join(Split(s, c), [c]) == s
  {
    if s != "" {
      JoinSplit(s[1..], c);
      HeadTail(s);
      var tail := Split(s[1..], c);
      if s[0] == c {
        JoinCons("", tail, [c]);
        Unit([c]);
      } else {
        HeadTail(tail);
        JoinCons(tail[0], tail[1..], [c]);
        JoinCons([s[0]] + tail[0], tail[1..], [c]);
        if tail[1..] != [] {
          Assoc([s[0]], tail[0], [c]);
          Assoc([s[0]], tail[0] + [c], Join(tail[1..], [c]));
        }
      }
    }
  }

  /** Splitting undoes joining when no part holds the separator. */
  lemma {:induction false} SplitJoin(parts: seq<string>, c: char)
    requires parts != [] && forall p :: p in parts ==> c !in p
    ensures Split(Join(parts, [c]), c) == parts
    decreases |parts|
  {
    assert c !in parts[0] by { assert parts[0] in parts; }
    if |parts| == 1 {
      SplitAtom(parts[0], c);
    } else {
      forall p | p in parts[1..] ensures c !in p { assert p in parts; }
      SplitJoin(parts[1..], c);
      SplitFirst(parts[0], Join(parts[1..], [c]), c);
      HeadTail(parts);
    }
  }

  lemma {:induction false} SplitAtom(s: string, c: char)
    requires c !in s
    ensures Split(s, c) == [s]
  {
    if s != "" {
      SplitAtom(s[1..], c);
      assert s == [s[0]] + s[1..];
    }
  }

  lemma {:induction false} SplitFirst(a: string, b: string, c: char)
    requires c !in a
    ensures Split(a + [c] + b, c) == [a] + Split(b, c)
  {
    var s := a + [c] + b;
    if a == "" {
      assert s[1..] == b;
    } else {
      SplitFirst(a[1..], b, c);
      assert s[1..] == a[1..] + [c] + b;
      assert a == [a[0]] + a[1..];
    }
  }

  lemma {:induction false} LeadingSpec(space: char -> bool, s: string)
    ensures forall i :: 0 <= i < Leading(space, s) ==> space(s[i])
    ensures Leading(space, s) < |s| ==> !space(s[Leading(space, s)])
  {
    if s != "" && space(s[0]) {
      LeadingSpec(space, s[1..]);
      forall i | 0 <= i < Leading(space, s) ensures space(s[i]) {
        if i > 0 { assert space(s[1..][i - 1]); }
      }
    }
  }

  lemma {:induction false} TrimmedSpec(space: char -> bool, s: string)
    ensures forall i :: Trimmed(space, s) <= i < |s| ==> space(s[i])
    ensures Trimmed(space, s) > 0 ==> !space(s[Trimmed(space, s) - 1])
  {
    if s != "" && space(s[|s| - 1]) { TrimmedSpec(space, s[..|s| - 1]); }
  }

  lemma {:induction false} InkConcat(space: char -> bool, a: string, b: string)
    ensures Ink(space, a + b) == Ink(space, a) + Ink(space, b)
  {
    if a == "" {
      Unit(b);
      Unit(Ink(space, b));
    } else {
      ConcatTail(a, b);
      InkConcat(space, a[1..], b);
      Assoc(if space(a[0]) then "" else [a[0]], Ink(space, a[1..]), Ink(space, b));
    }
  }

  lemma {:induction false} InkBlank(space: char -> bool, s: string)
    ensures Ink(space, s) == "" <==> forall i :: 0 <= i < |s| ==> space(s[i])
  {
    if s != "" {
      InkBlank(space, s[1..]);
      assert forall i :: 1 <= i < |s| ==> s[i] == s[1..][i - 1];
    }
  }

  lemma StripLeftInk(space: char -> bool, s: string)
    ensures Ink(space, StripLeft(space, s)) == Ink(space, s)
  {
    var n := Leading(space, s);
    LeadingSpec(space, s);
    InkSplit(space, s, n);
    InkBlank(space, s[..n]);
  }

  lemma StripRightInk(space: char -> bool, s: string)
    ensures Ink(space, StripRight(space, s)) == Ink(space, s)
  {
    var n := Trimmed(space, s);
    TrimmedSpec(space, s);
    InkSplit(space, s, n);
    InkBlank(space, s[n..]);
  }

  lemma InkSplit(space: char -> bool, s: string, n: nat)
    requires n <= |s|
    ensures Ink(space, s) == Ink(space, s[..n]) + Ink(space, s[n..])
  {
    CutAt(s, n);
    InkConcat(space, s[..n], s[n..]);
  }

  /** Only white space is stripped: the rest of the text survives in order. */
  lemma StripKeepsInk(space: char -> bool, s: string)
    ensures Ink(space, Strip(space, s)) == Ink(space, s)
  {
    StripLeftInk(space, s);
    StripRightInk(space, StripLeft(space, s));
  }

  lemma StripBlank(space: char -> bool, s: string)
    ensures Strip(space, s) == "" <==> forall i :: 0 <= i < |s| ==> space(s[i])
  {
    InkBlank(space, s);
    InkBlank(space, Strip(space, s));
    StripKeepsInk(space, s);
    TrimmedSpec(space, StripLeft(space, s));
  }

  lemma {:induction false} RemoveConcat(a: string, b: string, c: char)
    ensures Remove(a + b, c) == Remove(a, c) + Remove(b, c)
  {
    if a == "" {
      Unit(b);
      Unit(Remove(b, c));
    } else {
      ConcatTail(a, b);
      RemoveConcat(a[1..], b, c);
      Assoc(if a[0] == c then "" else [a[0]], Remove(a[1..], c), Remove(b, c));
    }
  }

  lemma {:induction false} JoinConcat(a: seq<string>, b: seq<string>, sep: string)
    requires a != [] && b != []
    ensures Join(a + b, sep) == Join(a, sep) + sep + Join(b, sep)
  {
    ConcatTail(a, b);
    if |a| > 1 {
      JoinConcat(a[1..], b, sep);
      var first, mid, last := a[0] + sep, Join(a[1..], sep), Join(b, sep);
      Assoc(first, mid + sep, last);
      Assoc(first, mid, sep);
    } else {
      Unit(b);
    }
  }

  lemma {:induction false} RemoveAbsent(s: string, c: char)
    requires c !in s
    ensures Remove(s, c) == s
  {
    if s != "" {
      assert c !in s[1..];
      RemoveAbsent(s[1..], c);
      HeadTail(s);
    }
  }
}
