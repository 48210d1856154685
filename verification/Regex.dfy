/**
 The fragment of Python's `re` that the guardrails and the chunker use: a pattern is a list of
 greedy class repetitions and ordered alternatives, with an optional one-character negative
 lookbehind in front and an optional one-character negative lookahead behind. `MatchItems`
 backtracks as `re` does; the lemmas compare it with `Fits`, which says what a match is without
 saying how it is searched for.
 */
module Regex {
  import opened Prelude

  /** The Unicode tables behind `\d`, `\w` and `\s`. */
  datatype Alphabet = Alphabet(isDigit: char -> bool, isWord: char -> bool, isSpace: char -> bool)

  /** All that the proofs need of the Unicode tables. */
  ghost predicate Sane(u: Alphabet) {
    && u.isSpace(' ') && u.isSpace('\n')
    && !u.isDigit('-') && !u.isDigit(' ') && !u.isDigit(',')
    && (forall c :: '0' <= c <= '9' ==> u.isDigit(c))
  }

  datatype Class =
    | Digit | Word | Space
    | Char(c: char) | Range(lo: char, hi: char)
    | Or(a: Class, b: Class) | Not(x: Class)

  predicate In(u: Alphabet, cls: Class, c: char) {
    match cls
    case Digit => u.isDigit(c)
    case Word => u.isWord(c)
    case Space => u.isSpace(c)
    case Char(d) => c == d
    case Range(lo, hi) => lo <= c <= hi
    case Or(a, b) => In(u, a, c) || In(u, b, c)
    case Not(x) => !In(u, x, c)
  }

  /** `Rep` is `[cls]{lo,hi}`, greedy; `Alt` is `(?:o1|o2|...)`, tried left to right. */
  datatype Item = Rep(cls: Class, lo: nat, hi: Option<nat>) | Alt(options: seq<string>)

  datatype Items = End | Then(item: Item, rest: Items)

  datatype Pattern = Pattern(behind: Option<Class>, items: Items, ahead: Option<Class>)

  /** A match: its span, and the length of the piece each item took. */
  datatype Match = Match(start: nat, end: nat, lens: seq<nat>)

  // ---------------------------------------------------------------- what a match is

  ghost predicate AllIn(u: Alphabet, cls: Class, s: string) {
    forall i :: 0 <= i < |s| ==> In(u, cls, s[i])
  }

  ghost predicate ItemMatches(u: Alphabet, item: Item, piece: string) {
    match item
    case Rep(cls, lo, hi) => lo <= |piece| && (hi.Some? ==> |piece| <= hi.value) && AllIn(u, cls, piece)
    case Alt(options) => piece in options
  }

  predicate Blocked(u: Alphabet, cls: Option<Class>, text: string, at: int) {
    cls.Some? && 0 <= at < |text| && In(u, cls.value, text[at])
  }

  function Total(lens: seq<nat>): nat {
    if lens == [] then 0 else lens[0] + Total(lens[1..])
  }

  /** `lens` cuts `text[pos..]` into one piece per item, and the lookahead allows the end. */
  ghost predicate Fits(u: Alphabet, text: string, pos: nat, items: Items, ahead: Option<Class>, lens: seq<nat>)
    requires pos <= |text|
    decreases items
  {
    match items
    case End => lens == [] && !Blocked(u, ahead, text, pos)
    case Then(item, rest) =>
      && lens != []
      && pos + lens[0] <= |text|
      && ItemMatches(u, item, text[pos..pos + lens[0]])
      && Fits(u, text, pos + lens[0], rest, ahead, lens[1..])
  }

  // ---------------------------------------------------------------- the search

  function RunLength(u: Alphabet, cls: Class, text: string, pos: nat): (n: nat)
    requires pos <= |text|
    ensures pos + n <= |text|
    decreases |text| - pos
  {
    if pos < |text| && In(u, cls, text[pos]) then 1 + RunLength(u, cls, text, pos + 1) else 0
  }

  /** `[hi, hi - 1, ..., lo]`. */
  function Downto(hi: int, lo: nat): (r: seq<nat>)
    decreases hi - lo
  {
    if hi < lo then [] else [hi] + Downto(hi - 1, lo)
  }

  function OptionLengths(options: seq<string>, text: string, pos: nat): seq<nat>
    requires pos <= |text|
  {
    if options == [] then []
    else (if options[0] <= text[pos..] then [|options[0]|] else []) + OptionLengths(options[1..], text, pos)
  }

  /** The lengths an item may take at `pos`, in the order in which `re` tries them. */
  function Candidates(u: Alphabet, item: Item, text: string, pos: nat): seq<nat>
    requires pos <= |text|
  {
    match item
    case Rep(cls, lo, hi) =>
      var run := RunLength(u, cls, text, pos);
      Downto(if hi.Some? && hi.value < run then hi.value else run, lo)
    case Alt(options) => OptionLengths(options, text, pos)
  }

  function MatchItems(u: Alphabet, text: string, pos: nat, items: Items, ahead: Option<Class>): Option<seq<nat>>
    requires pos <= |text|
    decreases items, 0
  {
    match items
    case End => if Blocked(u, ahead, text, pos) then None else Some([])
    case Then(item, rest) => TryEach(u, text, pos, Candidates(u, item, text, pos), rest, ahead)
  }

  function TryEach(u: Alphabet, text: string, pos: nat, cands: seq<nat>, rest: Items,
                   ahead: Option<Class>): Option<seq<nat>>
    requires pos <= |text|
    decreases rest, 1, |cands|
  {
    if cands == [] then None
    else
      var first := if pos + cands[0] <= |text| then MatchItems(u, text, pos + cands[0], rest, ahead) else None;
      if first.Some? then Some([cands[0]] + first.value)
      else TryEach(u, text, pos, cands[1..], rest, ahead)
  }

  function MatchAt(u: Alphabet, text: string, pos: nat, p: Pattern): Option<seq<nat>>
    requires pos <= |text|
  {
    if Blocked(u, p.behind, text, pos - 1) then None else MatchItems(u, text, pos, p.items, p.ahead)
  }

  function MinLength(items: Items): nat {
    match items
    case End => 0
    case Then(Rep(_, lo, _), rest) => lo + MinLength(rest)
    case Then(Alt(_), rest) => MinLength(rest)
  }

  function Step(u: Alphabet, p: Pattern, text: string): nat -> Option<seq<nat>> {
    (at: nat) => if at < |text| then MatchAt(u, text, at, p) else None
  }

  /** Every success of `step` takes at least one character and stays below `n`. */
  ghost predicate Advances(step: nat -> Option<seq<nat>>, n: nat) {
    forall at: nat | at < n && step(at).Some? :: 0 < Total(step(at).value) <= n - at
  }

  /** The leftmost non-overlapping successes of `step` from `pos` on. */
  function Leftmost(step: nat -> Option<seq<nat>>, n: nat, pos: nat): seq<Match>
    requires pos <= n && Advances(step, n)
    decreases n - pos
  {
    if pos == n then []
    else if step(pos).None? then Leftmost(step, n, pos + 1)
    else
      var end := pos + Total(step(pos).value);
      [Match(pos, end, step(pos).value)] + Leftmost(step, n, end)
  }

  /** `list(pattern.finditer(text))` for a pattern that never matches the empty string. */
  function FindIter(u: Alphabet, p: Pattern, text: string): seq<Match>
    requires MinLength(p.items) > 0
  {
    StepAdvances(u, p, text);
    Leftmost(Step(u, p, text), |text|, 0)
  }

  // ---------------------------------------------------------------- the search finds matches

  lemma {:induction false} RunLengthMaximal(u: Alphabet, cls: Class, text: string, pos: nat)
    requires pos <= |text|
    ensures forall i :: pos <= i < pos + RunLength(u, cls, text, pos) ==> In(u, cls, text[i])
    ensures pos + RunLength(u, cls, text, pos) < |text| ==> !In(u, cls, text[pos + RunLength(u, cls, text, pos)])
    decreases |text| - pos
  {
    if pos < |text| && In(u, cls, text[pos]) { RunLengthMaximal(u, cls, text, pos + 1); }
  }

  lemma {:induction false} DowntoMembers(hi: int, lo: nat, n: nat)
    ensures n in Downto(hi, lo) <==> lo <= n <= hi
    decreases hi - lo
  {
    if hi >= lo { DowntoMembers(hi - 1, lo, n); }
  }

  lemma {:induction false} OptionLengthsMembers(options: seq<string>, text: string, pos: nat, n: nat)
    requires pos <= |text|
    ensures n in OptionLengths(options, text, pos) <==> pos + n <= |text| && text[pos..pos + n] in options
  {
    if options != [] {
      OptionLengthsMembers(options[1..], text, pos, n);
      if pos + n <= |text| {
        assert text[pos..][..n] == text[pos..pos + n];
        assert text[pos..pos + n] in options <==>
               text[pos..pos + n] == options[0] || text[pos..pos + n] in options[1..];
      }
    }
  }

  lemma CandidatesExact(u: Alphabet, item: Item, text: string, pos: nat, n: nat)
    requires pos <= |text|
    ensures n in Candidates(u, item, text, pos) <==> pos + n <= |text| && ItemMatches(u, item, text[pos..pos + n])
  {
    match item
    case Rep(cls, lo, hi) =>
      var run := RunLength(u, cls, text, pos);
      RunLengthMaximal(u, cls, text, pos);
      DowntoMembers(if hi.Some? && hi.value < run then hi.value else run, lo, n);
      if pos + n <= |text| {
        var piece := text[pos..pos + n];
        if AllIn(u, cls, piece) && n > run {
          assert In(u, cls, piece[run]);
        }
        if n <= run {
          assert forall i :: 0 <= i < |piece| ==> piece[i] == text[pos + i];
        }
      }
    case Alt(options) => OptionLengthsMembers(options, text, pos, n);
  }

  /** The items after the first fit where its piece ends. */
  lemma FitsRest(u: Alphabet, text: string, pos: nat, items: Items, ahead: Option<Class>, lens: seq<nat>)
    requires pos <= |text| && Fits(u, text, pos, items, ahead, lens) && items.Then?
    ensures lens != [] && pos + lens[0] <= |text|
    ensures Fits(u, text, pos + lens[0], items.rest, ahead, lens[1..])
  {
  }

  lemma {:induction false} FitsBounds(u: Alphabet, text: string, pos: nat, items: Items, ahead: Option<Class>,
                                      lens: seq<nat>)
    requires pos <= |text|
    requires Fits(u, text, pos, items, ahead, lens)
    ensures MinLength(items) <= Total(lens) <= |text| - pos
    decreases items
  {
    if items.Then? { FitsBounds(u, text, pos + lens[0], items.rest, ahead, lens[1..]); }
  }

  lemma {:induction false} MatchItemsSound(u: Alphabet, text: string, pos: nat, items: Items, ahead: Option<Class>)
    requires pos <= |text|
    ensures var m := MatchItems(u, text, pos, items, ahead);
            m.Some? ==> Fits(u, text, pos, items, ahead, m.value)
    decreases items, 0
  {
    if items.Then? {
      var cands := Candidates(u, items.item, text, pos);
      TryEachSound(u, text, pos, cands, items.rest, ahead);
      var m := MatchItems(u, text, pos, items, ahead);
      if m.Some? { CandidatesExact(u, items.item, text, pos, m.value[0]); }
    }
  }

  lemma {:induction false} TryEachSound(u: Alphabet, text: string, pos: nat, cands: seq<nat>, rest: Items,
                                        ahead: Option<Class>)
    requires pos <= |text|
    ensures var m := TryEach(u, text, pos, cands, rest, ahead);
            m.Some? ==>
              && m.value != [] && m.value[0] in cands && pos + m.value[0] <= |text|
              && Fits(u, text, pos + m.value[0], rest, ahead, m.value[1..])
    decreases rest, 1, |cands|
  {
    if cands != [] {
      if pos + cands[0] <= |text| { MatchItemsSound(u, text, pos + cands[0], rest, ahead); }
      TryEachSound(u, text, pos, cands[1..], rest, ahead);
    }
  }

  // ---------------------------------------------------------------- and misses none

  /**
   `x` is `y`, or the search tries `x` before `y`: at the first item where they differ, the length
   in `x` comes first.
   */
  ghost predicate NotAfter(u: Alphabet, text: string, pos: nat, items: Items, x: seq<nat>, y: seq<nat>)
    requires pos <= |text|
    decreases items
  {
    match items
    case End => true
    case Then(item, rest) =>
      x != [] && y != [] && pos + x[0] <= |text| &&
      if x[0] == y[0] then NotAfter(u, text, pos + x[0], rest, x[1..], y[1..])
      else TriedBefore(Candidates(u, item, text, pos), x[0], y[0])
  }

  /** `a` has an occurrence in `cands` that no occurrence of `b` precedes. */
  ghost predicate TriedBefore(cands: seq<nat>, a: nat, b: nat) {
    exists i :: 0 <= i < |cands| && cands[i] == a && b !in cands[..i]
  }

  /**
   The search succeeds exactly when some cut of the text fits, and what it returns is the cut
   that a greedy, left-to-right search prefers to every other.
   */
  lemma {:induction false} MatchItemsPreferred(u: Alphabet, text: string, pos: nat, items: Items, ahead: Option<Class>,
                                               lens: seq<nat>)
    requires pos <= |text|
    requires Fits(u, text, pos, items, ahead, lens)
    ensures var m := MatchItems(u, text, pos, items, ahead);
            m.Some? && NotAfter(u, text, pos, items, m.value, lens)
    decreases items, 0
  {
    if items.Then? {
      CandidatesExact(u, items.item, text, pos, lens[0]);
      TryEachPreferred(u, text, pos, Candidates(u, items.item, text, pos), items.rest, ahead, lens);
    }
  }

  lemma {:induction false} TryEachPreferred(u: Alphabet, text: string, pos: nat, cands: seq<nat>, rest: Items,
                                            ahead: Option<Class>, lens: seq<nat>)
    requires pos <= |text|
    requires lens != [] && lens[0] in cands && pos + lens[0] <= |text|
    requires Fits(u, text, pos + lens[0], rest, ahead, lens[1..])
    ensures var m := TryEach(u, text, pos, cands, rest, ahead);
            && m.Some? && m.value != [] && pos + m.value[0] <= |text|
            && (m.value[0] == lens[0] ==> NotAfter(u, text, pos + m.value[0], rest, m.value[1..], lens[1..]))
            && (m.value[0] != lens[0] ==> TriedBefore(cands, m.value[0], lens[0]))
    decreases rest, 1, |cands|
  {
    if cands[0] == lens[0] {
      MatchItemsPreferred(u, text, pos + lens[0], rest, ahead, lens[1..]);
    } else {
      var first := if pos + cands[0] <= |text| then MatchItems(u, text, pos + cands[0], rest, ahead) else None;
      if first.Some? {
        assert cands[..0] == [];
      } else {
        TryEachPreferred(u, text, pos, cands[1..], rest, ahead, lens);
        var m := TryEach(u, text, pos, cands[1..], rest, ahead);
        if m.value[0] != lens[0] {
          var i :| 0 <= i < |cands[1..]| && cands[1..][i] == m.value[0] && lens[0] !in cands[1..][..i];
          assert cands[..i + 1] == [cands[0]] + cands[1..][..i];
          assert cands[i + 1] == m.value[0];
        }
      }
    }
  }

  // ---------------------------------------------------------------- finditer

  lemma StepAdvances(u: Alphabet, p: Pattern, text: string)
    requires MinLength(p.items) > 0
    ensures Advances(Step(u, p, text), |text|)
  {
    forall at: nat | at < |text| && Step(u, p, text)(at).Some?
      ensures 0 < Total(Step(u, p, text)(at).value) <= |text| - at
    {
      MatchItemsSound(u, text, at, p.items, p.ahead);
      FitsBounds(u, text, at, p.items, p.ahead, Step(u, p, text)(at).value);
    }
  }

  ghost predicate IsStep(step: nat -> Option<seq<nat>>, n: nat, m: Match) {
    m.start < m.end <= n && step(m.start) == Some(m.lens) && m.end == m.start + Total(m.lens)
  }

  /** Left to right, non-overlapping, non-empty, each a success of `step`. */
  ghost predicate MatchRun(step: nat -> Option<seq<nat>>, n: nat, from: nat, ms: seq<Match>) {
    && (forall i :: 0 <= i < |ms| ==> IsStep(step, n, ms[i]) && from <= ms[i].start)
    && (forall i, j :: 0 <= i < j < |ms| ==> ms[i].end <= ms[j].start)
  }

  ghost predicate Covered(ms: seq<Match>, at: nat) {
    exists m :: m in ms && m.start <= at < m.end
  }

  ghost predicate CoversAll(step: nat -> Option<seq<nat>>, n: nat, from: nat, ms: seq<Match>) {
    forall at: nat :: from <= at < n && step(at).Some? ==> Covered(ms, at)
  }

  lemma MatchRunCons(step: nat -> Option<seq<nat>>, n: nat, from: nat, head: Match, tail: seq<Match>)
    requires IsStep(step, n, head) && from <= head.start
    requires MatchRun(step, n, head.end, tail)
    ensures MatchRun(step, n, from, [head] + tail)
  {
    var ms := [head] + tail;
    forall i | 0 <= i < |ms| ensures IsStep(step, n, ms[i]) && from <= ms[i].start {
      if i > 0 { assert ms[i] == tail[i - 1]; }
    }
  }

  lemma CoveredCons(head: Match, tail: seq<Match>, at: nat)
    ensures Covered([head] + tail, at) <==> head.start <= at < head.end || Covered(tail, at)
  {
    if head.start <= at < head.end { assert head in [head] + tail; }
    if Covered(tail, at) {
      var w :| w in tail && w.start <= at < w.end;
      assert w in [head] + tail;
    }
  }

  lemma {:induction false} LeftmostRun(step: nat -> Option<seq<nat>>, n: nat, pos: nat)
    requires pos <= n && Advances(step, n)
    ensures MatchRun(step, n, pos, Leftmost(step, n, pos))
    decreases n - pos
  {
    if pos < n {
      if step(pos).None? {
        LeftmostRun(step, n, pos + 1);
      } else {
        var head := Match(pos, pos + Total(step(pos).value), step(pos).value);
        LeftmostRun(step, n, head.end);
        MatchRunCons(step, n, pos, head, Leftmost(step, n, head.end));
      }
    }
  }

  lemma {:induction false} LeftmostCovers(step: nat -> Option<seq<nat>>, n: nat, pos: nat, at: nat)
    requires pos <= n && Advances(step, n)
    requires pos <= at < n && step(at).Some?
    ensures Covered(Leftmost(step, n, pos), at)
    decreases n - pos
  {
    if step(pos).None? {
      LeftmostCovers(step, n, pos + 1, at);
    } else {
      var head := Match(pos, pos + Total(step(pos).value), step(pos).value);
      if at >= head.end { LeftmostCovers(step, n, head.end, at); }
      CoveredCons(head, Leftmost(step, n, head.end), at);
    }
  }

  lemma FirstStart(step: nat -> Option<seq<nat>>, n: nat, from: nat, a: seq<Match>, b: seq<Match>)
    requires MatchRun(step, n, from, a) && MatchRun(step, n, from, b) && CoversAll(step, n, from, b)
    requires a != []
    ensures b != [] && b[0].start <= a[0].start
  {
    assert IsStep(step, n, a[0]);
    assert Covered(b, a[0].start);
    var w :| w in b && w.start <= a[0].start < w.end;
    var i :| 0 <= i < |b| && b[i] == w;
    if i > 0 { assert IsStep(step, n, b[0]) && b[0].end <= b[i].start; }
  }

  lemma DropHead(step: nat -> Option<seq<nat>>, n: nat, from: nat, ms: seq<Match>)
    requires MatchRun(step, n, from, ms) && CoversAll(step, n, from, ms) && ms != []
    ensures MatchRun(step, n, ms[0].end, ms[1..]) && CoversAll(step, n, ms[0].end, ms[1..])
  {
    assert IsStep(step, n, ms[0]);
    hide IsStep, Covered;
    assert ms == [ms[0]] + ms[1..];
    forall at: nat | ms[0].end <= at < n && step(at).Some? ensures Covered(ms[1..], at) {
      StepStarts(step, n, ms[0]);
      CoveredCons(ms[0], ms[1..], at);
    }
  }

  lemma StepStarts(step: nat -> Option<seq<nat>>, n: nat, m: Match)
    requires IsStep(step, n, m)
    ensures m.start < m.end <= n
  {
  }

  lemma SameHead(step: nat -> Option<seq<nat>>, n: nat, from: nat, a: seq<Match>, b: seq<Match>)
    requires MatchRun(step, n, from, a) && CoversAll(step, n, from, a)
    requires MatchRun(step, n, from, b) && CoversAll(step, n, from, b)
    ensures a == [] <==> b == []
    ensures a != [] ==> a[0] == b[0]
  {
    if a != [] {
      FirstStart(step, n, from, a, b);
      FirstStart(step, n, from, b, a);
      assert IsStep(step, n, a[0]) && IsStep(step, n, b[0]);
    } else if b != [] {
      FirstStart(step, n, from, b, a);
    }
  }

  /** Left to right, disjoint and missing nothing: these leave one list only. */
  lemma {:induction false} RunsAgree(step: nat -> Option<seq<nat>>, n: nat, from: nat, a: seq<Match>, b: seq<Match>)
    requires MatchRun(step, n, from, a) && CoversAll(step, n, from, a)
    requires MatchRun(step, n, from, b) && CoversAll(step, n, from, b)
    ensures a == b
    decreases |a|
  {
    SameHead(step, n, from, a, b);
    if a != [] {
      DropHead(step, n, from, a);
      DropHead(step, n, from, b);
      RunsAgree(step, n, a[0].end, a[1..], b[1..]);
      SameByHead(a, b);
    }
  }

  ghost predicate IsMatch(u: Alphabet, p: Pattern, text: string, m: Match) {
    && m.start < m.end <= |text|
    && m.end == m.start + Total(m.lens)
    && !Blocked(u, p.behind, text, m.start - 1)
    && Fits(u, text, m.start, p.items, p.ahead, m.lens)
  }

  /** Some cut of the text starting at `at` is a match of `p`. */
  ghost predicate Matchable(u: Alphabet, p: Pattern, text: string, at: nat)
    requires at <= |text|
  {
    !Blocked(u, p.behind, text, at - 1) && exists lens :: Fits(u, text, at, p.items, p.ahead, lens)
  }

  /** What `finditer` yields is matches, in order and disjoint, and no place where `p` could match is left uncovered. */
  lemma FindIterSpec(u: Alphabet, p: Pattern, text: string)
    requires MinLength(p.items) > 0
    ensures var ms := FindIter(u, p, text);
            && (forall i :: 0 <= i < |ms| ==> IsMatch(u, p, text, ms[i]))
            && (forall i, j :: 0 <= i < j < |ms| ==> ms[i].end <= ms[j].start)
            && (forall at: nat :: at < |text| && Matchable(u, p, text, at) ==> Covered(ms, at))
  {
    var step := Step(u, p, text);
    var ms := FindIter(u, p, text);
    StepAdvances(u, p, text);
    LeftmostRun(step, |text|, 0);
    forall i | 0 <= i < |ms| ensures IsMatch(u, p, text, ms[i]) {
      assert IsStep(step, |text|, ms[i]);
      MatchItemsSound(u, text, ms[i].start, p.items, p.ahead);
    }
    forall at: nat | at < |text| && Matchable(u, p, text, at) ensures Covered(ms, at) {
      var lens :| Fits(u, text, at, p.items, p.ahead, lens);
      MatchItemsPreferred(u, text, at, p.items, p.ahead, lens);
      LeftmostCovers(step, |text|, 0, at);
    }
  }

  lemma FindIterUnique(u: Alphabet, p: Pattern, text: string, ms: seq<Match>)
    requires MinLength(p.items) > 0
    requires MatchRun(Step(u, p, text), |text|, 0, ms) && CoversAll(Step(u, p, text), |text|, 0, ms)
    ensures ms == FindIter(u, p, text)
  {
    var step := Step(u, p, text);
    StepAdvances(u, p, text);
    LeftmostRun(step, |text|, 0);
    forall at: nat | at < |text| && step(at).Some? ensures Covered(FindIter(u, p, text), at) {
      LeftmostCovers(step, |text|, 0, at);
    }
    RunsAgree(step, |text|, 0, ms, FindIter(u, p, text));
  }

  // ---------------------------------------------------------------- taking a match apart

  lemma FitsPiece(u: Alphabet, text: string, pos: nat, item: Item, rest: Items, ahead: Option<Class>, lens: seq<nat>)
    requires pos <= |text| && Fits(u, text, pos, Then(item, rest), ahead, lens)
    ensures lens != [] && pos + lens[0] <= |text| && ItemMatches(u, item, text[pos..pos + lens[0]])
    ensures Fits(u, text, pos + lens[0], rest, ahead, lens[1..]) && Total(lens) == lens[0] + Total(lens[1..])
  {
    hide ItemMatches;
  }

  lemma FitsCons(u: Alphabet, text: string, pos: nat, items: Items, ahead: Option<Class>, n: nat, lens: seq<nat>)
    requires items.Then? && pos + n <= |text| && ItemMatches(u, items.item, text[pos..pos + n])
    requires Fits(u, text, pos + n, items.rest, ahead, lens)
    ensures Fits(u, text, pos, items, ahead, [n] + lens) && Total([n] + lens) == n + Total(lens)
  {
    assert ([n] + lens)[1..] == lens;
    hide ItemMatches;
  }

  lemma PieceFits(u: Alphabet, text: string, pos: nat, item: Item, rest: Items, ahead: Option<Class>, n: nat,
                  lens: seq<nat>) returns (all: seq<nat>)
    requires pos + n <= |text| && ItemMatches(u, item, text[pos..pos + n])
    requires Fits(u, text, pos + n, rest, ahead, lens)
    ensures Fits(u, text, pos, Then(item, rest), ahead, all) && Total(all) == n + Total(lens)
  {
    FitsCons(u, text, pos, Then(item, rest), ahead, n, lens);
    all := [n] + lens;
  }

  lemma MatchFacts(u: Alphabet, p: Pattern, text: string, m: Match)
    requires IsMatch(u, p, text, m)
    ensures m.start < m.end <= |text| && m.end == m.start + Total(m.lens)
    ensures !Blocked(u, p.behind, text, m.start - 1) && Fits(u, text, m.start, p.items, p.ahead, m.lens)
  {
  }

  lemma PartsMatch(u: Alphabet, p: Pattern, text: string, m: Match)
    requires m.start < m.end <= |text| && m.end == m.start + Total(m.lens)
    requires !Blocked(u, p.behind, text, m.start - 1) && Fits(u, text, m.start, p.items, p.ahead, m.lens)
    ensures IsMatch(u, p, text, m)
  {
  }

  lemma FitsEnd(u: Alphabet, text: string, pos: nat, ahead: Option<Class>, lens: seq<nat>)
    requires pos <= |text|
    ensures Fits(u, text, pos, End, ahead, lens) <==> lens == [] && !Blocked(u, ahead, text, pos)
  {
  }

  lemma AllInSlice(u: Alphabet, cls: Class, text: string, a: nat, b: nat)
    requires a <= b <= |text|
    ensures AllIn(u, cls, text[a..b]) <==> forall i :: a <= i < b ==> In(u, cls, text[i])
  {
    var piece := text[a..b];
    hide In;
    if AllIn(u, cls, piece) {
      forall i | a <= i < b ensures In(u, cls, text[i]) { assert In(u, cls, piece[i - a]); }
    }
  }
}
