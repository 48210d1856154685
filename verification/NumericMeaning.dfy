/**
 What backend/app/services/guardrails/numeric_verifier.py takes for a number with a unit, what it
 demands of each, and which words stand for the same period.
 */
module NumericMeaning {
  import opened Prelude
  import opened Strings
  import opened Regex
  import opened NumericVerifier

  // ---------------------------------------------------------------- numbers

  predicate IsPeriod(s: string) {
    s in {"연", "월", "주", "일", "반기", "분기", "매"}
  }

  predicate IsUnit(s: string) {
    s in {"개월", "반기", "분기", "회", "번", "개", "점", "%", "원", "시간", "일", "주", "월", "년", "건", "명", "만", "억", "천"}
  }

  /** The cuts of a number: a period or nothing, spaces, digits, digits with separators, spaces, a unit. */
  ghost predicate NumberCut(u: Alphabet, t: string, start: nat, a: nat, b: nat, c: nat, d: nat, e: nat, end: nat) {
    && start <= a <= b < c <= d <= e <= end <= |t|
    && (start == a || IsPeriod(t[start..a])) && IsUnit(t[e..end])
    && (forall i :: a <= i < b ==> u.isSpace(t[i])) && (forall i :: d <= i < e ==> u.isSpace(t[i]))
    && (forall i :: b <= i < c ==> u.isDigit(t[i]))
    && (forall i :: c <= i < d ==> u.isDigit(t[i]) || t[i] == ',' || t[i] == '.')
  }

  /** A number with a unit stands at `start..end`, and no letter, digit or ordinal sign right before it. */
  ghost predicate NumberAt(u: Alphabet, t: string, start: nat, end: nat) {
    && start <= end <= |t|
    && (start > 0 ==> t[start - 1] != '제' && !u.isWord(t[start - 1]))
    && exists a: nat, b: nat, c: nat, d: nat, e: nat :: NumberCut(u, t, start, a, b, c, d, e, end)
  }

  lemma Prefixes(s: string)
    ensures s in PREFIXES <==> s == "" || IsPeriod(s)
  {
    var n := |PREFIXES|;
    if IsPeriod(s) || s == "" {
      assert PREFIXES[0] == "연" && PREFIXES[1] == "월" && PREFIXES[2] == "주" && PREFIXES[3] == "일";
      assert PREFIXES[4] == "반기" && PREFIXES[5] == "분기" && PREFIXES[6] == "매" && PREFIXES[7] == "";
    }
  }

  lemma Units(s: string)
    ensures s in UNITS <==> IsUnit(s)
  {
    assert UNITS[0] == "개월" && UNITS[1] == "반기" && UNITS[2] == "분기" && UNITS[3] == "회" && UNITS[4] == "번";
    assert UNITS[5] == "개" && UNITS[6] == "점" && UNITS[7] == "%" && UNITS[8] == "원" && UNITS[9] == "시간";
    assert UNITS[10] == "일" && UNITS[11] == "주" && UNITS[12] == "월" && UNITS[13] == "년" && UNITS[14] == "건";
    assert UNITS[15] == "명" && UNITS[16] == "만" && UNITS[17] == "억" && UNITS[18] == "천" && |UNITS| == 19;
  }

  function Separated(): Class { Or(Digit, Or(Char(','), Char('.'))) }

  lemma PatternParts()
    ensures NumericPattern() ==
            Pattern(Some(Or(Char('제'), Word)),
                    Then(Alt(PREFIXES), Then(Rep(Space, 0, None), Then(Rep(Digit, 1, None),
                    Then(Rep(Separated(), 0, None), Then(Rep(Space, 0, None), Then(Alt(UNITS), End)))))), None)
  {
  }

  lemma PieceChars(u: Alphabet, t: string, a: nat, b: nat)
    requires a <= b <= |t|
    ensures ItemMatches(u, Rep(Space, 0, None), t[a..b]) <==> forall i :: a <= i < b ==> u.isSpace(t[i])
    ensures ItemMatches(u, Rep(Digit, 1, None), t[a..b]) <==> a < b && forall i :: a <= i < b ==> u.isDigit(t[i])
    ensures ItemMatches(u, Rep(Separated(), 0, None), t[a..b]) <==>
              forall i :: a <= i < b ==> u.isDigit(t[i]) || t[i] == ',' || t[i] == '.'
    ensures ItemMatches(u, Alt(PREFIXES), t[a..b]) <==> a == b || IsPeriod(t[a..b])
    ensures ItemMatches(u, Alt(UNITS), t[a..b]) <==> IsUnit(t[a..b])
  {
    AllInSlice(u, Space, t, a, b);
    AllInSlice(u, Digit, t, a, b);
    AllInSlice(u, Separated(), t, a, b);
    Prefixes(t[a..b]);
    Units(t[a..b]);
    SeparatedChars(u);
    hide AllIn, IsPeriod, IsUnit, Separated, PREFIXES, UNITS;
    assert t[a..b] == "" <==> a == b;
  }

  lemma SeparatedChars(u: Alphabet)
    ensures forall c :: In(u, Separated(), c) <==> u.isDigit(c) || c == ',' || c == '.'
  {
    forall c ensures In(u, Separated(), c) <==> u.isDigit(c) || c == ',' || c == '.' {
      assert In(u, Or(Char(','), Char('.')), c) <==> In(u, Char(','), c) || In(u, Char('.'), c);
      assert In(u, Digit, c) <==> u.isDigit(c);
    }
  }

  lemma LeftEdge(u: Alphabet, t: string, start: nat)
    requires start <= |t|
    ensures !Blocked(u, Some(Or(Char('제'), Word)), t, start - 1) <==>
              (start > 0 ==> t[start - 1] != '제' && !u.isWord(t[start - 1]))
    ensures !Blocked(u, None, t, start)
  {
    forall c ensures In(u, Or(Char('제'), Word), c) <==> c == '제' || u.isWord(c) {
      assert In(u, Char('제'), c) <==> c == '제';
      assert In(u, Word, c) <==> u.isWord(c);
    }
  }

  lemma MatchIsNumber(u: Alphabet, t: string, m: Match)
    requires IsMatch(u, NumericPattern(), t, m)
    ensures NumberAt(u, t, m.start, m.end)
  {
    PatternParts();
    hide *;
    MatchFacts(u, NumericPattern(), t, m);
    var i5 := Then(Alt(UNITS), End);
    var i4 := Then(Rep(Space, 0, None), i5);
    var i3 := Then(Rep(Separated(), 0, None), i4);
    var i2 := Then(Rep(Digit, 1, None), i3);
    var i1 := Then(Rep(Space, 0, None), i2);
    FitsPiece(u, t, m.start, Alt(PREFIXES), i1, None, m.lens);
    var a, l1 := m.start + m.lens[0], m.lens[1..];
    FitsPiece(u, t, a, Rep(Space, 0, None), i2, None, l1);
    var b, l2 := a + l1[0], l1[1..];
    FitsPiece(u, t, b, Rep(Digit, 1, None), i3, None, l2);
    var c, l3 := b + l2[0], l2[1..];
    FitsPiece(u, t, c, Rep(Separated(), 0, None), i4, None, l3);
    var d, l4 := c + l3[0], l3[1..];
    FitsPiece(u, t, d, Rep(Space, 0, None), i5, None, l4);
    var e, l5 := d + l4[0], l4[1..];
    FitsPiece(u, t, e, Alt(UNITS), End, None, l5);
    FitsEnd(u, t, e + l5[0], None, l5[1..]);
    NoLengths();
    LeftEdge(u, t, m.start);
    PiecesCut(u, t, m.start, a, b, c, d, e, m.end);
    NumberBy(u, t, m.start, a, b, c, d, e, m.end);
  }

  lemma NoLengths()
    ensures Total([]) == 0
  {
  }

  lemma NumberBy(u: Alphabet, t: string, start: nat, a: nat, b: nat, c: nat, d: nat, e: nat, end: nat)
    requires NumberCut(u, t, start, a, b, c, d, e, end)
    requires start <= |t| && (start > 0 ==> t[start - 1] != '제' && !u.isWord(t[start - 1]))
    ensures NumberAt(u, t, start, end)
  {
  }

  /** The pieces between the cuts match the six items. */
  lemma PiecesCut(u: Alphabet, t: string, start: nat, a: nat, b: nat, c: nat, d: nat, e: nat, end: nat)
    requires start <= a <= b <= c <= d <= e <= end <= |t|
    ensures NumberCut(u, t, start, a, b, c, d, e, end) <==>
              && ItemMatches(u, Alt(PREFIXES), t[start..a]) && ItemMatches(u, Rep(Space, 0, None), t[a..b])
              && ItemMatches(u, Rep(Digit, 1, None), t[b..c]) && ItemMatches(u, Rep(Separated(), 0, None), t[c..d])
              && ItemMatches(u, Rep(Space, 0, None), t[d..e]) && ItemMatches(u, Alt(UNITS), t[e..end])
  {
    PieceChars(u, t, start, a);
    PieceChars(u, t, a, b);
    PieceChars(u, t, b, c);
    PieceChars(u, t, c, d);
    PieceChars(u, t, d, e);
    PieceChars(u, t, e, end);
    hide ItemMatches, IsPeriod, IsUnit, Separated;
  }

  lemma CutMatches(u: Alphabet, t: string, start: nat, a: nat, b: nat, c: nat, d: nat, e: nat, end: nat)
    returns (lens: seq<nat>)
    requires start <= a <= b <= c <= d <= e <= end <= |t| && NumberCut(u, t, start, a, b, c, d, e, end)
    ensures Fits(u, t, start, NumericPattern().items, None, lens) && Total(lens) == end - start
  {
    hide *;
    PatternParts();
    PiecesCut(u, t, start, a, b, c, d, e, end);
    var i5 := Then(Alt(UNITS), End);
    var i4 := Then(Rep(Space, 0, None), i5);
    var i3 := Then(Rep(Separated(), 0, None), i4);
    var i2 := Then(Rep(Digit, 1, None), i3);
    LeftEdge(u, t, end);
    FitsEnd(u, t, end, None, []);
    NoLengths();
    var l5 := PieceFits(u, t, e, Alt(UNITS), End, None, end - e, []);
    var l4 := PieceFits(u, t, d, Rep(Space, 0, None), i5, None, e - d, l5);
    var l3 := PieceFits(u, t, c, Rep(Separated(), 0, None), i4, None, d - c, l4);
    var l2 := PieceFits(u, t, b, Rep(Digit, 1, None), i3, None, c - b, l3);
    var l1 := PieceFits(u, t, a, Rep(Space, 0, None), i2, None, b - a, l2);
    lens := PieceFits(u, t, start, Alt(PREFIXES), Then(Rep(Space, 0, None), i2), None, a - start, l1);
  }

  lemma CutsOf(u: Alphabet, t: string, start: nat, end: nat) returns (a: nat, b: nat, c: nat, d: nat, e: nat)
    requires NumberAt(u, t, start, end)
    ensures start <= a <= b < c <= d <= e <= end <= |t| && NumberCut(u, t, start, a, b, c, d, e, end)
    ensures start > 0 ==> t[start - 1] != '제' && !u.isWord(t[start - 1])
  {
    a, b, c, d, e :| NumberCut(u, t, start, a, b, c, d, e, end);
  }

  lemma NumberMatches(u: Alphabet, t: string, start: nat, end: nat) returns (lens: seq<nat>)
    requires NumberAt(u, t, start, end)
    ensures IsMatch(u, NumericPattern(), t, Match(start, end, lens))
  {
    hide *;
    PatternParts();
    var a, b, c, d, e := CutsOf(u, t, start, end);
    LeftEdge(u, t, start);
    lens := CutMatches(u, t, start, a, b, c, d, e, end);
    PartsMatch(u, NumericPattern(), t, Match(start, end, lens));
  }

  /** What counts as a number with a unit. */
  lemma NumbersMean(u: Alphabet, t: string, start: nat, end: nat)
    ensures (exists lens :: IsMatch(u, NumericPattern(), t, Match(start, end, lens))) <==> NumberAt(u, t, start, end)
  {
    hide *;
    if lens :| IsMatch(u, NumericPattern(), t, Match(start, end, lens)) {
      MatchIsNumber(u, t, Match(start, end, lens));
    }
    if NumberAt(u, t, start, end) { var lens := NumberMatches(u, t, start, end); }
  }

  // ---------------------------------------------------------------- the verdict

  /** `idx` goes up through the matches whose text `raw` does not ground, and `r` is their texts. */
  ghost predicate Misses(answer: string, raw: string, ms: seq<Match>, idx: seq<nat>, r: seq<string>)
    requires forall i :: 0 <= i < |ms| ==> ms[i].start <= ms[i].end <= |answer|
  {
    && |r| == |idx| && (forall j :: 0 <= j < |idx| ==> idx[j] < |ms|)
    && (forall j, k :: 0 <= j < k < |idx| ==> idx[j] < idx[k])
    && (forall i: nat :: i < |ms| ==> (i in idx <==> !IsGrounded(answer[ms[i].start..ms[i].end], raw)))
    && (forall j :: 0 <= j < |r| ==> r[j] == answer[ms[idx[j]].start..ms[idx[j]].end])
  }

  ghost predicate Picked(exprs: seq<string>, raw: string, from: nat, idx: seq<nat>, r: seq<string>)
    requires from <= |exprs|
  {
    && |r| == |idx| && (forall j :: 0 <= j < |idx| ==> from <= idx[j] < |exprs| && r[j] == exprs[idx[j]])
    && (forall j, k :: 0 <= j < k < |idx| ==> idx[j] < idx[k])
    && (forall i: nat :: from <= i < |exprs| ==> (i in idx <==> !IsGrounded(exprs[i], raw)))
  }

  lemma {:induction false} UngroundedPicks(exprs: seq<string>, raw: string, from: nat) returns (idx: seq<nat>)
    requires from <= |exprs|
    ensures Picked(exprs, raw, from, idx, Ungrounded(exprs[from..], raw))
    decreases |exprs| - from
  {
    hide IsGrounded;
    if from == |exprs| { return []; }
    var rest := UngroundedPicks(exprs, raw, from + 1);
    assert exprs[from..][0] == exprs[from] && exprs[from..][1..] == exprs[from + 1..];
    if IsGrounded(exprs[from], raw) {
      idx := rest;
      Unit(Ungrounded(exprs[from + 1..], raw));
    } else {
      idx := [from] + rest;
      PickedCons(exprs, raw, from, rest, Ungrounded(exprs[from + 1..], raw));
    }
  }

  lemma PickedCons(exprs: seq<string>, raw: string, from: nat, rest: seq<nat>, r: seq<string>)
    requires from < |exprs| && !IsGrounded(exprs[from], raw) && Picked(exprs, raw, from + 1, rest, r)
    ensures Picked(exprs, raw, from, [from] + rest, [exprs[from]] + r)
  {
    hide IsGrounded;
  }

  /**
   The verdict: an answer passes exactly when every number found in it is grounded in the joined texts;
   the misses are listed in order, and all numbers found are counted.
   */
  lemma VerdictMeaning(u: Alphabet, answer: string, texts: seq<string>)
    ensures MinLength(NumericPattern().items) > 0
    ensures var ms, raw, v := FindIter(u, NumericPattern(), answer), Join(texts, " "), Verified(u, answer, texts);
            && (forall i :: 0 <= i < |ms| ==> ms[i].start <= ms[i].end <= |answer|)
            && v.total == |ms|
            && (v.passed <==> forall m :: m in ms ==> IsGrounded(answer[m.start..m.end], raw))
            && exists idx :: Misses(answer, raw, ms, idx, v.ungrounded)
  {
    var exprs := ExtractedAre(u, answer);
    NumericNonEmpty();
    var ms, raw := FindIter(u, NumericPattern(), answer), Join(texts, " ");
    var idx := UngroundedPicks(exprs, raw, 0);
    assert exprs[0..] == exprs;
    hide FindIter, NumericPattern, IsGrounded, Ungrounded, Join, ExtractNumbers, MinLength, Picked;
    PickedMisses(answer, raw, ms, exprs, idx, Ungrounded(exprs, raw));
  }

  lemma ExtractedAre(u: Alphabet, answer: string) returns (exprs: seq<string>)
    ensures MinLength(NumericPattern().items) > 0 && exprs == ExtractNumbers(u, answer)
    ensures var ms := FindIter(u, NumericPattern(), answer);
            |exprs| == |ms| && forall i :: 0 <= i < |ms| ==>
              ms[i].start <= ms[i].end <= |answer| && exprs[i] == answer[ms[i].start..ms[i].end]
  {
    NumericNonEmpty();
    FindIterSpec(u, NumericPattern(), answer);
    exprs := ExtractNumbers(u, answer);
    hide FindIter, NumericPattern, Fits, Blocked, Matchable, Covered;
  }

  lemma PickedMisses(answer: string, raw: string, ms: seq<Match>, exprs: seq<string>, idx: seq<nat>, r: seq<string>)
    requires |exprs| == |ms| && Picked(exprs, raw, 0, idx, r)
    requires forall i :: 0 <= i < |ms| ==>
               ms[i].start <= ms[i].end <= |answer| && exprs[i] == answer[ms[i].start..ms[i].end]
    ensures Misses(answer, raw, ms, idx, r)
    ensures r == [] <==> forall m :: m in ms ==> IsGrounded(answer[m.start..m.end], raw)
  {
    hide IsGrounded;
    if r != [] { assert ms[idx[0]] in ms; }
    if r == [] {
      forall m | m in ms ensures IsGrounded(answer[m.start..m.end], raw) {
        var i: nat :| i < |ms| && ms[i] == m;
        assert i in idx <==> !IsGrounded(exprs[i], raw);
      }
    }
  }

  /** No number is overlooked: the first character of each lies in one that is found. */
  lemma NumbersAreFound(u: Alphabet, t: string, start: nat, end: nat)
    requires NumberAt(u, t, start, end)
    ensures MinLength(NumericPattern().items) > 0 && Covered(FindIter(u, NumericPattern(), t), start)
  {
    hide *;
    var lens := NumberMatches(u, t, start, end);
    MatchFacts(u, NumericPattern(), t, Match(start, end, lens));
    MatchableAt(u, NumericPattern(), t, start, lens);
    NumericNonEmpty();
    FindIterSpec(u, NumericPattern(), t);
  }

  lemma MatchableAt(u: Alphabet, p: Pattern, text: string, at: nat, lens: seq<nat>)
    requires at <= |text| && !Blocked(u, p.behind, text, at - 1) && Fits(u, text, at, p.items, p.ahead, lens)
    ensures Matchable(u, p, text, at)
  {
  }

  // ---------------------------------------------------------------- forms

  predicate Separator(c: char) { c == ',' || c == ' ' }

  /** Normalizing drops the commas and the spaces and nothing else. */
  lemma {:induction false} NormalizeMeaning(s: string)
    ensures Normalize(s) == Ink(Separator, s)
  {
    if s != "" {
      NormalizeMeaning(s[1..]);
      var c := s[0];
      assert s == [c] + s[1..];
      RemoveConcat([c], s[1..], ',');
      RemoveConcat(Remove([c], ','), Remove(s[1..], ','), ' ');
    }
  }

  /** Words for the same period. */
  const PERIODS: seq<set<string>> :=
    [{"반기", "6개월", "반년"}, {"분기", "3개월"}, {"연", "1년", "12개월"}, {"월", "30일"}]

  ghost predicate SamePeriod(a: string, b: string) {
    a != b && exists p :: p in PERIODS && a in p && b in p
  }

  ghost predicate StandsFor(key: string, form: string) {
    exists e :: e in EQUIVALENTS && e.key == key && form in e.forms
  }

  /** The table, word by word. */
  ghost predicate Listed(key: string, form: string) {
    || (key == "반기" && form in {"6개월", "반년"}) || (key == "6개월" && form in {"반기", "반년"})
    || (key == "분기" && form == "3개월") || (key == "3개월" && form == "분기")
    || (key == "연" && form in {"1년", "12개월"}) || (key == "1년" && form in {"연", "12개월"})
    || (key == "12개월" && form in {"연", "1년"})
    || (key == "월" && form == "30일") || (key == "30일" && form == "월")
  }

  lemma Rows(e: Equivalence)
    ensures e in EQUIVALENTS <==>
      || e == Equivalence("반기", ["6개월", "반년"]) || e == Equivalence("6개월", ["반기", "반년"])
      || e == Equivalence("분기", ["3개월"]) || e == Equivalence("3개월", ["분기"])
      || e == Equivalence("연", ["1년", "12개월"]) || e == Equivalence("1년", ["연", "12개월"])
      || e == Equivalence("12개월", ["연", "1년"])
      || e == Equivalence("월", ["30일"]) || e == Equivalence("30일", ["월"])
  {
  }

  lemma TableLists(key: string, form: string)
    ensures StandsFor(key, form) <==> Listed(key, form)
  {
    forall e: Equivalence { Rows(e); }
    hide EQUIVALENTS;
    if Listed(key, form) {
      if key == "반기" { assert Equivalence("반기", ["6개월", "반년"]) in EQUIVALENTS; }
      else if key == "6개월" { assert Equivalence("6개월", ["반기", "반년"]) in EQUIVALENTS; }
      else if key == "분기" { assert Equivalence("분기", ["3개월"]) in EQUIVALENTS; }
      else if key == "3개월" { assert Equivalence("3개월", ["분기"]) in EQUIVALENTS; }
      else if key == "연" { assert Equivalence("연", ["1년", "12개월"]) in EQUIVALENTS; }
      else if key == "1년" { assert Equivalence("1년", ["연", "12개월"]) in EQUIVALENTS; }
      else if key == "12개월" { assert Equivalence("12개월", ["연", "1년"]) in EQUIVALENTS; }
      else if key == "월" { assert Equivalence("월", ["30일"]) in EQUIVALENTS; }
      else { assert Equivalence("30일", ["월"]) in EQUIVALENTS; }
    }
  }

  lemma PeriodsList(key: string, form: string)
    ensures SamePeriod(key, form) && key != "반년" <==> Listed(key, form)
  {
    if Listed(key, form) {
      assert PERIODS[0] in PERIODS && PERIODS[1] in PERIODS && PERIODS[2] in PERIODS && PERIODS[3] in PERIODS;
    }
  }

  /** A form may stand for a word exactly when both name the same period; only one word has no forms of its own. */
  lemma FormsArePeriods(key: string, form: string)
    ensures StandsFor(key, form) <==> SamePeriod(key, form) && key != "반년"
  {
    hide *;
    TableLists(key, form);
    PeriodsList(key, form);
  }
}
