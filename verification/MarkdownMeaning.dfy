/**
 What the Markdown parser of backend/app/services/chunking/header.py takes for a heading, and which
 sections it returns, said about the characters of the text.
 */
module MarkdownMeaning {
  import opened Prelude
  import opened Strings
  import opened Regex
  import opened SectionHeaders

  // ---------------------------------------------------------------- headings

  /** A line begins at `i`. */
  predicate LineStart(text: string, i: nat)
    requires i <= |text|
  {
    i == 0 || text[i - 1] == '\n'
  }

  /** A line ends at `i`. */
  predicate LineEnd(text: string, i: nat)
    requires i <= |text|
  {
    i == |text| || text[i] == '\n'
  }

  /** `level` hash signs, white space up to `title`, and the rest of the title's line. */
  ghost predicate Headed(u: Alphabet, text: string, start: nat, level: nat, title: nat, end: nat) {
    && start + level < title < end <= |text| && 1 <= level <= 3
    && LineStart(text, start) && LineEnd(text, end)
    && (forall i :: start <= i < start + level ==> text[i] == '#')
    && (forall i :: start + level <= i < title ==> u.isSpace(text[i]))
    && (forall i :: title <= i < end ==> text[i] != '\n')
  }

  /** The three items of the heading pattern, and what may stand around a heading. */
  lemma PatternParts()
    ensures HeadingPattern() ==
            Pattern(Some(Not(Char('\n'))),
                    Then(Rep(Char('#'), 1, Some(3)),
                    Then(Rep(Space, 1, None), Then(Rep(Not(Char('\n')), 1, None), End))),
                    Some(Not(Char('\n'))))
  {
  }

  lemma LineBounds(u: Alphabet, text: string, i: nat)
    requires i <= |text|
    ensures !Blocked(u, Some(Not(Char('\n'))), text, i - 1) <==> LineStart(text, i)
    ensures !Blocked(u, Some(Not(Char('\n'))), text, i) <==> LineEnd(text, i)
  {
    forall c ensures In(u, Not(Char('\n')), c) <==> c != '\n' { assert In(u, Char('\n'), c) <==> c == '\n'; }
  }

  lemma PieceChars(u: Alphabet, text: string, a: nat, b: nat)
    requires a <= b <= |text|
    ensures ItemMatches(u, Rep(Char('#'), 1, Some(3)), text[a..b]) <==>
              1 <= b - a <= 3 && forall i :: a <= i < b ==> text[i] == '#'
    ensures ItemMatches(u, Rep(Space, 1, None), text[a..b]) <==> a < b && forall i :: a <= i < b ==> u.isSpace(text[i])
    ensures ItemMatches(u, Rep(Not(Char('\n')), 1, None), text[a..b]) <==>
              a < b && forall i :: a <= i < b ==> text[i] != '\n'
  {
    forall c ensures In(u, Not(Char('\n')), c) <==> c != '\n' { assert In(u, Char('\n'), c) <==> c == '\n'; }
    AllInSlice(u, Char('#'), text, a, b);
    AllInSlice(u, Space, text, a, b);
    AllInSlice(u, Not(Char('\n')), text, a, b);
    hide AllIn;
    assert forall i :: a <= i < b ==> (In(u, Not(Char('\n')), text[i]) <==> text[i] != '\n');
  }

  /** A match of the pattern is a heading. */
  lemma MatchIsHeaded(u: Alphabet, text: string, m: Match)
    requires IsMatch(u, HeadingPattern(), text, m)
    ensures |m.lens| == 3 && m.end == m.start + m.lens[0] + m.lens[1] + m.lens[2]
    ensures Headed(u, text, m.start, m.lens[0], m.start + m.lens[0] + m.lens[1], m.end)
  {
    PatternParts();
    hide *;
    MatchFacts(u, HeadingPattern(), text, m);
    var ahead := Some(Not(Char('\n')));
    var i2 := Then(Rep(Not(Char('\n')), 1, None), End);
    var i1 := Then(Rep(Space, 1, None), i2);
    var l0 := m.lens;
    FitsPiece(u, text, m.start, Rep(Char('#'), 1, Some(3)), i1, ahead, l0);
    var a, l1 := m.start + l0[0], l0[1..];
    FitsPiece(u, text, a, Rep(Space, 1, None), i2, ahead, l1);
    var b, l2 := a + l1[0], l1[1..];
    FitsPiece(u, text, b, Rep(Not(Char('\n')), 1, None), End, ahead, l2);
    FitsEnd(u, text, b + l2[0], ahead, l2[1..]);
    TotalNone();
    PieceChars(u, text, m.start, a);
    PieceChars(u, text, a, b);
    PieceChars(u, text, b, m.end);
    LineBounds(u, text, m.start);
    LineBounds(u, text, m.end);
    HeadedBy(u, text, m.start, l0[0], b, m.end);
  }

  lemma TotalNone()
    ensures Total([]) == 0
  {
  }

  lemma HeadedBy(u: Alphabet, text: string, start: nat, level: nat, title: nat, end: nat)
    requires start + level < title < end <= |text| && 1 <= level <= 3
    requires LineStart(text, start) && LineEnd(text, end)
    requires forall i :: start <= i < start + level ==> text[i] == '#'
    requires forall i :: start + level <= i < title ==> u.isSpace(text[i])
    requires forall i :: title <= i < end ==> text[i] != '\n'
    ensures Headed(u, text, start, level, title, end)
  {
  }

  /** Where a heading is written, the pattern matches. */
  lemma HeadedMatches(u: Alphabet, text: string, start: nat, level: nat, title: nat, end: nat)
    requires Headed(u, text, start, level, title, end)
    ensures start < |text| && Matchable(u, HeadingPattern(), text, start)
  {
    PatternParts();
    PieceChars(u, text, start, start + level);
    PieceChars(u, text, start + level, title);
    PieceChars(u, text, title, end);
    LineBounds(u, text, start);
    LineBounds(u, text, end);
    hide Fits, ItemMatches, Blocked, HeadingPattern, LineStart, LineEnd;
    var ahead := Some(Not(Char('\n')));
    var i2 := Then(Rep(Not(Char('\n')), 1, None), End);
    FitsEnd(u, text, end, ahead, []);
    var l2 := PieceFits(u, text, title, i2.item, End, ahead, end - title, []);
    var l1 := PieceFits(u, text, start + level, Rep(Space, 1, None), i2, ahead, title - start - level, l2);
    var l0 := PieceFits(u, text, start, Rep(Char('#'), 1, Some(3)), Then(Rep(Space, 1, None), i2), ahead, level, l1);
  }

  lemma FoundHeading(u: Alphabet, text: string, i: nat)
    requires i < |HeadingMatches(u, text)|
    ensures var ms := HeadingMatches(u, text);
            HeadingRun(text, ms) && IsMatch(u, HeadingPattern(), text, ms[i])
            && Headings(u, text, ms)[i] == HeadingOf(u, text, ms[i])
  {
    HeadingMatchesRun(u, text);
    HeadingNonEmpty();
    FindIterSpec(u, HeadingPattern(), text);
    hide FindIter, HeadingPattern, HeadingOf;
  }

  /** White space in front does not show in the stripped text. */
  lemma {:induction false} StripSkips(space: char -> bool, s: string, n: nat)
    requires n <= |s| && forall i :: 0 <= i < n ==> space(s[i])
    ensures Strip(space, s) == Strip(space, s[n..])
  {
    if n > 0 {
      StripSkips(space, s[1..], n - 1);
      assert s[1..][n - 1..] == s[n..];
      var k := Leading(space, s[1..]);
      assert StripLeft(space, s) == StripLeft(space, s[1..]) by { assert s[1 + k..] == s[1..][k..]; }
    } else {
      assert s[0..] == s;
    }
  }

  lemma HeadingIs(u: Alphabet, text: string, m: Match)
    requires Cut(m) && m.end <= |text|
    ensures m.start + m.lens[0] + m.lens[1] <= m.end
    ensures HeadingOf(u, text, m) == Heading(m.lens[0], Strip(u.isSpace, text[m.start + m.lens[0] + m.lens[1]..m.end]))
  {
    hide Strip;
  }

  lemma GapSkipped(u: Alphabet, text: string, a: nat, b: nat, end: nat)
    requires a <= b <= end <= |text| && forall i :: a <= i < b ==> u.isSpace(text[i])
    ensures Strip(u.isSpace, text[a..end]) == Strip(u.isSpace, text[b..end])
  {
    var s := text[a..end];
    hide Strip;
    StripSkips(u.isSpace, s, b - a);
    assert s[b - a..] == text[b..end];
  }

  lemma RunCuts(text: string, ms: seq<Match>, i: nat)
    requires HeadingRun(text, ms) && i < |ms|
    ensures Cut(ms[i]) && ms[i].end <= |text|
  {
  }

  /** `m` reads as the heading `h`. */
  ghost predicate ReadsAs(u: Alphabet, text: string, m: Match, h: Heading) {
    && m.start + h.level < m.end <= |text|
    && (exists title :: Headed(u, text, m.start, h.level, title, m.end))
    && h.title == Strip(u.isSpace, text[m.start + h.level..m.end])
  }

  lemma ReadsBy(u: Alphabet, text: string, m: Match, h: Heading, title: nat)
    requires Headed(u, text, m.start, h.level, title, m.end) && h.title == Strip(u.isSpace, text[title..m.end])
    ensures ReadsAs(u, text, m, h)
  {
    hide Strip, LineStart, LineEnd;
    GapSkipped(u, text, m.start + h.level, title, m.end);
  }

  /**
   Every heading the parser finds: it begins a line with as many hash signs as its level, one to three,
   and white space; it ends where a line ends; its title is what follows the signs, stripped.
   */
  lemma HeadingMeaning(u: Alphabet, text: string, i: nat)
    requires i < |HeadingMatches(u, text)|
    ensures var ms := HeadingMatches(u, text);
            HeadingRun(text, ms) && ReadsAs(u, text, ms[i], Headings(u, text, ms)[i])
  {
    hide *;
    FoundHeading(u, text, i);
    var ms := HeadingMatches(u, text);
    RunCuts(text, ms, i);
    MatchIsHeaded(u, text, ms[i]);
    HeadingIs(u, text, ms[i]);
    var h := HeadingOf(u, text, ms[i]);
    ReadsBy(u, text, ms[i], h, ms[i].start + h.level + ms[i].lens[1]);
  }

  /** No heading is overlooked: wherever one is written, a heading found by the parser covers its first sign. */
  lemma HeadingsAreFound(u: Alphabet, text: string, start: nat, level: nat, title: nat, end: nat)
    requires Headed(u, text, start, level, title, end)
    ensures Covered(HeadingMatches(u, text), start)
  {
    HeadedMatches(u, text, start, level, title, end);
    HeadingNonEmpty();
    FindIterSpec(u, HeadingPattern(), text);
    hide FindIter, HeadingPattern, Matchable, Covered;
  }

  // ---------------------------------------------------------------- sections

  /** The text between heading `i` and the next one, or the end. */
  function GapAfter(text: string, ms: seq<Match>, i: nat): string
    requires i < |ms| && HeadingRun(text, ms)
  {
    text[ms[i].end..if i + 1 < |ms| then ms[i + 1].start else |text|]
  }

  ghost predicate Blank(u: Alphabet, s: string) { forall i :: 0 <= i < |s| ==> u.isSpace(s[i]) }

  /** `idx` goes up through the headings with some ink before the next heading. */
  ghost predicate Inked(u: Alphabet, text: string, ms: seq<Match>, n: nat, idx: seq<nat>)
    requires HeadingRun(text, ms) && n <= |ms|
  {
    && (forall j :: 0 <= j < |idx| ==> idx[j] < n)
    && (forall j, k :: 0 <= j < k < |idx| ==> idx[j] < idx[k])
    && (forall i: nat :: i < n ==> (i in idx <==> !Blank(u, GapAfter(text, ms, i))))
  }

  /** One section per listed heading: the titles of its ancestors and itself, and the gap, stripped. */
  ghost predicate Sectioned(u: Alphabet, text: string, ms: seq<Match>, idx: seq<nat>, sections: seq<Section>)
    requires HeadingRun(text, ms)
  {
    && |sections| == |idx| && Levels(Headings(u, text, ms))
    && forall j :: 0 <= j < |idx| ==>
         && idx[j] < |ms|
         && sections[j].body == Strip(u.isSpace, GapAfter(text, ms, idx[j]))
         && sections[j].breadcrumb == Join(Path(Headings(u, text, ms), idx[j]), " > ")
  }

  lemma BodyIsGap(u: Alphabet, text: string, ms: seq<Match>, i: nat)
    requires i < |ms| && HeadingRun(text, ms)
    ensures Body(u, text, ms, i) == Strip(u.isSpace, GapAfter(text, ms, i))
    ensures Body(u, text, ms, i) == "" <==> Blank(u, GapAfter(text, ms, i))
  {
    StripBlank(u.isSpace, GapAfter(text, ms, i));
    hide Strip;
  }

  lemma {:induction false} HeadedMeaning(u: Alphabet, text: string, ms: seq<Match>, n: nat) returns (idx: seq<nat>)
    requires n <= |ms| && HeadingRun(text, ms)
    ensures Inked(u, text, ms, n, idx) && Sectioned(u, text, ms, idx, HeadedSections(u, text, ms, n))
  {
    hide *;
    if n == 0 {
      idx := [];
      NoSections(u, text, ms);
    } else {
      RunCuts(text, ms, n - 1);
      var front := HeadedMeaning(u, text, ms, n - 1);
      BodyIsGap(u, text, ms, n - 1);
      idx := front + if Blank(u, GapAfter(text, ms, n - 1)) then [] else [n - 1];
      InkedSnoc(u, text, ms, n - 1, front);
      SectionedLevels(u, text, ms, front, HeadedSections(u, text, ms, n - 1));
      NextSection(u, text, ms, n - 1);
      if Blank(u, GapAfter(text, ms, n - 1)) {
        Unit(front);
      } else {
        SectionedSnoc(u, text, ms, front, HeadedSections(u, text, ms, n - 1), n - 1);
      }
    }
  }

  lemma NoSections(u: Alphabet, text: string, ms: seq<Match>)
    requires HeadingRun(text, ms)
    ensures Inked(u, text, ms, 0, []) && Sectioned(u, text, ms, [], HeadedSections(u, text, ms, 0))
  {
    HeadingsLevels(u, text, ms);
    hide Headings, Levels;
  }

  lemma SectionedLevels(u: Alphabet, text: string, ms: seq<Match>, idx: seq<nat>, sections: seq<Section>)
    requires HeadingRun(text, ms) && Sectioned(u, text, ms, idx, sections)
    ensures Levels(Headings(u, text, ms))
  {
    hide Headings, Levels;
  }

  lemma NextSection(u: Alphabet, text: string, ms: seq<Match>, i: nat)
    requires i < |ms| && HeadingRun(text, ms) && Levels(Headings(u, text, ms))
    ensures HeadedSections(u, text, ms, i + 1) ==
            if Blank(u, GapAfter(text, ms, i)) then HeadedSections(u, text, ms, i)
            else HeadedSections(u, text, ms, i) + [SectionOf(u, text, ms, i)]
  {
    BodyIsGap(u, text, ms, i);
    Unit(HeadedSections(u, text, ms, i));
    hide Blank, GapAfter, Strip, Path, Join, Headings, Levels, Body;
  }

  function SectionOf(u: Alphabet, text: string, ms: seq<Match>, i: nat): Section
    requires i < |ms| && HeadingRun(text, ms)
  {
    Section(Join(Path(Headings(u, text, ms), i), " > "), Strip(u.isSpace, GapAfter(text, ms, i)))
  }

  lemma SectionedSnoc(u: Alphabet, text: string, ms: seq<Match>, idx: seq<nat>, sections: seq<Section>, i: nat)
    requires HeadingRun(text, ms) && Sectioned(u, text, ms, idx, sections) && i < |ms|
    ensures Sectioned(u, text, ms, idx + [i], sections + [SectionOf(u, text, ms, i)])
  {
    hide Strip, Path, Join, Headings, Levels, HeadingRun, GapAfter;
  }

  lemma InkedSnoc(u: Alphabet, text: string, ms: seq<Match>, n: nat, front: seq<nat>)
    requires HeadingRun(text, ms) && n < |ms| && Inked(u, text, ms, n, front)
    ensures Inked(u, text, ms, n + 1, front + if Blank(u, GapAfter(text, ms, n)) then [] else [n])
  {
    hide Blank, GapAfter, HeadingRun;
  }

  /**
   The sections of a Markdown text: the whole text without headings; else the stripped text before the
   first heading, if it has ink, and one section for each heading with ink under it.
   */
  lemma SectionsMeaning(u: Alphabet, text: string)
    ensures var ms := HeadingMatches(u, text);
            HeadingRun(text, ms) &&
            if ms == [] then MarkdownSections(u, text) == [Section("", text)]
            else exists idx, headed ::
              && Inked(u, text, ms, |ms|, idx) && Sectioned(u, text, ms, idx, headed)
              && MarkdownSections(u, text) ==
                 (if Blank(u, text[..ms[0].start]) then []
                  else [Section("", Strip(u.isSpace, text[..ms[0].start]))]) + headed
  {
    HeadingMatchesRun(u, text);
    var ms := HeadingMatches(u, text);
    hide HeadingMatches, Blank, Strip, Sectioned, Inked, HeadedSections;
    if ms != [] {
      var idx := HeadedMeaning(u, text, ms, |ms|);
      PreambleInk(u, text, ms);
    }
  }

  lemma PreambleInk(u: Alphabet, text: string, ms: seq<Match>)
    requires ms != [] && HeadingRun(text, ms)
    ensures Preamble(u, text, ms) == Strip(u.isSpace, text[..ms[0].start])
    ensures Preamble(u, text, ms) == "" <==> Blank(u, text[..ms[0].start])
  {
    StripBlank(u.isSpace, text[..ms[0].start]);
    hide Strip;
  }

  // ---------------------------------------------------------------- an example

  const NESTED := "# A\n## B\nbody"

  /** Letters and the hash sign are not white space. */
  ghost predicate PlainLetters(u: Alphabet) {
    Sane(u) && forall c :: c in "#ABbody" ==> !u.isSpace(c)
  }

  /** Where a line of `NESTED` can begin with hash signs. */
  lemma NestedHeaded(u: Alphabet, start: nat, level: nat, title: nat, end: nat)
    requires PlainLetters(u) && Headed(u, NESTED, start, level, title, end)
    ensures (start, level, title, end) == (0, 1, 2, 3) || (start, level, title, end) == (4, 2, 7, 8)
  {
    var t := NESTED;
    assert t[0] == '#' && t[1] == ' ' && t[2] == 'A' && t[3] == '\n' && t[4] == '#' && t[5] == '#' && t[6] == ' ';
    assert t[7] == 'B' && t[8] == '\n' && t[9] == 'b' && |t| == 13;
    assert t[start] == '#' && start in {0, 4, 5};
    assert level == if start == 0 then 1 else 2;
    assert !u.isSpace(t[2]) && !u.isSpace(t[7]);
  }

  lemma NestedLens(u: Alphabet, m: Match)
    requires PlainLetters(u) && IsMatch(u, HeadingPattern(), NESTED, m)
    ensures m == Match(0, 3, [1, 1, 1]) || m == Match(4, 8, [2, 1, 1])
  {
    hide *;
    MatchIsHeaded(u, NESTED, m);
    NestedHeaded(u, m.start, m.lens[0], m.start + m.lens[0] + m.lens[1], m.end);
  }

  lemma NestedFound(u: Alphabet)
    requires PlainLetters(u)
    ensures Covered(HeadingMatches(u, NESTED), 0) && Covered(HeadingMatches(u, NESTED), 4)
  {
    assert Headed(u, NESTED, 0, 1, 2, 3) && Headed(u, NESTED, 4, 2, 7, 8);
    hide Headed, HeadingMatches, Covered;
    HeadingsAreFound(u, NESTED, 0, 1, 2, 3);
    HeadingsAreFound(u, NESTED, 4, 2, 7, 8);
  }

  lemma NestedRun(u: Alphabet)
    requires PlainLetters(u)
    ensures var ms := HeadingMatches(u, NESTED);
            && (forall i :: 0 <= i < |ms| ==> ms[i] == Match(0, 3, [1, 1, 1]) || ms[i] == Match(4, 8, [2, 1, 1]))
            && (forall i, j :: 0 <= i < j < |ms| ==> ms[i].end <= ms[j].start)
  {
    HeadingMatchesRun(u, NESTED);
    var ms := HeadingMatches(u, NESTED);
    hide HeadingMatches, PlainLetters, NESTED;
    forall i | 0 <= i < |ms| ensures ms[i] == Match(0, 3, [1, 1, 1]) || ms[i] == Match(4, 8, [2, 1, 1]) {
      FoundHeading(u, NESTED, i);
      NestedLens(u, ms[i]);
    }
  }

  lemma CoveringMatch(ms: seq<Match>, at: nat) returns (i: nat)
    requires Covered(ms, at)
    ensures i < |ms| && ms[i].start <= at < ms[i].end
  {
    var m :| m in ms && m.start <= at < m.end;
    i :| 0 <= i < |ms| && ms[i] == m;
  }

  lemma NestedMatches(u: Alphabet)
    requires PlainLetters(u)
    ensures HeadingMatches(u, NESTED) == [Match(0, 3, [1, 1, 1]), Match(4, 8, [2, 1, 1])]
  {
    hide *;
    var ms := HeadingMatches(u, NESTED);
    NestedFound(u);
    NestedRun(u);
    var i := CoveringMatch(ms, 0);
    var j := CoveringMatch(ms, 4);
    TwoInOrder(ms, i, j);
  }

  lemma TwoInOrder(ms: seq<Match>, i: nat, j: nat)
    requires i < |ms| && j < |ms| && ms[i] == Match(0, 3, [1, 1, 1]) && ms[j] == Match(4, 8, [2, 1, 1])
    requires forall k :: 0 <= k < |ms| ==> ms[k] == ms[i] || ms[k] == ms[j]
    requires forall k, l :: 0 <= k < l < |ms| ==> ms[k].end <= ms[l].start
    ensures ms == [ms[i], ms[j]]
  {
    forall k, l | 0 <= k < l < |ms| ensures ms[k].start < ms[l].start {}
    assert |ms| > 2 ==> ms[0].start < ms[1].start < ms[2].start;
  }

  lemma {:induction false} StripKeeps(space: char -> bool, s: string)
    requires s != "" ==> !space(s[0]) && !space(s[|s| - 1])
    ensures Strip(space, s) == s
  {
    assert Leading(space, s) == 0 && s[0..] == s;
    assert Trimmed(space, s) == |s| && s[..|s|] == s;
  }

  lemma NestedStrips(u: Alphabet)
    requires PlainLetters(u)
    ensures Strip(u.isSpace, "A") == "A" && Strip(u.isSpace, "B") == "B" && Strip(u.isSpace, "") == ""
    ensures Strip(u.isSpace, "\n") == "" && Strip(u.isSpace, "\nbody") == "body"
  {
    var text := "\nbody";
    hide Strip;
    StripKeeps(u.isSpace, "");
    StripKeeps(u.isSpace, "A");
    StripKeeps(u.isSpace, "B");
    StripKeeps(u.isSpace, "body");
    StripSkips(u.isSpace, "\n", 1);
    StripSkips(u.isSpace, text, 1);
    assert text[1..] == "body" && "\n"[1..] == "";
  }

  function Two(): seq<Match> { [Match(0, 3, [1, 1, 1]), Match(4, 8, [2, 1, 1])] }

  lemma TwoRun()
    ensures HeadingRun(NESTED, Two())
  {
  }

  lemma NestedTitles(u: Alphabet)
    requires PlainLetters(u)
    ensures HeadingRun(NESTED, Two()) && Headings(u, NESTED, Two()) == [Heading(1, "A"), Heading(2, "B")]
  {
    NestedStrips(u);
    TwoRun();
    assert NESTED[2..3] == "A" && NESTED[7..8] == "B";
    hide Strip, PlainLetters;
  }

  lemma NestedPath()
    ensures var hs := [Heading(1, "A"), Heading(2, "B")]; Join(Path(hs, 1), " > ") == "# A > ## B"
  {
    var hs := [Heading(1, "A"), Heading(2, "B")];
    assert hs[0].Label() == "# A" && hs[1].Label() == "## B";
    assert Nearest(hs, 1, 2) == Some(0) && Nearest(hs, 0, 1) == None;
    assert Path(hs, 1) == ["# A", "## B"];
    assert ["# A", "## B"][1..] == ["## B"];
  }

  lemma NestedGaps(u: Alphabet)
    requires PlainLetters(u)
    ensures HeadingRun(NESTED, Two())
    ensures Body(u, NESTED, Two(), 0) == "" && Body(u, NESTED, Two(), 1) == "body" && Preamble(u, NESTED, Two()) == ""
  {
    NestedStrips(u);
    TwoRun();
    assert NESTED[3..4] == "\n" && NESTED[8..13] == "\nbody" && NESTED[..0] == "";
    hide Strip, PlainLetters;
  }

  lemma NestedHeadedSections(u: Alphabet)
    requires PlainLetters(u)
    ensures HeadingRun(NESTED, Two()) && HeadedSections(u, NESTED, Two(), 2) == [Section("# A > ## B", "body")]
  {
    NestedGaps(u);
    NestedTitles(u);
    NestedPath();
    hide Body, Headings, Path, Join, PlainLetters, NESTED;
    assert HeadedSections(u, NESTED, Two(), 1) == [];
  }

  /** A heading of level two under one of level one: its breadcrumb names both, and the empty one has no section. */
  lemma NestedSections(u: Alphabet)
    requires PlainLetters(u)
    ensures MarkdownSections(u, NESTED) == [Section("# A > ## B", "body")]
  {
    NestedMatches(u);
    NestedGaps(u);
    NestedHeadedSections(u);
    assert HeadingMatches(u, NESTED) == Two();
    hide HeadingMatches, Body, Preamble, HeadedSections, PlainLetters, NESTED, HeadingRun;
  }
}
