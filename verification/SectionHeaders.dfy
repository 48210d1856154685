/** Cutting a text into sections with breadcrumbs (backend/app/services/chunking/header.py). */
module SectionHeaders {
  import opened Prelude
  import opened Strings
  import opened Regex

  datatype Section = Section(breadcrumb: string, body: string)

  // ---------------------------------------------------------------- the heading stack

  /** A heading: its level, and its label `# Title`. */
  datatype Heading = Heading(level: nat, title: string) {
    function Label(): (s: string)
      ensures s != ""
    {
      Repeat('#', level) + " " + title
    }
  }

  ghost predicate Levels(hs: seq<Heading>) {
    forall i :: 0 <= i < |hs| ==> 1 <= hs[i].level <= 3
  }

  const EMPTY_STACK: seq<string> := ["", "", ""]

  /** One heading sets its own slot and clears the deeper ones. */
  function Push(stack: seq<string>, h: Heading): (r: seq<string>)
    requires |stack| == 3 && 1 <= h.level <= 3
    ensures |r| == 3
    ensures forall k :: 0 <= k < 3 ==>
              r[k] == if k < h.level - 1 then stack[k] else if k == h.level - 1 then h.Label() else ""
  {
    match h.level
    case 1 => [h.Label(), "", ""]
    case 2 => [stack[0], h.Label(), ""]
    case _ => [stack[0], stack[1], h.Label()]
  }

  /** The stack after the first `n` headings. */
  function Stack(hs: seq<Heading>, n: nat): (r: seq<string>)
    requires Levels(hs) && n <= |hs|
    ensures |r| == 3
  {
    if n == 0 then EMPTY_STACK else Push(Stack(hs, n - 1), hs[n - 1])
  }

  /** The non-empty slots, outermost first. */
  function Crumbs(stack: seq<string>): seq<string> {
    if stack == [] then [] else (if stack[0] != "" then [stack[0]] else []) + Crumbs(stack[1..])
  }

  // What a slot means, without the stack.

  /** Among the first `n` headings, `j` is the last of level `k + 1` and none after it has a smaller level. */
  ghost predicate Governs(hs: seq<Heading>, n: nat, k: nat, j: nat)
    requires n <= |hs|
  {
    j < n && hs[j].level == k + 1 && forall i :: j < i < n ==> hs[i].level > k + 1
  }

  /** Slot k holds exactly the heading of level k + 1 that governs the position, and nothing if there is none. */
  lemma {:induction false} SlotMeaning(hs: seq<Heading>, n: nat, k: nat)
    requires Levels(hs) && n <= |hs| && k < 3
    ensures forall j: nat :: Governs(hs, n, k, j) ==> Stack(hs, n)[k] == hs[j].Label()
    ensures (forall j: nat :: !Governs(hs, n, k, j)) ==> Stack(hs, n)[k] == ""
    decreases n
  {
    if n > 0 {
      SlotMeaning(hs, n - 1, k);
      GovernsStep(hs, n, k);
      hide Governs;
      if hs[n - 1].level == k + 1 { assert Governs(hs, n, k, n - 1); }
    }
  }

  lemma GovernsStep(hs: seq<Heading>, n: nat, k: nat)
    requires 0 < n <= |hs|
    ensures forall j: nat :: Governs(hs, n, k, j) <==>
              if j == n - 1 then hs[j].level == k + 1 else hs[n - 1].level > k + 1 && Governs(hs, n - 1, k, j)
  {
    forall j: nat
      ensures Governs(hs, n, k, j) <==>
                if j == n - 1 then hs[j].level == k + 1 else hs[n - 1].level > k + 1 && Governs(hs, n - 1, k, j)
    {
      GovernsAt(hs, n, k, j);
    }
  }

  lemma GovernsAt(hs: seq<Heading>, n: nat, k: nat, j: nat)
    requires 0 < n <= |hs|
    ensures Governs(hs, n, k, j) <==>
              if j == n - 1 then hs[j].level == k + 1 else hs[n - 1].level > k + 1 && Governs(hs, n - 1, k, j)
  {
  }

  /** The nearest heading before `i` with a smaller level than `level`. */
  function Nearest(hs: seq<Heading>, i: nat, level: nat): (p: Option<nat>)
    requires i <= |hs|
    ensures p.Some? ==> p.value < i && hs[p.value].level < level && forall j :: p.value < j < i ==> hs[j].level >= level
    ensures p.None? ==> forall j :: 0 <= j < i ==> hs[j].level >= level
  {
    if i == 0 then None else if hs[i - 1].level < level then Some(i - 1) else Nearest(hs, i - 1, level)
  }

  /** The chain of nearest ancestors of heading `i`, outermost first, ending in `i` itself. */
  function Path(hs: seq<Heading>, i: nat): seq<string>
    requires i < |hs|
  {
    match Nearest(hs, i, hs[i].level)
    case None => [hs[i].Label()]
    case Some(p) => Path(hs, p) + [hs[i].Label()]
  }

  /** Headings deeper than slot `k` leave it alone. */
  lemma {:induction false} OuterSlotKept(hs: seq<Heading>, p: nat, i: nat, k: nat)
    requires Levels(hs) && p <= i <= |hs| && k < 3
    requires forall j :: p <= j < i ==> hs[j].level > k + 1
    ensures Stack(hs, i)[k] == Stack(hs, p)[k]
    decreases i - p
  {
    hide Stack, Push;
    if p < i {
      OuterSlotKept(hs, p, i - 1, k);
      StackNext(hs, i - 1);
      PushKeepsOuter(Stack(hs, i - 1), hs[i - 1], k);
    }
  }

  lemma PushKeepsOuter(stack: seq<string>, h: Heading, k: nat)
    requires |stack| == 3 && k + 1 < h.level <= 3
    ensures Push(stack, h)[k] == stack[k]
  {
  }

  lemma OuterSlotsKept(hs: seq<Heading>, p: nat, i: nat, l: nat)
    requires Levels(hs) && p <= i <= |hs| && 1 <= l <= 3
    requires forall j :: p <= j < i ==> hs[j].level >= l
    ensures Stack(hs, i)[..l - 1] == Stack(hs, p)[..l - 1]
  {
    hide Stack;
    var a, b := Stack(hs, i), Stack(hs, p);
    if l >= 2 { OuterSlotKept(hs, p, i, 0); }
    if l >= 3 { OuterSlotKept(hs, p, i, 1); }
    assert forall k :: 0 <= k < l - 1 ==> a[k] == b[k];
  }

  lemma CrumbsOfPush(stack: seq<string>, h: Heading)
    requires |stack| == 3 && 1 <= h.level <= 3
    ensures Crumbs(Push(stack, h)) == Crumbs(stack[..h.level - 1]) + [h.Label()]
  {
    var r := Push(stack, h);
    var a, b, c := r[0], r[1], r[2];
    assert r == [a, b, c];
    CrumbsThree(a, b, c);
    match h.level
    case 1 => assert stack[..0] == [];
    case 2 =>
      assert stack[..1] == [a];
      CrumbsOne(a);
    case _ =>
      assert stack[..2] == [a, b];
      CrumbsTwo(a, b);
  }

  lemma CrumbsOne(a: string)
    ensures Crumbs([a]) == if a != "" then [a] else []
  {
    assert [a][1..] == [];
  }

  lemma CrumbsTwo(a: string, b: string)
    ensures Crumbs([a, b]) == (if a != "" then [a] else []) + if b != "" then [b] else []
  {
    assert [a, b][1..] == [b];
    CrumbsOne(b);
  }

  lemma CrumbsThree(a: string, b: string, c: string)
    ensures Crumbs([a, b, c]) ==
            (if a != "" then [a] else []) + (if b != "" then [b] else []) + if c != "" then [c] else []
  {
    assert [a, b, c][1..] == [b, c];
    CrumbsTwo(b, c);
  }

  /** The slots below a heading's own are empty just after it. */
  lemma DeepSlotsEmpty(stack: seq<string>, h: Heading, l: nat)
    requires |stack| == 3 && 1 <= h.level < l <= 3
    ensures Crumbs(Push(stack, h)[..l - 1]) == Crumbs(Push(stack, h))
  {
    var r := Push(stack, h);
    var a, b, c := r[0], r[1], r[2];
    assert r == [a, b, c];
    CrumbsThree(a, b, c);
    if l == 2 {
      assert r[..1] == [a];
      CrumbsOne(a);
    } else {
      assert r[..2] == [a, b];
      CrumbsTwo(a, b);
    }
  }

  lemma StackStart(hs: seq<Heading>, l: nat)
    requires Levels(hs) && 1 <= l <= 3
    ensures Crumbs(Stack(hs, 0)[..l - 1]) == []
  {
    CrumbsOne("");
    CrumbsTwo("", "");
    assert EMPTY_STACK[..0] == [] && EMPTY_STACK[..1] == [""] && EMPTY_STACK[..2] == ["", ""];
  }

  /** The outer slots before heading `i` spell the path of its nearest ancestor. */
  lemma OuterSlotsSpellParent(hs: seq<Heading>, i: nat)
    requires Levels(hs) && i < |hs|
    requires var p := Nearest(hs, i, hs[i].level); p.Some? ==> Crumbs(Stack(hs, p.value + 1)) == Path(hs, p.value)
    ensures Crumbs(Stack(hs, i)[..hs[i].level - 1]) ==
            match Nearest(hs, i, hs[i].level) case None => [] case Some(p) => Path(hs, p)
  {
    var l := hs[i].level;
    hide Path, Crumbs, Push, Nearest, Stack;
    match Nearest(hs, i, l)
    case None =>
      OuterSlotsKept(hs, 0, i, l);
      StackStart(hs, l);
    case Some(p) =>
      OuterSlotsKept(hs, p + 1, i, l);
      StackNext(hs, p);
      DeepSlotsEmpty(Stack(hs, p), hs[p], l);
  }

  /**
   Each breadcrumb is the true ancestor path: the stack after heading `i` spells the chain of its
   nearest ancestors.
   */
  lemma {:induction false} BreadcrumbIsAncestorPath(hs: seq<Heading>, i: nat)
    requires Levels(hs) && i < |hs|
    ensures Crumbs(Stack(hs, i + 1)) == Path(hs, i)
    decreases i
  {
    hide *;
    var p := Nearest(hs, i, hs[i].level);
    if p.Some? { BreadcrumbIsAncestorPath(hs, p.value); }
    OuterSlotsSpellParent(hs, i);
    StackNext(hs, i);
    CrumbsOfPush(Stack(hs, i), hs[i]);
    PathStep(hs, i);
  }

  lemma StackNext(hs: seq<Heading>, i: nat)
    requires Levels(hs) && i < |hs|
    ensures 1 <= hs[i].level <= 3 && Stack(hs, i + 1) == Push(Stack(hs, i), hs[i])
  {
    hide Push;
  }

  lemma PathStep(hs: seq<Heading>, i: nat)
    requires i < |hs|
    ensures Path(hs, i) ==
            (match Nearest(hs, i, hs[i].level) case None => [] case Some(p) => Path(hs, p)) + [hs[i].Label()]
  {
    hide Nearest;
    if Nearest(hs, i, hs[i].level).None? { Unit([hs[i].Label()]); }
  }

  // ---------------------------------------------------------------- markdown

  /** `^(#{1,3})\s+(.+)$` with MULTILINE: a line starts after a line feed and ends before one. */
  function HeadingPattern(): Pattern {
    Pattern(Some(Not(Char('\n'))),
            Then(Rep(Char('#'), 1, Some(3)), Then(Rep(Space, 1, None), Then(Rep(Not(Char('\n')), 1, None), End))),
            Some(Not(Char('\n'))))
  }

  lemma HeadingNonEmpty()
    ensures MinLength(HeadingPattern().items) > 0
  {
  }

  function HeadingMatches(u: Alphabet, text: string): seq<Match> {
    HeadingNonEmpty();
    FindIter(u, HeadingPattern(), text)
  }

  /** The matches are disjoint, in order, and cut into marks, gap and title. */
  ghost predicate HeadingRun(text: string, ms: seq<Match>) {
    && (forall i :: 0 <= i < |ms| ==> ms[i].start < ms[i].end <= |text|)
    && (forall i, j :: 0 <= i < j < |ms| ==> ms[i].end <= ms[j].start)
    && (forall i :: 0 <= i < |ms| ==> Cut(ms[i]))
  }

  ghost predicate Cut(m: Match) {
    |m.lens| == 3 && 1 <= m.lens[0] <= 3 && m.end == m.start + m.lens[0] + m.lens[1] + m.lens[2]
  }

  lemma HeadingFits(u: Alphabet, text: string, m: Match)
    requires IsMatch(u, HeadingPattern(), text, m)
    ensures Cut(m)
  {
    var items, ahead := HeadingPattern().items, HeadingPattern().ahead;
    var a := m.start + m.lens[0];
    assert Fits(u, text, a, items.rest, ahead, m.lens[1..]);
    var b := a + m.lens[1..][0];
    assert Fits(u, text, b, items.rest.rest, ahead, m.lens[1..][1..]);
    var c := b + m.lens[1..][1..][0];
    assert Fits(u, text, c, End, ahead, m.lens[1..][1..][1..]);
    assert |m.lens[1..][1..][1..]| == 0;
    TotalThree(m.lens);
  }

  lemma TotalThree(lens: seq<nat>)
    requires |lens| == 3
    ensures Total(lens) == lens[0] + lens[1] + lens[2]
  {
    var b, c := lens[1..], lens[2..];
    assert b[0] == lens[1] && b[1..] == c && c[0] == lens[2] && c[1..] == [];
    assert Total(c) == c[0] + Total(c[1..]);
    assert Total(b) == b[0] + Total(b[1..]);
  }

  lemma HeadingMatchesRun(u: Alphabet, text: string)
    ensures HeadingRun(text, HeadingMatches(u, text))
  {
    HeadingNonEmpty();
    FindIterSpec(u, HeadingPattern(), text);
    var ms := HeadingMatches(u, text);
    hide FindIter, HeadingPattern, HeadingMatches, Fits, Blocked;
    forall i | 0 <= i < |ms| ensures ms[i].start < ms[i].end <= |text| && Cut(ms[i]) {
      HeadingFits(u, text, ms[i]);
    }
  }

  function HeadingOf(u: Alphabet, text: string, m: Match): Heading
    requires m.end <= |text| && Cut(m)
  {
    Heading(m.lens[0], Strip(u.isSpace, text[m.start + m.lens[0] + m.lens[1]..m.end]))
  }

  function Headings(u: Alphabet, text: string, ms: seq<Match>): (r: seq<Heading>)
    requires forall i :: 0 <= i < |ms| ==> ms[i].end <= |text| && Cut(ms[i])
    ensures |r| == |ms| && forall i :: 0 <= i < |ms| ==> r[i] == HeadingOf(u, text, ms[i])
  {
    if ms == [] then [] else Headings(u, text, ms[..|ms| - 1]) + [HeadingOf(u, text, ms[|ms| - 1])]
  }

  /** Where the body of heading `i` ends: at the next heading or at the end of the text. */
  function BodyEnd(text: string, ms: seq<Match>, i: nat): nat
    requires i < |ms|
  {
    if i + 1 < |ms| then ms[i + 1].start else |text|
  }

  function Body(u: Alphabet, text: string, ms: seq<Match>, i: nat): string
    requires i < |ms| && HeadingRun(text, ms)
  {
    Strip(u.isSpace, text[ms[i].end..BodyEnd(text, ms, i)])
  }

  lemma HeadingsLevels(u: Alphabet, text: string, ms: seq<Match>)
    requires HeadingRun(text, ms)
    ensures Levels(Headings(u, text, ms))
  {
  }

  /** The sections of the first `n` headings: those with a body, under their ancestor path. */
  function HeadedSections(u: Alphabet, text: string, ms: seq<Match>, n: nat): seq<Section>
    requires n <= |ms| && HeadingRun(text, ms)
  {
    if n == 0 then []
    else
      var body := Body(u, text, ms, n - 1);
      HeadedSections(u, text, ms, n - 1) +
        if body == "" then [] else [Section(Join(Path(Headings(u, text, ms), n - 1), " > "), body)]
  }

  function Preamble(u: Alphabet, text: string, ms: seq<Match>): string
    requires ms != [] && HeadingRun(text, ms)
  {
    Strip(u.isSpace, text[..ms[0].start])
  }

  function MarkdownSections(u: Alphabet, text: string): seq<Section> {
    HeadingMatchesRun(u, text);
    var ms := HeadingMatches(u, text);
    if ms == [] then [Section("", text)]
    else
      var pre := Preamble(u, text, ms);
      (if pre == "" then [] else [Section("", pre)]) + HeadedSections(u, text, ms, |ms|)
  }

  /** One more heading, with its breadcrumb read off the stack. */
  lemma HeadedStep(u: Alphabet, text: string, ms: seq<Match>, i: nat)
    requires i < |ms| && HeadingRun(text, ms)
    ensures Levels(Headings(u, text, ms))
    ensures var body := Body(u, text, ms, i);
            HeadedSections(u, text, ms, i + 1) == HeadedSections(u, text, ms, i) +
              if body == "" then [] else [Section(Join(Crumbs(Stack(Headings(u, text, ms), i + 1)), " > "), body)]
  {
    hide Stack, Path, Crumbs, Headings, Join, Strip;
    HeadingsLevels(u, text, ms);
    BreadcrumbIsAncestorPath(Headings(u, text, ms), i);
  }

  lemma StackAt(u: Alphabet, text: string, ms: seq<Match>, i: nat)
    requires i < |ms| && HeadingRun(text, ms) && Levels(Headings(u, text, ms))
    ensures Cut(ms[i]) && ms[i].end <= |text|
    ensures Stack(Headings(u, text, ms), i + 1) == Push(Stack(Headings(u, text, ms), i), HeadingOf(u, text, ms[i]))
  {
    hide Push, Headings, Strip;
  }

  lemma BodyIs(u: Alphabet, text: string, ms: seq<Match>, i: nat)
    requires i < |ms| && HeadingRun(text, ms)
    ensures ms[i].end <= BodyEnd(text, ms, i) <= |text|
    ensures Body(u, text, ms, i) == Strip(u.isSpace, text[ms[i].end..BodyEnd(text, ms, i)])
  {
    hide Strip;
  }

  lemma NoHeadingsYet(u: Alphabet, text: string, ms: seq<Match>)
    requires HeadingRun(text, ms)
    ensures Levels(Headings(u, text, ms)) && Stack(Headings(u, text, ms), 0) == EMPTY_STACK
    ensures HeadedSections(u, text, ms, 0) == []
  {
    HeadingsLevels(u, text, ms);
  }

  /** The loop over the headings, with its mutable stack; every breadcrumb it writes is the ancestor path. */
  method ParseHeadings(u: Alphabet, text: string, matches: seq<Match>) returns (sections: seq<Section>)
    requires HeadingRun(text, matches)
    ensures sections == HeadedSections(u, text, matches, |matches|)
  {
    ghost var hs := Headings(u, text, matches);
    hide *;
    NoHeadingsYet(u, text, matches);
    sections := [];
    var stack := EMPTY_STACK;
    for i := 0 to |matches|
      invariant stack == Stack(hs, i)
      invariant sections == HeadedSections(u, text, matches, i)
    {
      var m := matches[i];
      StackAt(u, text, matches, i);
      HeadedStep(u, text, matches, i);
      BodyIs(u, text, matches, i);
      stack := PushHeading(u, stack, text, m);
      var breadcrumb := Join(Crumbs(stack), " > ");
      var sectionText := Strip(u.isSpace, text[m.end..BodyEnd(text, matches, i)]);
      if sectionText != "" { sections := sections + [Section(breadcrumb, sectionText)]; }
    }
  }

  method PushHeading(u: Alphabet, stack: seq<string>, text: string, m: Match) returns (r: seq<string>)
    requires |stack| == 3 && m.end <= |text| && Cut(m)
    ensures r == Push(stack, HeadingOf(u, text, m))
  {
    hide Strip, Push;
    var level := m.lens[0];
    var title := Strip(u.isSpace, text[m.start + m.lens[0] + m.lens[1]..m.end]);
    r := SetSlot(stack, level, title);
  }

  method ParseMarkdown(u: Alphabet, text: string) returns (sections: seq<Section>)
    ensures sections == MarkdownSections(u, text)
  {
    var matches := HeadingMatches(u, text);
    HeadingMatchesRun(u, text);
    hide HeadingMatches, HeadedSections, Strip;
    if matches == [] { return [Section("", text)]; }
    var preText := Strip(u.isSpace, text[..matches[0].start]);
    var headed := ParseHeadings(u, text, matches);
    sections := (if preText != "" then [Section("", preText)] else []) + headed;
  }

  /** The stack update: one slot overwritten, the deeper ones cleared in a loop. */
  method SetSlot(stack: seq<string>, level: nat, title: string) returns (r: seq<string>)
    requires |stack| == 3 && 1 <= level <= 3
    ensures r == Push(stack, Heading(level, title))
  {
    r := stack[level - 1 := Repeat('#', level) + " " + title];
    for j := level to 3
      invariant |r| == 3
      invariant forall k :: 0 <= k < 3 ==>
        r[k] == if k < level - 1 then stack[k] else if k == level - 1 then Heading(level, title).Label()
            else if k < j then "" else stack[k]
    {
      r := r[j := ""];
    }
  }

  // ---------------------------------------------------------------- the sections tile the text

  /** From heading `i` on: each heading and the gap after it. */
  function Tiles(text: string, ms: seq<Match>, i: nat): string
    requires i <= |ms| && HeadingRun(text, ms)
    decreases |ms| - i
  {
    if i == |ms| then ""
    else text[ms[i].start..ms[i].end] + text[ms[i].end..BodyEnd(text, ms, i)] + Tiles(text, ms, i + 1)
  }

  lemma {:induction false} TilesAreSuffix(text: string, ms: seq<Match>, i: nat)
    requires i < |ms| && HeadingRun(text, ms)
    ensures Tiles(text, ms, i) == text[ms[i].start..]
    decreases |ms| - i
  {
    var a, b, c := ms[i].start, ms[i].end, BodyEnd(text, ms, i);
    if i + 1 < |ms| {
      TilesAreSuffix(text, ms, i + 1);
      ThreeSlices(text, a, b, c);
    } else {
      assert Tiles(text, ms, i + 1) == "";
      ThreeSlices(text, a, b, |text|);
      assert text[|text|..] == "";
    }
  }

  lemma ThreeSlices(text: string, a: nat, b: nat, c: nat)
    requires a <= b <= c <= |text|
    ensures text[a..] == text[a..b] + text[b..c] + text[c..]
  {
  }

  /** The text before the first heading, then heading and gap by turns: nothing missing, nothing twice. */
  lemma SectionsTile(u: Alphabet, text: string)
    requires HeadingMatches(u, text) != []
    ensures HeadingRun(text, HeadingMatches(u, text))
    ensures text == text[..HeadingMatches(u, text)[0].start] + Tiles(text, HeadingMatches(u, text), 0)
  {
    HeadingMatchesRun(u, text);
    hide HeadingMatches;
    TilesAreSuffix(text, HeadingMatches(u, text), 0);
    CutAt(text, HeadingMatches(u, text)[0].start);
  }

  function Bodies(sections: seq<Section>): string {
    if sections == [] then "" else Bodies(sections[..|sections| - 1]) + sections[|sections| - 1].body
  }

  lemma {:induction false} BodiesConcat(a: seq<Section>, b: seq<Section>)
    ensures Bodies(a + b) == Bodies(a) + Bodies(b)
    decreases |b|
  {
    if b == [] {
      Unit(a);
      Unit(Bodies(a));
    } else {
      assert (a + b)[..|a + b| - 1] == a + b[..|b| - 1];
      BodiesConcat(a, b[..|b| - 1]);
      Assoc(Bodies(a), Bodies(b[..|b| - 1]), b[|b| - 1].body);
    }
  }

  /** The text between and after the first `n` headings. */
  function Gaps(text: string, ms: seq<Match>, n: nat): string
    requires n <= |ms| && HeadingRun(text, ms)
  {
    if n == 0 then "" else Gaps(text, ms, n - 1) + text[ms[n - 1].end..BodyEnd(text, ms, n - 1)]
  }

  lemma {:induction false} HeadedInk(u: Alphabet, text: string, ms: seq<Match>, n: nat)
    requires n <= |ms| && HeadingRun(text, ms)
    ensures Ink(u.isSpace, Bodies(HeadedSections(u, text, ms, n))) == Ink(u.isSpace, Gaps(text, ms, n))
    decreases n
  {
    hide Ink, Strip, Path, Headings, Bodies, Join;
    BodiesNil();
    if n > 0 {
      HeadedInk(u, text, ms, n - 1);
      var gap, front := text[ms[n - 1].end..BodyEnd(text, ms, n - 1)], HeadedSections(u, text, ms, n - 1);
      StripKeepsInk(u.isSpace, gap);
      InkConcat(u.isSpace, Gaps(text, ms, n - 1), gap);
      var body := Body(u, text, ms, n - 1);
      if body != "" {
        var section := Section(Join(Path(Headings(u, text, ms), n - 1), " > "), body);
        BodiesSnoc(front, section);
        InkConcat(u.isSpace, Bodies(front), body);
      } else {
        Unit(front);
        EmptyInk(u.isSpace);
        Unit(Ink(u.isSpace, Bodies(front)));
      }
    }
  }

  lemma EmptyInk(space: char -> bool)
    ensures Ink(space, "") == ""
  {
  }

  lemma BodiesSnoc(sections: seq<Section>, s: Section)
    ensures Bodies(sections + [s]) == Bodies(sections) + s.body
  {
    assert (sections + [s])[..|sections + [s]| - 1] == sections;
  }

  /** The bodies, in order, carry exactly the non-blank characters outside the headings. */
  lemma MarkdownKeepsInk(u: Alphabet, text: string)
    ensures HeadingRun(text, HeadingMatches(u, text))
    ensures var ms := HeadingMatches(u, text);
            Ink(u.isSpace, Bodies(MarkdownSections(u, text))) ==
            if ms == [] then Ink(u.isSpace, text)
            else Ink(u.isSpace, text[..ms[0].start]) + Ink(u.isSpace, Gaps(text, ms, |ms|))
  {
    HeadingMatchesRun(u, text);
    hide HeadingMatches, Ink, Strip, Bodies, HeadedSections, Gaps;
    var ms := HeadingMatches(u, text);
    BodiesNil();
    if ms == [] {
      BodiesSnoc([], Section("", text));
      Unit([Section("", text)]);
      Unit(text);
    } else {
      var pre := Preamble(u, text, ms);
      var first := if pre == "" then [] else [Section("", pre)];
      StripKeepsInk(u.isSpace, text[..ms[0].start]);
      HeadedInk(u, text, ms, |ms|);
      BodiesConcat(first, HeadedSections(u, text, ms, |ms|));
      assert Bodies(first) == pre by {
        if pre != "" { BodiesSnoc([], Section("", pre)); Unit([Section("", pre)]); Unit(pre); }
      }
      InkConcat(u.isSpace, pre, Bodies(HeadedSections(u, text, ms, |ms|)));
    }
  }

  lemma BodiesNil()
    ensures Bodies([]) == ""
  {
  }
}
