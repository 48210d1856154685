/** Sections of plain text, and the chunks made of sections (backend/app/services/chunking/header.py). */
module PlainSections {
  import opened Prelude
  import opened Strings
  import opened SectionHeaders

  /** White space as `str.strip` sees it, and digits as `str.isdigit` does. */
  datatype Chars = Chars(space: char -> bool, numeral: char -> bool)

  function Stripped(c: Chars, line: string): string { Strip(c.space, line) }

  predicate AllNumerals(c: Chars, s: string) {
    s != "" && forall i | 0 <= i < |s| :: c.numeral(s[i])
  }

  /** `_is_heading_candidate` on line `i`, already stripped by its caller. */
  predicate IsHeading(c: Chars, lines: seq<string>, i: nat)
    requires i < |lines|
  {
    var line := Stripped(c, lines[i]);
    && line != ""
    && |line| <= 80
    && line[|line| - 1] !in ".。,，"
    && !AllNumerals(c, Remove(line, ' '))
    && (i + 1 < |lines| ==> Stripped(c, lines[i + 1]) != "")
    && (i > 0 ==> Stripped(c, lines[i - 1]) == "")
  }

  /** No two adjacent lines are both headings: one needs a non-blank successor, the other a blank predecessor. */
  lemma NoAdjacentHeadings(c: Chars, lines: seq<string>, i: nat)
    requires i + 1 < |lines| && IsHeading(c, lines, i)
    ensures !IsHeading(c, lines, i + 1) && Stripped(c, lines[i + 1]) != ""
  {
    hide Stripped, AllNumerals;
  }

  lemma NoHeadingBefore(c: Chars, lines: seq<string>, i: nat)
    requires 0 < i < |lines| && IsHeading(c, lines, i)
    ensures !IsHeading(c, lines, i - 1)
  {
    hide Stripped, AllNumerals;
  }

  /** The loop's variables. */
  datatype State = State(sections: seq<Section>, heading: string, lines: seq<string>)

  function Flush(c: Chars, s: State): seq<Section> {
    if s.lines == [] then s.sections
    else
      var body := Stripped(c, Join(s.lines, "\n"));
      if body == "" then s.sections else s.sections + [Section(s.heading, body)]
  }

  function Run(c: Chars, lines: seq<string>, n: nat): State
    requires n <= |lines|
  {
    if n == 0 then State([], "", [])
    else
      var s := Run(c, lines, n - 1);
      if IsHeading(c, lines, n - 1) then State(Flush(c, s), Stripped(c, lines[n - 1]), [])
      else State(s.sections, s.heading, s.lines + [lines[n - 1]])
  }

  function Sections(c: Chars, text: string): seq<Section> {
    var lines := Split(text, '\n');
    var found := Flush(c, Run(c, lines, |lines|));
    if found == [] then [Section("", text)] else found
  }

  method ParsePlaintext(c: Chars, text: string) returns (sections: seq<Section>)
    ensures sections == Sections(c, text)
  {
    var lines := Split(text, '\n');
    sections := [];
    var currentHeading := "";
    var currentLines: seq<string> := [];
    for i := 0 to |lines|
      invariant State(sections, currentHeading, currentLines) == Run(c, lines, i)
    {
      var stripped := Stripped(c, lines[i]);
      if IsHeading(c, lines, i) {
        if currentLines != [] {
          var body := Stripped(c, Join(currentLines, "\n"));
          if body != "" { sections := sections + [Section(currentHeading, body)]; }
          currentLines := [];
        }
        currentHeading := stripped;
      } else {
        currentLines := currentLines + [lines[i]];
      }
    }
    if currentLines != [] {
      var body := Stripped(c, Join(currentLines, "\n"));
      if body != "" { sections := sections + [Section(currentHeading, body)]; }
    }
    if sections == [] { sections := [Section("", text)]; }
  }

  // ---------------------------------------------------------------- lines survive strip and join

  /** The lines that are not blank, stripped. */
  function NonBlank(c: Chars, lines: seq<string>): seq<string> {
    if lines == [] then []
    else
      var last := Stripped(c, lines[|lines| - 1]);
      NonBlank(c, lines[..|lines| - 1]) + if last == "" then [] else [last]
  }

  lemma NonBlankSnoc(c: Chars, lines: seq<string>, line: string)
    ensures NonBlank(c, lines + [line]) ==
            NonBlank(c, lines) + if Stripped(c, line) == "" then [] else [Stripped(c, line)]
  {
    assert (lines + [line])[..|lines + [line]| - 1] == lines;
  }

  lemma {:induction false} NonBlankConcat(c: Chars, a: seq<string>, b: seq<string>)
    ensures NonBlank(c, a + b) == NonBlank(c, a) + NonBlank(c, b)
    decreases |b|
  {
    if b == [] {
      Unit(a);
      Unit(NonBlank(c, a));
    } else {
      var front, last := b[..|b| - 1], b[|b| - 1];
      assert b == front + [last];
      Assoc(a, front, [last]);
      NonBlankConcat(c, a, front);
      NonBlankSnoc(c, a + front, last);
      Assoc(NonBlank(c, a), NonBlank(c, front), if Stripped(c, last) == "" then [] else [Stripped(c, last)]);
    }
  }

  lemma NonBlankOne(c: Chars, line: string)
    ensures NonBlank(c, [line]) == if Stripped(c, line) == "" then [] else [Stripped(c, line)]
  {
    assert [line][..0] == [];
  }

  /** The non-blank lines of a text. */
  function TextLines(c: Chars, text: string): seq<string> { NonBlank(c, Split(text, '\n')) }

  lemma StripLead(c: Chars, x: char, t: string)
    requires c.space(x)
    ensures Stripped(c, [x] + t) == Stripped(c, t)
  {
    assert ([x] + t)[1..] == t;
  }

  lemma LeadLines(c: Chars, text: string)
    requires text != "" && c.space(text[0]) && c.space('\n')
    ensures TextLines(c, text) == TextLines(c, text[1..])
  {
    var tail := Split(text[1..], '\n');
    hide Stripped, NonBlank;
    if text[0] == '\n' {
      NonBlankConcat(c, [""], tail);
      NonBlankOne(c, "");
      StripNothing(c);
      Unit(NonBlank(c, tail));
    } else {
      HeadTail(tail);
      NonBlankConcat(c, [tail[0]], tail[1..]);
      NonBlankConcat(c, [[text[0]] + tail[0]], tail[1..]);
      NonBlankOne(c, tail[0]);
      NonBlankOne(c, [text[0]] + tail[0]);
      StripLead(c, text[0], tail[0]);
    }
  }

  lemma StripNothing(c: Chars)
    ensures Stripped(c, "") == ""
  {
  }

  lemma {:induction false} StripLeftLines(c: Chars, text: string)
    requires c.space('\n')
    ensures TextLines(c, StripLeft(c.space, text)) == TextLines(c, text)
  {
    if text != "" && c.space(text[0]) {
      StripLeftLines(c, text[1..]);
      LeadLines(c, text);
      hide TextLines;
      assert text[1..][Leading(c.space, text[1..])..] == text[1 + Leading(c.space, text[1..])..];
    } else {
      assert text[0..] == text;
    }
  }

  lemma {:induction false} SplitSnoc(s: string, x: char, sep: char)
    ensures var parts := Split(s, sep);
            Split(s + [x], sep) == if x == sep then parts + [""] else parts[..|parts| - 1] + [parts[|parts| - 1] + [x]]
  {
    if s == "" {
      Unit([x]);
      assert [x][1..] == "";
      assert [""][..0] == [] && [""][1..] == [];
    } else {
      ConcatTail(s, [x]);
      SplitSnoc(s[1..], x, sep);
      if s[0] == sep { SnocAfterBreak(Split(s[1..], sep), x); }
      else { SnocAfterChar(s[0], Split(s[1..], sep), x); }
    }
  }

  lemma SnocAfterBreak(parts: seq<string>, x: char)
    requires parts != []
    ensures var all := [""] + parts;
            && [""] + (parts + [""]) == all + [""]
            && [""] + (parts[..|parts| - 1] + [parts[|parts| - 1] + [x]]) == all[..|all| - 1] + [all[|all| - 1] + [x]]
  {
  }

  lemma SnocAfterChar(h: char, parts: seq<string>, x: char)
    requires parts != []
    ensures var all := [[h] + parts[0]] + parts[1..];
            var broken := parts + [""];
            && [[h] + broken[0]] + broken[1..] == all + [""]
            && var longer := parts[..|parts| - 1] + [parts[|parts| - 1] + [x]];
               [[h] + longer[0]] + longer[1..] == all[..|all| - 1] + [all[|all| - 1] + [x]]
  {
    if |parts| == 1 { Assoc([h], parts[0], [x]); }
  }

  lemma {:induction false} LeadingSnoc(space: char -> bool, t: string, x: char)
    requires space(x)
    ensures Leading(space, t + [x]) == if Leading(space, t) == |t| then |t| + 1 else Leading(space, t)
  {
    if t == "" {
      assert "" + [x] == [x] && [x][1..] == "";
    } else {
      ConcatTail(t, [x]);
      if space(t[0]) { LeadingSnoc(space, t[1..], x); }
    }
  }

  lemma StripTrail(c: Chars, t: string, x: char)
    requires c.space(x)
    ensures Stripped(c, t + [x]) == Stripped(c, t)
  {
    LeadingSnoc(c.space, t, x);
    var n := Leading(c.space, t);
    if n == |t| {
      assert (t + [x])[|t| + 1..] == "" && t[n..] == "";
    } else {
      assert (t + [x])[n..] == t[n..] + [x];
      TrimmedSnoc(c.space, t[n..], x);
      assert (t[n..] + [x])[..Trimmed(c.space, t[n..])] == t[n..][..Trimmed(c.space, t[n..])];
    }
  }

  lemma TrimmedSnoc(space: char -> bool, t: string, x: char)
    requires space(x)
    ensures Trimmed(space, t + [x]) == Trimmed(space, t)
  {
    assert (t + [x])[..|t + [x]| - 1] == t;
  }

  lemma TrailLines(c: Chars, front: string, x: char)
    requires c.space(x) && c.space('\n')
    ensures TextLines(c, front + [x]) == TextLines(c, front)
  {
    var parts := Split(front, '\n');
    SplitSnoc(front, x, '\n');
    hide Split, Stripped, NonBlank;
    var last := parts[|parts| - 1];
    if x == '\n' {
      NonBlankSnoc(c, parts, "");
      StripNothing(c);
      Unit(NonBlank(c, parts));
    } else {
      TakeSnoc(parts, |parts| - 1);
      NonBlankSnoc(c, parts[..|parts| - 1], last + [x]);
      NonBlankSnoc(c, parts[..|parts| - 1], last);
      StripTrail(c, last, x);
      assert parts[..|parts|] == parts;
    }
  }

  lemma {:induction false} StripRightLines(c: Chars, text: string)
    requires c.space('\n')
    ensures TextLines(c, StripRight(c.space, text)) == TextLines(c, text)
  {
    if text != "" && c.space(text[|text| - 1]) {
      var front, x := text[..|text| - 1], text[|text| - 1];
      StripRightLines(c, front);
      TrailLines(c, front, x);
      assert text == front + [x];
      hide TextLines;
      assert front[..Trimmed(c.space, front)] == text[..Trimmed(c.space, front)];
    } else {
      assert text[..|text|] == text;
    }
  }

  /** Joining lines and stripping the result keeps every non-blank line. */
  lemma BodyLines(c: Chars, lines: seq<string>)
    requires c.space('\n') && lines != [] && forall l :: l in lines ==> '\n' !in l
    ensures TextLines(c, Stripped(c, Join(lines, "\n"))) == NonBlank(c, lines)
  {
    var joined := Join(lines, "\n");
    hide NonBlank;
    StripLeftLines(c, joined);
    StripRightLines(c, StripLeft(c.space, joined));
    SplitJoin(lines, '\n');
  }

  // ---------------------------------------------------------------- no line is lost

  /** The lines a list of sections shows: each heading, then the non-blank lines of its body. */
  function Shown(c: Chars, sections: seq<Section>): seq<string> {
    if sections == [] then []
    else
      var last := sections[|sections| - 1];
      Shown(c, sections[..|sections| - 1]) + (if last.breadcrumb == "" then [] else [last.breadcrumb])
          + TextLines(c, last.body)
  }

  ghost predicate Unbroken(lines: seq<string>) {
    forall l :: l in lines ==> '\n' !in l
  }

  lemma ShownSnoc(c: Chars, sections: seq<Section>, x: Section)
    ensures Shown(c, sections + [x]) ==
            Shown(c, sections) + (if x.breadcrumb == "" then [] else [x.breadcrumb]) + TextLines(c, x.body)
  {
    assert (sections + [x])[..|sections + [x]| - 1] == sections;
  }

  lemma BlankText(c: Chars)
    ensures TextLines(c, "") == []
  {
    StripNothing(c);
    NonBlankOne(c, "");
  }

  lemma InkyFirst(c: Chars, text: string)
    requires text != "" && !c.space(text[0])
    ensures c.space('\n') ==> TextLines(c, text) != []
  {
    if c.space('\n') {
      var parts := Split(text, '\n');
      assert parts[0] != "" && parts[0][0] == text[0];
      HeadTail(parts);
      StripBlank(c.space, parts[0]);
      hide Split, Strip;
      NonBlankConcat(c, [parts[0]], parts[1..]);
      NonBlankOne(c, parts[0]);
    }
  }

  /** What strip leaves starts with ink. */
  lemma StrippedStart(c: Chars, text: string)
    requires Stripped(c, text) != ""
    ensures !c.space(Stripped(c, text)[0])
  {
    LeadingSpec(c.space, text);
  }

  /** The joined lines are blank exactly when every line is. */
  lemma JoinedBlank(c: Chars, lines: seq<string>)
    requires c.space('\n') && lines != [] && Unbroken(lines)
    ensures Stripped(c, Join(lines, "\n")) == "" <==> NonBlank(c, lines) == []
  {
    hide Stripped, NonBlank, TextLines, Join;
    var body := Stripped(c, Join(lines, "\n"));
    BodyLines(c, lines);
    if body == "" {
      BlankText(c);
    } else {
      StrippedStart(c, Join(lines, "\n"));
      InkyFirst(c, body);
    }
  }

  /** The lines read so far, as the loop's variables hold them. */
  function Held(c: Chars, s: State): seq<string> {
    Shown(c, s.sections) + (if s.heading == "" then [] else [s.heading]) + NonBlank(c, s.lines)
  }

  ghost predicate Inky(c: Chars, sections: seq<Section>) {
    forall x :: x in sections ==> x.body != "" && TextLines(c, x.body) != []
  }

  /** A heading that has text under it is not lost when its section is written. */
  lemma FlushHeld(c: Chars, s: State)
    requires c.space('\n') && Unbroken(s.lines) && Inky(c, s.sections)
    requires s.heading != "" ==> NonBlank(c, s.lines) != []
    ensures Shown(c, Flush(c, s)) == Held(c, s) && Inky(c, Flush(c, s))
  {
    hide NonBlank, TextLines, Stripped, Shown, Join;
    if s.lines == [] {
      NonBlankNil(c);
      Unit(Shown(c, s.sections));
    } else {
      JoinedBlank(c, s.lines);
      BodyLines(c, s.lines);
      var body := Stripped(c, Join(s.lines, "\n"));
      if body == "" {
        Unit(Shown(c, s.sections));
      } else {
        ShownSnoc(c, s.sections, Section(s.heading, body));
      }
    }
  }

  lemma NonBlankNil(c: Chars)
    ensures NonBlank(c, []) == []
  {
  }

  /** Between lines: nothing is missing, and an open heading either was just read or already has text under it. */
  ghost predicate Reading(c: Chars, lines: seq<string>, n: nat, s: State)
    requires n <= |lines|
  {
    && Unbroken(s.lines) && Inky(c, s.sections)
    && Held(c, s) == NonBlank(c, lines[..n])
    && (n > 0 && IsHeading(c, lines, n - 1) ==> s.lines == [] && s.heading == Stripped(c, lines[n - 1]))
    && (s.heading != "" ==> NonBlank(c, s.lines) != [] || (n > 0 && IsHeading(c, lines, n - 1)))
  }

  lemma ReadHeading(c: Chars, lines: seq<string>, n: nat, s: State)
    requires c.space('\n') && n < |lines| && Unbroken(lines)
    requires Reading(c, lines, n, s) && IsHeading(c, lines, n)
    ensures Reading(c, lines, n + 1, State(Flush(c, s), Stripped(c, lines[n]), []))
  {
    if n > 0 { NoHeadingBefore(c, lines, n); }
    HeadingIsInk(c, lines, n);
    hide IsHeading, Stripped, NonBlank, Flush, Held, Inky;
    FlushHeld(c, s);
    HoldHeading(c, Flush(c, s), Stripped(c, lines[n]));
    TakeSnoc(lines, n);
    NonBlankSnoc(c, lines[..n], lines[n]);
  }

  lemma HeadingIsInk(c: Chars, lines: seq<string>, n: nat)
    requires n < |lines| && IsHeading(c, lines, n)
    ensures Stripped(c, lines[n]) != ""
  {
    hide Stripped;
  }

  lemma HoldHeading(c: Chars, sections: seq<Section>, heading: string)
    requires heading != ""
    ensures Held(c, State(sections, heading, [])) == Shown(c, sections) + [heading]
  {
    NonBlankNil(c);
    hide NonBlank, Shown;
    Unit(Shown(c, sections) + [heading]);
  }

  lemma ReadLine(c: Chars, lines: seq<string>, n: nat, s: State)
    requires n < |lines| && Unbroken(lines)
    requires Reading(c, lines, n, s) && !IsHeading(c, lines, n)
    ensures Reading(c, lines, n + 1, State(s.sections, s.heading, s.lines + [lines[n]]))
  {
    StaysUnbroken(lines, n, s.lines);
    HoldLine(c, s, lines[n]);
    OpenHasInk(c, lines, n, s);
    hide IsHeading, Stripped, NonBlank, Held, Inky, Unbroken;
    TakeSnoc(lines, n);
    NonBlankSnoc(c, lines[..n], lines[n]);
  }

  lemma StaysUnbroken(lines: seq<string>, n: nat, held: seq<string>)
    requires n < |lines| && Unbroken(lines) && Unbroken(held)
    ensures Unbroken(held + [lines[n]])
  {
    assert lines[n] in lines;
  }

  /** After a line that is no heading, an open heading has text under it. */
  lemma OpenHasInk(c: Chars, lines: seq<string>, n: nat, s: State)
    requires n < |lines| && Reading(c, lines, n, s)
    ensures s.heading != "" ==> NonBlank(c, s.lines + [lines[n]]) != []
  {
    if n > 0 && IsHeading(c, lines, n - 1) { NoAdjacentHeadings(c, lines, n - 1); }
    hide IsHeading, Stripped, NonBlank, Held, Inky, Unbroken;
    NonBlankSnoc(c, s.lines, lines[n]);
  }

  lemma HoldLine(c: Chars, s: State, line: string)
    ensures Held(c, State(s.sections, s.heading, s.lines + [line])) ==
            Held(c, s) + if Stripped(c, line) == "" then [] else [Stripped(c, line)]
  {
    NonBlankSnoc(c, s.lines, line);
    hide NonBlank, Shown, Stripped;
    Assoc(Shown(c, s.sections) + (if s.heading == "" then [] else [s.heading]), NonBlank(c, s.lines),
          if Stripped(c, line) == "" then [] else [Stripped(c, line)]);
  }

  lemma {:induction false} RunReads(c: Chars, lines: seq<string>, n: nat)
    requires c.space('\n') && n <= |lines| && Unbroken(lines)
    ensures Reading(c, lines, n, Run(c, lines, n))
    decreases n
  {
    hide *;
    if n == 0 {
      ReadNothing(c, lines);
    } else {
      RunReads(c, lines, n - 1);
      RunStep(c, lines, n);
      if IsHeading(c, lines, n - 1) {
        ReadHeading(c, lines, n - 1, Run(c, lines, n - 1));
      } else {
        ReadLine(c, lines, n - 1, Run(c, lines, n - 1));
      }
    }
  }

  lemma ReadNothing(c: Chars, lines: seq<string>)
    ensures Reading(c, lines, 0, Run(c, lines, 0))
  {
    NonBlankNil(c);
    assert lines[..0] == [];
  }

  lemma RunStep(c: Chars, lines: seq<string>, n: nat)
    requires 0 < n <= |lines|
    ensures var s := Run(c, lines, n - 1);
            Run(c, lines, n) ==
            if IsHeading(c, lines, n - 1) then State(Flush(c, s), Stripped(c, lines[n - 1]), [])
            else State(s.sections, s.heading, s.lines + [lines[n - 1]])
  {
    hide IsHeading, Flush, Stripped;
  }

  lemma {:induction false} InkyShown(c: Chars, sections: seq<Section>)
    requires Inky(c, sections)
    ensures Shown(c, sections) == [] <==> sections == []
  {
    if sections != [] { assert sections[|sections| - 1] in sections; }
  }

  /** The text's last line is taken for a heading. */
  predicate EndsInHeading(c: Chars, text: string) {
    var lines := Split(text, '\n');
    IsHeading(c, lines, |lines| - 1)
  }

  lemma LastLine(c: Chars, lines: seq<string>)
    requires lines != []
    ensures var line := Stripped(c, lines[|lines| - 1]);
            NonBlank(c, lines) == NonBlank(c, lines[..|lines| - 1]) + if line == "" then [] else [line]
  {
  }

  /** What is left when the last line is a heading: it is dropped. */
  lemma FlushedHeading(c: Chars, lines: seq<string>, s: State)
    requires lines != [] && Reading(c, lines, |lines|, s) && IsHeading(c, lines, |lines| - 1)
    ensures Inky(c, Flush(c, s)) && Shown(c, Flush(c, s)) == NonBlank(c, lines[..|lines| - 1])
    ensures NonBlank(c, lines) == NonBlank(c, lines[..|lines| - 1]) + [Stripped(c, lines[|lines| - 1])]
  {
    LastLine(c, lines);
    HeadingIsInk(c, lines, |lines| - 1);
    FlushNothing(c, s);
    NonBlankNil(c);
    hide IsHeading, Stripped, NonBlank, Shown, Flush;
    assert lines[..|lines|] == lines;
    Unit(Shown(c, s.sections) + [s.heading]);
    LastOff(Shown(c, s.sections), NonBlank(c, lines[..|lines| - 1]), s.heading);
  }

  lemma FlushedText(c: Chars, lines: seq<string>, s: State)
    requires c.space('\n') && lines != [] && Reading(c, lines, |lines|, s) && !IsHeading(c, lines, |lines| - 1)
    ensures Inky(c, Flush(c, s)) && Shown(c, Flush(c, s)) == NonBlank(c, lines)
  {
    hide IsHeading, Stripped, NonBlank, Shown, Flush, Held;
    assert lines[..|lines|] == lines;
    FlushHeld(c, s);
  }

  /**
   Conservation: the sections show, in order and once each, exactly the non-blank lines of the text,
   except that a heading on the last line is lost -- and it is lost exactly when some line before it
   is not blank, because otherwise the whole text becomes the only section.
   */
  lemma PlaintextKeepsLines(c: Chars, text: string)
    requires c.space('\n')
    ensures var lines := Split(text, '\n');
            var before := NonBlank(c, lines[..|lines| - 1]);
            Shown(c, Sections(c, text)) ==
            if EndsInHeading(c, text) && before != [] then before else NonBlank(c, lines)
  {
    hide *;
    FlushedWhole(c, text);
    SectionsShown(c, text);
  }

  /** The sections of the text, given what the last flush left. */
  lemma SectionsShown(c: Chars, text: string)
    requires Inky(c, Flush(c, Run(c, Split(text, '\n'), |Split(text, '\n')|)))
    ensures var shown := Shown(c, Flush(c, Run(c, Split(text, '\n'), |Split(text, '\n')|)));
            Shown(c, Sections(c, text)) == if shown == [] then NonBlank(c, Split(text, '\n')) else shown
  {
    InkyShown(c, Flush(c, Run(c, Split(text, '\n'), |Split(text, '\n')|)));
    WholeText(c, text);
    hide Flush, Run, Split, Shown, NonBlank, Inky;
  }

  lemma FlushedWhole(c: Chars, text: string)
    requires c.space('\n')
    ensures var lines := Split(text, '\n');
            var found := Flush(c, Run(c, lines, |lines|));
            var before := NonBlank(c, lines[..|lines| - 1]);
            && Inky(c, found)
            && Shown(c, found) == (if EndsInHeading(c, text) then before else NonBlank(c, lines))
            && (EndsInHeading(c, text) ==> NonBlank(c, lines) != [])
  {
    var lines := Split(text, '\n');
    hide IsHeading, Stripped, NonBlank, Shown, Flush, Split, Reading, Run, Inky;
    SplitPieces(text, '\n');
    RunReads(c, lines, |lines|);
    if EndsInHeading(c, text) {
      FlushedHeading(c, lines, Run(c, lines, |lines|));
    } else {
      FlushedText(c, lines, Run(c, lines, |lines|));
    }
  }

  lemma FlushNothing(c: Chars, s: State)
    requires s.lines == []
    ensures Flush(c, s) == s.sections
  {
  }

  lemma LastOff(a: seq<string>, b: seq<string>, x: string)
    requires a + [x] == b + [x]
    ensures a == b
  {
    assert (a + [x])[..|a|] == a && (b + [x])[..|b|] == b;
  }

  lemma StripPlain(c: Chars, s: string)
    requires forall x :: x in s ==> !c.space(x)
    ensures Stripped(c, s) == s
  {
    if s != "" { assert s[0] in s && s[|s| - 1] in s; }
  }

  lemma SplitTitled(body: string, title: string)
    requires '\n' !in body && '\n' !in title
    ensures Split(body + "\n" + ("\n" + title), '\n') == [body, "", title]
  {
    SplitFirst(body, "\n" + title, '\n');
    SplitFirst("", title, '\n');
    SplitAtom(title, '\n');
    hide Split;
    assert "\n" + title == "" + ['\n'] + title;
    assert [body] + ([""] + [title]) == [body, "", title];
  }

  /** Conservation on a text given by its lines. */
  lemma KeepsLines(c: Chars, text: string, lines: seq<string>)
    requires c.space('\n') && lines != [] && Split(text, '\n') == lines
    ensures TextLines(c, text) == NonBlank(c, lines)
    ensures var before := NonBlank(c, lines[..|lines| - 1]);
            Shown(c, Sections(c, text)) ==
            if IsHeading(c, lines, |lines| - 1) && before != [] then before else NonBlank(c, lines)
  {
    PlaintextKeepsLines(c, text);
    hide Split, Shown, Sections, NonBlank, IsHeading;
  }

  lemma NonBlankTitled(c: Chars, body: string, title: string)
    requires Stripped(c, "") == "" && Stripped(c, body) != "" && Stripped(c, title) != ""
    ensures NonBlank(c, [body, "", title]) == [Stripped(c, body), Stripped(c, title)]
    ensures NonBlank(c, [body, "", title][..2]) == [Stripped(c, body)]
  {
    NonBlankNil(c);
    hide Stripped, NonBlank;
    NonBlankSnoc(c, [], body);
    NonBlankSnoc(c, [body], "");
    NonBlankSnoc(c, [body, ""], title);
    assert [] + [body] == [body] && [body] + [""] == [body, ""] && [body, ""] + [title] == [body, "", title];
    assert [body, "", title][..2] == [body, ""];
  }

  /** A body line, a blank line and a title at the end: the title is in no section. */
  lemma TitledText(c: Chars, body: string, title: string)
    requires c.space('\n') && '\n' !in body && '\n' !in title && Stripped(c, "") == ""
    requires Stripped(c, body) != "" && IsHeading(c, [body, "", title], 2)
    ensures var text := body + "\n" + ("\n" + title);
            && TextLines(c, text) == [Stripped(c, body), Stripped(c, title)]
            && Shown(c, Sections(c, text)) == [Stripped(c, body)]
  {
    HeadingIsInk(c, [body, "", title], 2);
    hide *;
    SplitTitled(body, title);
    NonBlankTitled(c, body, title);
    KeepsLines(c, body + "\n" + ("\n" + title), [body, "", title]);
  }

  lemma LastIsHeading(c: Chars, lines: seq<string>, title: string)
    requires |lines| == 3 && Stripped(c, lines[1]) == "" && Stripped(c, lines[2]) == title
    requires 0 < |title| <= 80 && title[|title| - 1] !in ".。,，" && !AllNumerals(c, Remove(title, ' '))
    ensures IsHeading(c, lines, 2)
  {
    hide Stripped, Remove, AllNumerals;
  }

  lemma TitleIsHeading(c: Chars)
    requires !c.numeral('T') && forall x :: x in "Title" ==> !c.space(x)
    ensures IsHeading(c, ["body.", "", "Title"], 2)
  {
    hide *;
    StripPlain(c, "Title");
    StripPlain(c, "");
    RemoveAbsent("Title", ' ');
    NotNumeral(c, "Title");
    LastIsHeading(c, ["body.", "", "Title"], "Title");
  }

  lemma NotNumeral(c: Chars, s: string)
    requires s != "" && !c.numeral(s[0])
    ensures !AllNumerals(c, s)
  {
  }

  /** The loss is real, whatever the tables say beyond these letters. */
  lemma LastHeadingIsLost(c: Chars)
    requires c.space('\n') && !c.numeral('T') && forall x :: x in "bodyTitle." ==> !c.space(x)
    ensures var text := "body." + "\n" + ("\n" + "Title");
            TextLines(c, text) == ["body.", "Title"] && Shown(c, Sections(c, text)) == ["body."]
  {
    StripPlain(c, "body.");
    StripPlain(c, "Title");
    StripPlain(c, "");
    TitleIsHeading(c);
    hide *;
    TitledText(c, "body.", "Title");
  }

  lemma WholeText(c: Chars, text: string)
    ensures Shown(c, [Section("", text)]) == TextLines(c, text)
  {
    ShownSnoc(c, [], Section("", text));
    Unit([Section("", text)]);
    Unit(TextLines(c, text));
  }

  // ---------------------------------------------------------------- every heading opens its own section

  /** The first heading from line `n` on, or the number of lines. */
  function NextHeading(c: Chars, lines: seq<string>, n: nat): (r: nat)
    requires n <= |lines|
    ensures n <= r <= |lines|
    decreases |lines| - n
  {
    if n == |lines| || IsHeading(c, lines, n) then n else NextHeading(c, lines, n + 1)
  }

  lemma {:induction false} NextHeadingSpec(c: Chars, lines: seq<string>, n: nat)
    requires n <= |lines|
    ensures var r := NextHeading(c, lines, n);
            && (r < |lines| ==> IsHeading(c, lines, r))
            && forall i :: n <= i < r ==> !IsHeading(c, lines, i)
    decreases |lines| - n
  {
    hide IsHeading;
    if n < |lines| && !IsHeading(c, lines, n) { NextHeadingSpec(c, lines, n + 1); }
  }

  function HeadingsBefore(c: Chars, lines: seq<string>, n: nat): nat
    requires n <= |lines|
  {
    if n == 0 then 0 else HeadingsBefore(c, lines, n - 1) + if IsHeading(c, lines, n - 1) then 1 else 0
  }

  /** The lines under the heading on line `i`. */
  function Under(c: Chars, lines: seq<string>, i: nat): seq<string>
    requires i < |lines|
  {
    lines[i + 1..NextHeading(c, lines, i + 1)]
  }

  function SectionAt(c: Chars, lines: seq<string>, i: nat): Section
    requires i < |lines|
  {
    Section(Stripped(c, lines[i]), Stripped(c, Join(Under(c, lines, i), "\n")))
  }

  /** One if there is text above the first heading. */
  function Preface(c: Chars, lines: seq<string>): nat {
    if NonBlank(c, lines[..NextHeading(c, lines, 0)]) == [] then 0 else 1
  }

  /** Above the first heading the loop only collects lines. */
  lemma {:induction false} RunAbove(c: Chars, lines: seq<string>, n: nat)
    requires n <= NextHeading(c, lines, 0)
    ensures Run(c, lines, n) == State([], "", lines[..n])
    decreases n
  {
    hide IsHeading, Stripped, Flush, NextHeading;
    NextHeadingSpec(c, lines, 0);
    if n > 0 {
      RunAbove(c, lines, n - 1);
      TakeSnoc(lines, n - 1);
      RunStep(c, lines, n);
    }
  }

  /** And so it does under a heading. */
  lemma {:induction false} RunUnder(c: Chars, lines: seq<string>, i: nat, n: nat)
    requires i < |lines| && IsHeading(c, lines, i) && i + 1 <= n <= NextHeading(c, lines, i + 1)
    ensures Run(c, lines, n) == State(Flush(c, Run(c, lines, i)), Stripped(c, lines[i]), lines[i + 1..n])
    decreases n
  {
    hide IsHeading, Stripped, Flush, NextHeading, Run;
    NextHeadingSpec(c, lines, i + 1);
    RunStep(c, lines, n);
    if n > i + 1 {
      RunUnder(c, lines, i, n - 1);
      assert lines[i + 1..n] == lines[i + 1..n - 1] + [lines[n - 1]];
    } else {
      assert lines[i + 1..n] == [];
    }
  }

  lemma UnderStarts(c: Chars, lines: seq<string>, i: nat)
    requires Unbroken(lines) && i + 1 < |lines| && IsHeading(c, lines, i)
    ensures Under(c, lines, i) != [] && Stripped(c, Under(c, lines, i)[0]) != "" && Unbroken(Under(c, lines, i))
  {
    NextHeadingSpec(c, lines, i + 1);
    NoAdjacentHeadings(c, lines, i);
    hide IsHeading, Stripped, NextHeading;
  }

  lemma InkAtStart(c: Chars, lines: seq<string>)
    requires lines != [] && Stripped(c, lines[0]) != ""
    ensures NonBlank(c, lines) != []
  {
    hide Stripped, NonBlank;
    HeadTail(lines);
    NonBlankConcat(c, [lines[0]], lines[1..]);
    NonBlankOne(c, lines[0]);
  }

  /** A heading that is not on the last line has text under it. */
  lemma UnderInk(c: Chars, lines: seq<string>, i: nat)
    requires c.space('\n') && Unbroken(lines) && i + 1 < |lines| && IsHeading(c, lines, i)
    ensures Under(c, lines, i) != [] && NonBlank(c, Under(c, lines, i)) != []
    ensures SectionAt(c, lines, i).body != ""
    ensures TextLines(c, SectionAt(c, lines, i).body) == NonBlank(c, Under(c, lines, i))
  {
    UnderStarts(c, lines, i);
    hide IsHeading, Stripped, NonBlank, TextLines, NextHeading, Join, Under;
    InkAtStart(c, Under(c, lines, i));
    JoinedBlank(c, Under(c, lines, i));
    BodyLines(c, Under(c, lines, i));
  }

  /** What the flush at the end of a heading's text adds. */
  lemma FlushUnder(c: Chars, lines: seq<string>, i: nat)
    requires c.space('\n') && Unbroken(lines) && i + 1 < |lines| && IsHeading(c, lines, i)
    ensures Flush(c, Run(c, lines, NextHeading(c, lines, i + 1))) ==
            Flush(c, Run(c, lines, i)) + [SectionAt(c, lines, i)]
  {
    UnderInk(c, lines, i);
    RunUnder(c, lines, i, NextHeading(c, lines, i + 1));
    hide IsHeading, Stripped, NonBlank, TextLines, NextHeading, Join, Run;
  }

  /** The previous heading, where there is one. */
  lemma {:induction false} Previous(c: Chars, lines: seq<string>, n: nat) returns (i: nat)
    requires NextHeading(c, lines, 0) < n <= |lines|
    ensures i < n && IsHeading(c, lines, i) && forall j :: i < j < n ==> !IsHeading(c, lines, j)
    ensures HeadingsBefore(c, lines, n) == HeadingsBefore(c, lines, i) + 1
  {
    hide IsHeading, NextHeading;
    NextHeadingSpec(c, lines, 0);
    if IsHeading(c, lines, n - 1) {
      i := n - 1;
    } else {
      i := Previous(c, lines, n - 1);
    }
  }

  lemma {:induction false} NoneAbove(c: Chars, lines: seq<string>, n: nat)
    requires n <= NextHeading(c, lines, 0)
    ensures HeadingsBefore(c, lines, n) == 0
    decreases n
  {
    hide IsHeading, NextHeading;
    NextHeadingSpec(c, lines, 0);
    if n > 0 { NoneAbove(c, lines, n - 1); }
  }

  lemma FirstFlush(c: Chars, lines: seq<string>, n: nat)
    requires c.space('\n') && Unbroken(lines) && n == NextHeading(c, lines, 0)
    ensures |Flush(c, Run(c, lines, n))| == Preface(c, lines)
  {
    RunAbove(c, lines, n);
    NonBlankNil(c);
    hide IsHeading, Stripped, NonBlank, NextHeading, Run, Join;
    if lines[..n] != [] { JoinedBlank(c, lines[..n]); }
  }

  lemma NextIs(c: Chars, lines: seq<string>, i: nat, n: nat)
    requires i < n < |lines| && IsHeading(c, lines, n) && forall j :: i < j < n ==> !IsHeading(c, lines, j)
    ensures NextHeading(c, lines, i + 1) == n
  {
    hide IsHeading;
    NextHeadingSpec(c, lines, i + 1);
    var r := NextHeading(c, lines, i + 1);
    assert !(r < n) && !(n < r);
  }

  /** When a heading is reached, every heading before it has become one section. */
  lemma {:induction false} SectionsBefore(c: Chars, lines: seq<string>, n: nat)
    requires c.space('\n') && Unbroken(lines) && n < |lines| && IsHeading(c, lines, n)
    ensures |Flush(c, Run(c, lines, n))| == Preface(c, lines) + HeadingsBefore(c, lines, n)
    decreases n
  {
    hide IsHeading, Flush, Run, HeadingsBefore, Preface, NextHeading;
    if n <= NextHeading(c, lines, 0) {
      FirstIs(c, lines, n);
      NoneAbove(c, lines, n);
      FirstFlush(c, lines, n);
    } else {
      var i := Previous(c, lines, n);
      NextIs(c, lines, i, n);
      SectionsBefore(c, lines, i);
      FlushUnder(c, lines, i);
    }
  }

  lemma FirstIs(c: Chars, lines: seq<string>, n: nat)
    requires n < |lines| && IsHeading(c, lines, n) && n <= NextHeading(c, lines, 0)
    ensures NextHeading(c, lines, 0) == n
  {
    hide IsHeading;
    NextHeadingSpec(c, lines, 0);
    var r := NextHeading(c, lines, 0);
    assert !(n < r);
  }

  lemma {:induction false} SectionsGrow(c: Chars, lines: seq<string>, n: nat, m: nat)
    requires n <= m <= |lines|
    ensures Run(c, lines, n).sections <= Flush(c, Run(c, lines, m))
    ensures Run(c, lines, n).sections <= Run(c, lines, m).sections
    decreases m - n
  {
    hide IsHeading, Run, Stripped, Join;
    if n < m {
      SectionsGrow(c, lines, n, m - 1);
      RunStep(c, lines, m);
    }
  }

  /**
   Every heading that is not on the last line has a section of its own: as many sections before it as
   headings above it (and one for text above the first), its own text as breadcrumb, and a body that
   shows exactly the non-blank lines, at least one, up to the next heading.
   */
  lemma HeadingsOpenSections(c: Chars, text: string, i: nat)
    requires c.space('\n') && i + 1 < |Split(text, '\n')| && IsHeading(c, Split(text, '\n'), i)
    ensures var lines, sections := Split(text, '\n'), Sections(c, text);
            var k := Preface(c, lines) + HeadingsBefore(c, lines, i);
            && k < |sections| && sections[k].breadcrumb == Stripped(c, lines[i])
            && TextLines(c, sections[k].body) == NonBlank(c, lines[i + 1..NextHeading(c, lines, i + 1)]) != []
  {
    var lines := Split(text, '\n');
    SplitPieces(text, '\n');
    assert Unbroken(lines);
    SectionsBefore(c, lines, i);
    UnderInk(c, lines, i);
    FlushUnder(c, lines, i);
    OwnSection(c, lines, i);
    hide IsHeading, Stripped, NonBlank, TextLines, NextHeading, Join, Run, Flush, HeadingsBefore, Preface, Split;
  }

  /** What a heading added is still there at the end. */
  lemma OwnSection(c: Chars, lines: seq<string>, i: nat)
    requires c.space('\n') && Unbroken(lines) && i + 1 < |lines| && IsHeading(c, lines, i)
    ensures Flush(c, Run(c, lines, i)) + [SectionAt(c, lines, i)] <= Flush(c, Run(c, lines, |lines|))
  {
    hide IsHeading, Flush, Run, SectionAt, NextHeading;
    var n := NextHeading(c, lines, i + 1);
    NextHeadingSpec(c, lines, i + 1);
    FlushUnder(c, lines, i);
    if n < |lines| {
      RunStep(c, lines, n + 1);
      SectionsGrow(c, lines, n + 1, |lines|);
    }
  }

  // ---------------------------------------------------------------- chunks

  datatype Chunk = Chunk(content: string, index: nat)

  /** The splitter behind the section chunker, which this model leaves open. */
  type Splitter = string -> seq<Chunk>

  function Prefixed(breadcrumb: string, content: string): string {
    if breadcrumb == "" then content else "[" + breadcrumb + "]\n\n" + content
  }

  /** The pieces of one section, in order, each under the section's breadcrumb. */
  function SectionContents(split: Splitter, c: Chars, x: Section): (r: seq<string>) {
    if Stripped(c, x.body) == "" then [] else PieceContents(x.breadcrumb, split(x.body))
  }

  function PieceContents(breadcrumb: string, pieces: seq<Chunk>): (r: seq<string>)
    ensures |r| == |pieces| && forall i :: 0 <= i < |pieces| ==> r[i] == Prefixed(breadcrumb, pieces[i].content)
  {
    if pieces == [] then [] else [Prefixed(breadcrumb, pieces[0].content)] + PieceContents(breadcrumb, pieces[1..])
  }

  function AllContents(split: Splitter, c: Chars, sections: seq<Section>): seq<string> {
    if sections == [] then [] else SectionContents(split, c, sections[0]) + AllContents(split, c, sections[1..])
  }

  ghost predicate Numbered(chunks: seq<Chunk>) {
    forall i :: 0 <= i < |chunks| ==> chunks[i].index == i
  }

  function Contents(chunks: seq<Chunk>): (r: seq<string>)
    ensures |r| == |chunks| && forall i :: 0 <= i < |chunks| ==> r[i] == chunks[i].content
  {
    if chunks == [] then [] else [chunks[0].content] + Contents(chunks[1..])
  }

  /** Renumbering: whatever numbers the splitter gave, the chunks of one section continue the count. */
  method AppendSection(split: Splitter, c: Chars, x: Section, before: seq<Chunk>) returns (all: seq<Chunk>)
    requires Numbered(before)
    ensures Numbered(all) && Contents(all) == Contents(before) + SectionContents(split, c, x)
  {
    all := before;
    if Stripped(c, x.body) == "" { return; }
    var pieces := split(x.body);
    hide Contents, PieceContents, Prefixed, Stripped;
    for i := 0 to |pieces|
      invariant Numbered(all) && |all| == |before| + i
      invariant forall j :: 0 <= j < |before| ==> all[j].content == before[j].content
      invariant forall j :: 0 <= j < i ==> all[|before| + j].content == Prefixed(x.breadcrumb, pieces[j].content)
    {
      all := all + [Chunk(Prefixed(x.breadcrumb, pieces[i].content), |all|)];
    }
    AppendedContents(x.breadcrumb, before, pieces, all);
  }

  lemma AppendedContents(breadcrumb: string, before: seq<Chunk>, pieces: seq<Chunk>, all: seq<Chunk>)
    requires |all| == |before| + |pieces|
    requires forall j :: 0 <= j < |before| ==> all[j].content == before[j].content
    requires forall j :: 0 <= j < |pieces| ==> all[|before| + j].content == Prefixed(breadcrumb, pieces[j].content)
    ensures Contents(all) == Contents(before) + PieceContents(breadcrumb, pieces)
  {
    hide Contents, PieceContents, Prefixed;
    forall k | 0 <= k < |all| ensures Contents(all)[k] == (Contents(before) + PieceContents(breadcrumb, pieces))[k] {
      if k >= |before| { assert all[k] == all[|before| + (k - |before|)]; }
    }
  }

  /** `chunk` on parsed sections: numbered from zero, contents in section order, never empty for a non-blank text. */
  method ChunkSections(split: Splitter, c: Chars, text: string, sections: seq<Section>) returns (all: seq<Chunk>)
    ensures Numbered(all)
    ensures Stripped(c, text) == "" <==> all == []
    ensures Stripped(c, text) != "" ==>
              Contents(all) == if AllContents(split, c, sections) == [] then [text] else AllContents(split, c, sections)
  {
    if Stripped(c, text) == "" { return []; }
    all := [];
    hide SectionContents, Stripped;
    for i := 0 to |sections|
      invariant Numbered(all)
      invariant Contents(all) + AllContents(split, c, sections[i..]) == AllContents(split, c, sections)
    {
      assert sections[i..][0] == sections[i] && sections[i..][1..] == sections[i + 1..];
      ghost var before := Contents(all);
      all := AppendSection(split, c, sections[i], all);
      Assoc(before, SectionContents(split, c, sections[i]), AllContents(split, c, sections[i + 1..]));
    }
    Unit(Contents(all));
    if all == [] { all := [Chunk(text, 0)]; }
  }
}
