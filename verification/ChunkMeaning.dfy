/**
 What the plain-text parser of backend/app/services/chunking/header.py takes for a heading, and what the
 chunks of a document hold, said about the characters of the lines.
 */
module ChunkMeaning {
  import opened Prelude
  import opened Strings
  import opened SectionHeaders
  import opened PlainSections

  /** All the ink of the line lies in `a..b`, and ink stands at both ends of it. */
  ghost predicate InkSpan(c: Chars, line: string, a: nat, b: nat) {
    && a < b <= |line| && !c.space(line[a]) && !c.space(line[b - 1])
    && (forall i :: 0 <= i < a ==> c.space(line[i])) && (forall i :: b <= i < |line| ==> c.space(line[i]))
  }

  ghost predicate BlankLine(c: Chars, line: string) { forall i :: 0 <= i < |line| ==> c.space(line[i]) }

  /** At most eighty characters, no closing full stop or comma, and something other than spaces and numerals. */
  ghost predicate TitleLike(c: Chars, line: string) {
    exists a: nat, b: nat :: InkSpan(c, line, a, b) && TitleSpan(c, line, a, b)
  }

  ghost predicate TitleSpan(c: Chars, line: string, a: nat, b: nat)
    requires a < b <= |line|
  {
    && b - a <= 80 && line[b - 1] != '.' && line[b - 1] != ',' && line[b - 1] != '。' && line[b - 1] != '，'
    && exists k :: a <= k < b && line[k] != ' ' && !c.numeral(line[k])
  }

  lemma LineSpan(c: Chars, line: string) returns (a: nat, b: nat)
    requires !BlankLine(c, line)
    ensures InkSpan(c, line, a, b) && Stripped(c, line) == line[a..b]
  {
    var l := StripLeft(c.space, line);
    LeadingSpec(c.space, line);
    TrimmedSpec(c.space, l);
    a := Leading(c.space, line);
    assert a < |line|;
    var n := Trimmed(c.space, l);
    hide Leading, Trimmed;
    assert l == line[a..] && !c.space(l[0]);
    assert n > 0;
    b := a + n;
    forall i | b <= i < |line| ensures c.space(line[i]) { assert c.space(l[i - a]); }
    assert l[..n] == line[a..b];
  }

  lemma Encloses(c: Chars, line: string, a: nat, b: nat, x: nat, y: nat)
    requires InkSpan(c, line, a, b) && InkSpan(c, line, x, y)
    ensures a <= x && y <= b
  {
  }

  lemma OneSpan(c: Chars, line: string, a: nat, b: nat, x: nat, y: nat)
    requires InkSpan(c, line, a, b) && InkSpan(c, line, x, y)
    ensures a == x && b == y
  {
    Encloses(c, line, a, b, x, y);
    Encloses(c, line, x, y, a, b);
  }

  lemma {:induction false} RemoveMembers(s: string, c: char, x: char)
    ensures x in Remove(s, c) <==> x in s && x != c
  {
    if s != "" {
      RemoveMembers(s[1..], c, x);
      assert x in s <==> x == s[0] || x in s[1..];
    }
  }

  lemma NumeralsOnly(c: Chars, line: string, a: nat, b: nat)
    requires c.space(' ') && InkSpan(c, line, a, b)
    ensures AllNumerals(c, Remove(line[a..b], ' ')) <==> forall k :: a <= k < b && line[k] != ' ' ==> c.numeral(line[k])
  {
    var s := line[a..b];
    var r := Remove(s, ' ');
    hide Remove;
    forall x ensures x in r <==> x in s && x != ' ' { RemoveMembers(s, ' ', x); }
    assert s[0] == line[a] && s[0] in r;
    if AllNumerals(c, r) {
      forall k | a <= k < b && line[k] != ' ' ensures c.numeral(line[k]) {
        assert s[k - a] == line[k] && s[k - a] in r;
        var i :| 0 <= i < |r| && r[i] == line[k];
      }
    }
    if forall k :: a <= k < b && line[k] != ' ' ==> c.numeral(line[k]) {
      forall i | 0 <= i < |r| ensures c.numeral(r[i]) {
        assert r[i] in r && r[i] in s;
        var k :| 0 <= k < |s| && s[k] == r[i];
        assert line[a + k] == r[i];
      }
    }
  }

  lemma StrippedBlank(c: Chars, line: string)
    ensures Stripped(c, line) == "" <==> BlankLine(c, line)
  {
    StripBlank(c.space, line);
    hide Strip;
  }

  /**
   When a line is taken for a heading: it reads like a title, the next line, if any, is not blank, and the
   line before it, if any, is.
   */
  lemma HeadingLine(c: Chars, lines: seq<string>, i: nat)
    requires i < |lines| && c.space(' ')
    ensures IsHeading(c, lines, i) <==>
              && TitleLike(c, lines[i])
              && (i + 1 < |lines| ==> !BlankLine(c, lines[i + 1]))
              && (i > 0 ==> BlankLine(c, lines[i - 1]))
  {
    StrippedBlank(c, lines[i]);
    if i > 0 { StrippedBlank(c, lines[i - 1]); }
    if i + 1 < |lines| { StrippedBlank(c, lines[i + 1]); }
    TitleLine(c, lines[i]);
    hide Stripped, BlankLine, TitleLike, AllNumerals;
  }

  /** The tests on the line itself. */
  lemma TitleLine(c: Chars, line: string)
    requires c.space(' ')
    ensures TitleLike(c, line) <==>
              var s := Stripped(c, line);
              s != "" && |s| <= 80 && s[|s| - 1] !in ".。,，" && !AllNumerals(c, Remove(s, ' '))
  {
    StrippedBlank(c, line);
    hide Stripped, BlankLine;
    if Stripped(c, line) != "" {
      var a, b := LineSpan(c, line);
      NumeralsOnly(c, line, a, b);
      TitleOfSpan(c, line, a, b);
      hide TitleLike, AllNumerals, Remove;
      assert a < b <= |line| && line[a..b][b - a - 1] == line[b - 1];
      hide InkSpan;
    } else {
      NoTitle(c, line);
    }
  }

  lemma TitleOfSpan(c: Chars, line: string, a: nat, b: nat)
    requires InkSpan(c, line, a, b)
    ensures TitleLike(c, line) <==> TitleSpan(c, line, a, b)
  {
    hide TitleSpan;
    if x: nat, y: nat :| InkSpan(c, line, x, y) && TitleSpan(c, line, x, y) { OneSpan(c, line, a, b, x, y); }
  }

  lemma NoTitle(c: Chars, line: string)
    requires BlankLine(c, line)
    ensures !TitleLike(c, line)
  {
  }

  // ---------------------------------------------------------------- chunks

  /** How many chunks a section gives. */
  ghost function PieceCount(split: Splitter, c: Chars, x: Section): nat {
    if BlankLine(c, x.body) then 0 else |split(x.body)|
  }

  /** A piece of a section with a breadcrumb has it in brackets on a line of its own, and a blank line after it. */
  function Labelled(breadcrumb: string, content: string): string {
    if breadcrumb == "" then content else "[" + breadcrumb + "]\n\n" + content
  }

  lemma SectionPieces(split: Splitter, c: Chars, x: Section)
    ensures |SectionContents(split, c, x)| == PieceCount(split, c, x)
    ensures forall j :: 0 <= j < PieceCount(split, c, x) ==>
              SectionContents(split, c, x)[j] == Labelled(x.breadcrumb, split(x.body)[j].content)
  {
    StrippedBlank(c, x.body);
    hide Stripped, BlankLine;
  }

  lemma {:induction false} ContentsOfFront(split: Splitter, c: Chars, sections: seq<Section>, i: nat)
    requires i < |sections|
    ensures AllContents(split, c, sections[..i + 1]) ==
            AllContents(split, c, sections[..i]) + SectionContents(split, c, sections[i])
    decreases i
  {
    hide SectionContents;
    if i == 0 {
      assert sections[..1] == [sections[0]] && sections[..1][1..] == [] && sections[..0] == [];
      Unit(SectionContents(split, c, sections[0]));
      assert AllContents(split, c, []) == [];
    } else {
      ContentsOfFront(split, c, sections[1..], i - 1);
      assert sections[..i + 1][1..] == sections[1..][..i] && sections[..i][1..] == sections[1..][..i - 1];
      Assoc(SectionContents(split, c, sections[0]), AllContents(split, c, sections[1..][..i - 1]),
            SectionContents(split, c, sections[i]));
    }
  }

  lemma {:induction false} ContentsPrefix(split: Splitter, c: Chars, sections: seq<Section>, i: nat)
    requires i <= |sections|
    ensures AllContents(split, c, sections[..i]) <= AllContents(split, c, sections)
    decreases |sections| - i
  {
    hide SectionContents, AllContents;
    if i == |sections| {
      assert sections[..i] == sections;
    } else {
      ContentsPrefix(split, c, sections, i + 1);
      ContentsOfFront(split, c, sections, i);
    }
  }

  /**
   The chunks' contents: section by section, as many as its body has pieces, none for a blank body, each
   piece in its order and under its breadcrumb.
   */
  lemma ContentsMeaning(split: Splitter, c: Chars, sections: seq<Section>, i: nat)
    requires i < |sections|
    ensures var before, all := |AllContents(split, c, sections[..i])|, AllContents(split, c, sections);
            && |AllContents(split, c, sections[..i + 1])| == before + PieceCount(split, c, sections[i]) <= |all|
            && forall j :: 0 <= j < PieceCount(split, c, sections[i]) ==>
                 all[before + j] == Labelled(sections[i].breadcrumb, split(sections[i].body)[j].content)
  {
    hide *;
    ContentsOfFront(split, c, sections, i);
    ContentsPrefix(split, c, sections, i + 1);
    SectionPieces(split, c, sections[i]);
    var front, mine := AllContents(split, c, sections[..i]), SectionContents(split, c, sections[i]);
    var all := AllContents(split, c, sections);
    forall j | 0 <= j < |mine| ensures all[|front| + j] == mine[j] { PrefixAt(front, mine, all, j); }
  }

  lemma PrefixAt(front: seq<string>, mine: seq<string>, all: seq<string>, j: nat)
    requires front + mine <= all && j < |mine|
    ensures all[|front| + j] == mine[j]
  {
    assert all[|front| + j] == (front + mine)[|front| + j];
  }
}
