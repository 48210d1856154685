/**
 Personal-data detection and masking (backend/app/services/guardrails/pii.py).

 The nine patterns are tried in priority order and a match is kept unless an earlier kept match
 overlaps it; the kept matches are then spliced out of the text from right to left.
 */
module Pii {
  import opened Prelude
  import opened Strings
  import opened Regex
  import opened StableSort

  datatype PiiType =
    | ResidentNumber | ForeignerNumber | DriverLicence | Mobile | BusinessNumber
    | Landline | Passport | Email | AccountNumber

  /** Highest priority first. */
  const ORDER: seq<PiiType> := [
    ResidentNumber, ForeignerNumber, DriverLicence, Mobile, BusinessNumber,
    Landline, Passport, Email, AccountNumber
  ]

  function Rank(t: PiiType): nat {
    match t
    case ResidentNumber => 0
    case ForeignerNumber => 1
    case DriverLicence => 2
    case Mobile => 3
    case BusinessNumber => 4
    case Landline => 5
    case Passport => 6
    case Email => 7
    case AccountNumber => 8
  }

  datatype PiiMatch = PiiMatch(piiType: PiiType, value: string, start: nat, end: nat)

  /** The Python exceptions that `mask_value` can raise. */
  datatype MaskError = IndexError | ValueError

  // ---------------------------------------------------------------- the patterns

  function Exactly(cls: Class, n: nat): Item { Rep(cls, n, Some(n)) }

  function Between(cls: Class, lo: nat, hi: nat): Item { Rep(cls, lo, Some(hi)) }

  function Dash(): Item { Rep(Char('-'), 1, Some(1)) }

  function MaybeDash(): Item { Rep(Char('-'), 0, Some(1)) }

  function WordDotDash(): Class { Or(Word, Or(Char('.'), Char('-'))) }

  function PatternOf(t: PiiType): Pattern {
    match t
    case ResidentNumber =>
      Pattern(Some(Digit),
              Then(Exactly(Digit, 6), Then(Dash(), Then(Exactly(Range('1', '4'), 1), Then(Exactly(Digit, 6), End)))),
              Some(Digit))
    case ForeignerNumber =>
      Pattern(Some(Digit),
              Then(Exactly(Digit, 6), Then(Dash(), Then(Exactly(Range('5', '8'), 1), Then(Exactly(Digit, 6), End)))),
              Some(Digit))
    case DriverLicence =>
      Pattern(Some(Digit),
              Then(Exactly(Digit, 2), Then(Dash(), Then(Exactly(Digit, 2), Then(Dash(),
              Then(Exactly(Digit, 6), Then(Dash(), Then(Exactly(Digit, 2), End))))))),
              Some(Digit))
    case Mobile =>
      Pattern(None,
              Then(Exactly(Char('0'), 1), Then(Exactly(Char('1'), 1),
              Then(Exactly(Or(Char('0'), Or(Char('1'), Range('6', '9'))), 1), Then(MaybeDash(),
              Then(Between(Digit, 3, 4), Then(MaybeDash(), Then(Exactly(Digit, 4), End))))))),
              Some(Digit))
    case BusinessNumber =>
      Pattern(Some(Digit),
              Then(Exactly(Digit, 3), Then(Dash(), Then(Exactly(Digit, 2),
                  Then(Dash(), Then(Exactly(Digit, 5), End))))),
              Some(Digit))
    case Landline =>
      Pattern(Some(Digit),
              Then(Exactly(Char('0'), 1), Then(Between(Digit, 1, 2), Then(Dash(),
              Then(Between(Digit, 3, 4), Then(Dash(), Then(Exactly(Digit, 4), End)))))),
              Some(Digit))
    case Passport =>
      Pattern(Some(Range('A', 'Z')), Then(Exactly(Range('A', 'Z'), 1), Then(Exactly(Digit, 8), End)), Some(Digit))
    case Email =>
      Pattern(None,
              Then(Rep(WordDotDash(), 1, None), Then(Exactly(Char('@'), 1),
              Then(Rep(WordDotDash(), 1, None), Then(Exactly(Char('.'), 1), Then(Rep(Word, 1, None), End))))),
              None)
    case AccountNumber =>
      Pattern(Some(Digit),
              Then(Between(Digit, 3, 4), Then(Dash(), Then(Between(Digit, 2, 6), Then(Dash(),
              Then(Between(Digit, 2, 6), End))))),
              Some(Digit))
  }

  /** Dates, which the three number-like patterns must not touch. */
  function DatePattern(): Pattern {
    Pattern(None,
            Then(Exactly(Digit, 4), Then(Dash(), Then(Exactly(Digit, 2), Then(Dash(), Then(Exactly(Digit, 2), End))))),
            None)
  }

  predicate DateSensitive(t: PiiType) {
    t == ResidentNumber || t == ForeignerNumber || t == AccountNumber
  }

  lemma PatternsNonEmpty(t: PiiType)
    ensures MinLength(PatternOf(t).items) > 0 && MinLength(DatePattern().items) > 0
  {
    match t {
      case ResidentNumber => case ForeignerNumber => case DriverLicence => case Mobile => case BusinessNumber =>
      case Landline => case Passport => case Email => case AccountNumber =>
    }
  }

  function Finds(u: Alphabet, t: PiiType, text: string): seq<Match> {
    PatternsNonEmpty(t);
    FindIter(u, PatternOf(t), text)
  }

  function Dates(u: Alphabet, text: string): seq<Match> {
    PatternsNonEmpty(ResidentNumber);
    FindIter(u, DatePattern(), text)
  }

  // ---------------------------------------------------------------- masking one value

  function Stars(n: nat): string { Repeat('*', n) }

  function StarEach(parts: seq<string>): seq<string> {
    if parts == [] then [] else [Stars(|parts[0]|)] + StarEach(parts[1..])
  }

  /** The offset of the first `c`, or the length when there is none. */
  function IndexOf(s: string, c: char): (i: nat)
    ensures i <= |s| && (i < |s| ==> s[i] == c) && c !in s[..i]
  {
    if s == "" || s[0] == c then 0
    else
      var i := 1 + IndexOf(s[1..], c);
      assert s[..i] == [s[0]] + s[1..][..i - 1];
      i
  }

  lemma {:induction false} IndexOfFirst(a: string, c: char, b: string)
    requires c !in a
    ensures IndexOf(a + [c] + b, c) == |a|
  {
    if a != "" {
      assert (a + [c] + b)[1..] == a[1..] + [c] + b;
      IndexOfFirst(a[1..], c, b);
    }
  }

  function MaskValue(m: PiiMatch): Result<string, MaskError> {
    var v := m.value;
    var parts := Split(v, '-');
    match m.piiType
    case ResidentNumber => if |parts| == 2 then Ok(parts[0] + "-" + Stars(|parts[1]|)) else Ok(MaskDefault(v))
    case ForeignerNumber => if |parts| == 2 then Ok(parts[0] + "-" + Stars(|parts[1]|)) else Ok(MaskDefault(v))
    case Mobile =>
      if '-' in v then
        if |parts| < 3 then Err(IndexError)
        else Ok(parts[0] + "-" + Stars(|parts[1]|) + "-" + Stars(|parts[2]|))
      else Ok(SliceTo(v, 3) + Repeat('*', |v| - 3))
    case Landline =>
      if |parts| == 3 then Ok(parts[0] + "-" + Stars(|parts[1]|) + "-" + Stars(|parts[2]|)) else Ok(MaskDefault(v))
    case BusinessNumber =>
      if |parts| == 3 then Ok(parts[0] + "-" + Stars(|parts[1]|) + "-" + Stars(|parts[2]|)) else Ok(MaskDefault(v))
    case Email =>
      if '@' !in v then Err(ValueError)
      else
        var at := IndexOf(v, '@');
        var local, domain := v[..at], SliceFrom(v, at + 1);
        Ok((if |local| <= 1 then local + "***" else [local[0]] + "***") + "@" + domain)
    case Passport => if v == "" then Err(IndexError) else Ok([v[0]] + Stars(|v| - 1))
    case DriverLicence =>
      if |parts| == 4 then Ok(parts[0] + "-" + Stars(|parts[1]|) + "-" + Stars(|parts[2]|) + "-" + Stars(|parts[3]|))
      else Ok(MaskDefault(v))
    case AccountNumber =>
      if |parts| >= 2 then Ok(parts[0] + "-" + Join(StarEach(parts[1..]), "-")) else Ok(MaskDefault(v))
  }

  function MaskDefault(v: string): string { SliceTo(v, 2) + Repeat('*', |v| - 2) }

  /** Every character but the hyphens starred. */
  function StarAll(s: string): (r: string)
    ensures |r| == |s| && forall i :: 0 <= i < |s| ==> r[i] == if s[i] == '-' then '-' else '*'
  {
    if s == "" then "" else [if s[0] == '-' then '-' else '*'] + StarAll(s[1..])
  }

  /** The first `k` characters kept, everything after them starred except the hyphens. */
  function StarAfter(v: string, k: nat): (r: string)
    requires k <= |v|
    ensures |r| == |v|
    ensures forall i :: 0 <= i < |v| ==> r[i] == if i < k || v[i] == '-' then v[i] else '*'
  {
    v[..k] + StarAll(v[k..])
  }

  lemma {:induction false} StarAllConcat(a: string, b: string)
    ensures StarAll(a + b) == StarAll(a) + StarAll(b)
  {
    var l, r := StarAll(a + b), StarAll(a) + StarAll(b);
    assert |l| == |r| && forall i :: 0 <= i < |l| ==> l[i] == r[i];
  }

  lemma StarAllPlain(s: string)
    requires '-' !in s
    ensures StarAll(s) == Stars(|s|)
  {
    assert |Stars(|s|)| == |s| && forall i :: 0 <= i < |s| ==> Stars(|s|)[i] == '*';
  }

  lemma {:induction false} StarEachJoin(parts: seq<string>)
    requires forall p :: p in parts ==> '-' !in p
    ensures Join(StarEach(parts), "-") == StarAll(Join(parts, "-"))
    ensures |StarEach(parts)| == |parts|
  {
    if parts != [] {
      assert parts[0] in parts;
      StarAllPlain(parts[0]);
      forall p | p in parts[1..] ensures '-' !in p { assert p in parts; }
      StarEachJoin(parts[1..]);
      assert StarEach(parts)[1..] == StarEach(parts[1..]);
      if |parts| > 1 {
        StarAllConcat(parts[0] + "-", Join(parts[1..], "-"));
        StarAllConcat(parts[0], "-");
        assert StarAll("-") == "-";
      }
    }
  }

  /** A hyphenated value is its first part, a hyphen, and the other parts joined again. */
  lemma HyphenParts(v: string)
    requires '-' in v
    ensures var parts := Split(v, '-');
            && |parts| >= 2 && v == parts[0] + "-" + Join(parts[1..], "-")
            && forall p :: p in parts ==> '-' !in p
  {
    SplitCount(v, '-');
    SplitPieces(v, '-');
    JoinSplit(v, '-');
    CountZero(v, '-');
  }

  lemma StarAfterHead(head: string, rest: string)
    requires '-' !in head
    ensures var v := head + "-" + rest;
            StarAfter(v, IndexOf(v, '-')) == head + "-" + StarAll(rest)
  {
    var v := head + "-" + rest;
    IndexOfFirst(head, '-', rest);
    hide IndexOf, StarAll;
    Assoc(head, "-", rest);
    CutConcat(head, "-" + rest);
    StarAllConcat("-", rest);
    assert StarAll("-") == "-";
    Assoc(head, "-", StarAll(rest));
  }

  /** Keeping the first hyphen-separated part and starring the others is `StarAfter` at the first hyphen. */
  lemma StarredParts(v: string)
    requires '-' in v
    ensures var parts := Split(v, '-');
            && |parts| >= 2
            && parts[0] + "-" + Join(StarEach(parts[1..]), "-") == StarAfter(v, IndexOf(v, '-'))
  {
    hide *;
    HyphenParts(v);
    var parts := Split(v, '-');
    forall p | p in parts[1..] ensures '-' !in p { assert p in parts; }
    StarEachJoin(parts[1..]);
    assert parts[0] in parts;
    StarAfterHead(parts[0], Join(parts[1..], "-"));
  }

  // ---------------------------------------------------------------- what the patterns say about hyphens

  /** Each repetition is of hyphens alone, of a bounded number, or of characters that exclude the hyphen. */
  ghost predicate HyphensExplicit(u: Alphabet, items: Items)
    decreases items
  {
    match items
    case End => true
    case Then(Rep(cls, _, hi), rest) =>
      && (if cls == Char('-') then hi.Some? else !In(u, cls, '-'))
      && HyphensExplicit(u, rest)
    case Then(Alt(_), _) => false
  }

  function FewestHyphens(items: Items): nat {
    match items
    case End => 0
    case Then(Rep(cls, lo, _), rest) => (if cls == Char('-') then lo else 0) + FewestHyphens(rest)
    case Then(Alt(_), rest) => FewestHyphens(rest)
  }

  function MostHyphens(items: Items): nat {
    match items
    case End => 0
    case Then(Rep(cls, _, hi), rest) => (if cls == Char('-') && hi.Some? then hi.value else 0) + MostHyphens(rest)
    case Then(Alt(_), rest) => MostHyphens(rest)
  }

  lemma {:induction false} CountHyphenRun(s: string)
    requires forall i :: 0 <= i < |s| ==> s[i] == '-'
    ensures Count(s, '-') == |s|
  {
    if s != "" { CountHyphenRun(s[1..]); }
  }

  lemma {:induction false} FitsHyphens(u: Alphabet, text: string, pos: nat, items: Items, ahead: Option<Class>,
                                       lens: seq<nat>)
    requires pos <= |text|
    requires Fits(u, text, pos, items, ahead, lens)
    requires HyphensExplicit(u, items)
    ensures pos + Total(lens) <= |text|
    ensures FewestHyphens(items) <= Count(text[pos..pos + Total(lens)], '-') <= MostHyphens(items)
    decreases items
  {
    if items.Then? {
      FitsBounds(u, text, pos, items, ahead, lens);
      FitsHyphens(u, text, pos + lens[0], items.rest, ahead, lens[1..]);
      var piece := text[pos..pos + lens[0]];
      var rest := text[pos + lens[0]..pos + Total(lens)];
      assert text[pos..pos + Total(lens)] == piece + rest;
      CountConcat(piece, rest, '-');
      if items.item.cls == Char('-') {
        CountHyphenRun(piece);
      } else {
        CountZero(piece, '-');
      }
    }
  }

  /** The shape of a value that the pattern of `t` matched. */
  ghost predicate Shaped(t: PiiType, v: string) {
    match t
    case ResidentNumber => Count(v, '-') == 1
    case ForeignerNumber => Count(v, '-') == 1
    case DriverLicence => Count(v, '-') == 3
    case Mobile => Count(v, '-') <= 2 && |v| >= 10
    case BusinessNumber => Count(v, '-') == 2
    case Landline => Count(v, '-') == 2
    case Passport => Count(v, '-') == 0 && |v| >= 9
    case Email => '@' in v
    case AccountNumber => Count(v, '-') == 2
  }

  /** Items that begin with one given character put it at the front of the match. */
  lemma FitsFirstChar(u: Alphabet, text: string, pos: nat, items: Items, ahead: Option<Class>, lens: seq<nat>, c: char)
    requires pos <= |text| && Fits(u, text, pos, items, ahead, lens)
    requires items.Then? && items.item == Exactly(Char(c), 1)
    ensures pos < |text| && text[pos] == c && Total(lens) >= 1
  {
    var piece := text[pos..pos + lens[0]];
    assert ItemMatches(u, items.item, piece);
    assert piece[0] == c;
  }

  lemma EmailItems()
    ensures var p := PatternOf(Email);
            p.items.Then? && p.items.rest.Then? && p.items.rest.item == Exactly(Char('@'), 1)
  {
  }

  lemma EmailHasAt(u: Alphabet, text: string, m: Match)
    requires IsMatch(u, PatternOf(Email), text, m)
    ensures '@' in text[m.start..m.end]
  {
    hide Fits, PatternOf, Total;
    var p := PatternOf(Email);
    EmailItems();
    FitsRest(u, text, m.start, p.items, p.ahead, m.lens);
    FitsFirstChar(u, text, m.start + m.lens[0], p.items.rest, p.ahead, m.lens[1..], '@');
    TotalTail(m.lens);
    assert text[m.start..m.end][m.lens[0]] == '@';
  }

  lemma TotalTail(lens: seq<nat>)
    requires lens != []
    ensures Total(lens) == lens[0] + Total(lens[1..])
  {
  }

  lemma MatchesAreShaped(u: Alphabet, t: PiiType, text: string, m: Match)
    requires Sane(u)
    requires IsMatch(u, PatternOf(t), text, m)
    ensures Shaped(t, text[m.start..m.end])
  {
    if t == Email {
      EmailHasAt(u, text, m);
    } else {
      MatchHyphens(u, t, text, m);
    }
    hide IsMatch, PatternOf, MinLength;
  }

  lemma MatchHyphens(u: Alphabet, t: PiiType, text: string, m: Match)
    requires Sane(u) && t != Email && IsMatch(u, PatternOf(t), text, m)
    ensures var v := text[m.start..m.end];
            && HyphenRange(t).0 <= Count(v, '-') <= HyphenRange(t).1
            && (t == Mobile ==> |v| >= 10) && (t == Passport ==> |v| >= 9)
  {
    hide PatternOf, Fits, HyphensExplicit, FewestHyphens, MostHyphens, MinLength, HyphenRange, Sane;
    var p := PatternOf(t);
    PatternHyphens(u, t);
    FitsHyphens(u, text, m.start, p.items, p.ahead, m.lens);
    FitsBounds(u, text, m.start, p.items, p.ahead, m.lens);
  }

  lemma PatternHyphens(u: Alphabet, t: PiiType)
    requires Sane(u) && t != Email
    ensures HyphensExplicit(u, PatternOf(t).items)
    ensures FewestHyphens(PatternOf(t).items) == HyphenRange(t).0 && MostHyphens(PatternOf(t).items) == HyphenRange(t).1
    ensures (t == Mobile ==> MinLength(PatternOf(t).items) == 10)
        && (t == Passport ==> MinLength(PatternOf(t).items) == 9)
  {
    hide *;
    if t == Mobile || t == Passport { MobileHyphens(u, t); }
    else if t == DriverLicence || t == Landline { LicenceHyphens(u, t); }
    else if t == ResidentNumber || t == ForeignerNumber { RegistrationHyphens(u, t); }
    else { NumberHyphens(u, t); }
  }

  /** The bounds on the number of hyphens that each pattern puts on its matches. */
  function HyphenRange(t: PiiType): (nat, nat) {
    match t
    case ResidentNumber => (1, 1)
    case ForeignerNumber => (1, 1)
    case DriverLicence => (3, 3)
    case Mobile => (0, 2)
    case Passport => (0, 0)
    case _ => (2, 2)
  }

  lemma RegistrationHyphens(u: Alphabet, t: PiiType)
    requires Sane(u) && (t == ResidentNumber || t == ForeignerNumber)
    ensures HyphensExplicit(u, PatternOf(t).items)
    ensures (FewestHyphens(PatternOf(t).items), MostHyphens(PatternOf(t).items)) == HyphenRange(t)
  {
  }

  lemma NumberHyphens(u: Alphabet, t: PiiType)
    requires Sane(u) && (t == BusinessNumber || t == AccountNumber)
    ensures HyphensExplicit(u, PatternOf(t).items)
    ensures (FewestHyphens(PatternOf(t).items), MostHyphens(PatternOf(t).items)) == HyphenRange(t)
  {
  }

  lemma LicenceHyphens(u: Alphabet, t: PiiType)
    requires Sane(u) && (t == DriverLicence || t == Landline)
    ensures HyphensExplicit(u, PatternOf(t).items)
    ensures (FewestHyphens(PatternOf(t).items), MostHyphens(PatternOf(t).items)) == HyphenRange(t)
  {
  }

  lemma MobileHyphens(u: Alphabet, t: PiiType)
    requires Sane(u) && (t == Mobile || t == Passport)
    ensures HyphensExplicit(u, PatternOf(t).items)
    ensures (FewestHyphens(PatternOf(t).items), MostHyphens(PatternOf(t).items)) == HyphenRange(t)
    ensures MinLength(PatternOf(t).items) == if t == Mobile then 10 else 9
  {
    var third := Or(Char('1'), Range('6', '9'));
    assert !In(u, third, '-');
  }

  /** The one input on which `mask_value` fails: a mobile number written with a single hyphen. */
  predicate OneHyphenMobile(m: PiiMatch) {
    m.piiType == Mobile && Count(m.value, '-') == 1
  }

  /** How many leading characters a masked value keeps. */
  function KeptPrefix(m: PiiMatch): (k: nat)
    ensures k <= |m.value|
  {
    if m.piiType == Passport then Min(1, |m.value|)
    else if m.piiType == Mobile && '-' !in m.value then Min(3, |m.value|)
    else IndexOf(m.value, '-')
  }

  /** On every value a pattern can produce, masking fails exactly on one-hyphen mobile numbers ... */
  lemma MaskValueFails(m: PiiMatch)
    requires Shaped(m.piiType, m.value)
    ensures MaskValue(m).Err? <==> OneHyphenMobile(m)
    ensures OneHyphenMobile(m) ==> MaskValue(m) == Err(IndexError)
  {
    SplitCount(m.value, '-');
    CountZero(m.value, '-');
  }

  lemma JoinStars(parts: seq<string>)
    requires 1 <= |parts| <= 3
    ensures Join(StarEach(parts), "-") ==
            if |parts| == 1 then Stars(|parts[0]|)
            else if |parts| == 2 then Stars(|parts[0]|) + "-" + Stars(|parts[1]|)
            else Stars(|parts[0]|) + "-" + Stars(|parts[1]|) + "-" + Stars(|parts[2]|)
  {
    var stars := StarEach(parts);
    assert stars[1..] == StarEach(parts[1..]);
    if |parts| > 1 {
      assert stars[2..] == stars[1..][1..] == StarEach(parts[1..][1..]);
      assert stars[1] == Stars(|parts[1]|);
      if |parts| == 2 {
        assert Join(stars[1..], "-") == stars[1];
      } else {
        assert stars[2..] == [Stars(|parts[2]|)];
        assert Join(stars[1..], "-") == stars[1] + "-" + Join(stars[2..], "-");
      }
    }
  }

  lemma MaskHyphenated(m: PiiMatch)
    requires Shaped(m.piiType, m.value) && '-' in m.value
    requires m.piiType != Email && !OneHyphenMobile(m)
    ensures var parts := Split(m.value, '-');
            |parts| >= 2 && MaskValue(m) == Ok(parts[0] + "-" + Join(StarEach(parts[1..]), "-"))
  {
    var parts := Split(m.value, '-');
    SplitCount(m.value, '-');
    CountZero(m.value, '-');
    assert 2 <= |parts| <= 4;
    JoinStars(parts[1..]);
    var rest := parts[1..];
    assert rest[0] == parts[1];
    if |parts| > 2 {
      assert rest[1] == parts[2];
      var head := parts[0] + "-";
      assert head + (Stars(|rest[0]|) + "-" + Stars(|rest[1]|)) == head + Stars(|rest[0]|) + "-" + Stars(|rest[1]|);
      if |parts| > 3 {
        assert rest[2] == parts[3];
        var two := Stars(|rest[0]|) + "-" + Stars(|rest[1]|);
        assert head + (two + "-" + Stars(|rest[2]|)) == (head + two) + "-" + Stars(|rest[2]|);
      }
    }
  }

  /** ... and otherwise keeps a prefix and the hyphens, and stars the rest. */
  lemma MaskValueMeaning(m: PiiMatch)
    requires Shaped(m.piiType, m.value)
    requires m.piiType != Email && !OneHyphenMobile(m)
    ensures MaskValue(m) == Ok(StarAfter(m.value, KeptPrefix(m)))
  {
    var v := m.value;
    CountZero(v, '-');
    if '-' in v {
      MaskHyphenated(m);
      StarredParts(v);
    } else {
      assert m.piiType == Passport || m.piiType == Mobile;
      var k := KeptPrefix(m);
      StarAllPlain(v[k..]);
      assert v[..1] == [v[0]];
    }
  }

  /** An e-mail address shows one letter and its domain: not even the length of the local part remains. */
  lemma MaskEmail(m: PiiMatch, local: string, domain: string)
    requires m.piiType == Email && '@' !in local && m.value == local + "@" + domain
    ensures MaskValue(m) == Ok(local[..Min(1, |local|)] + "***@" + domain)
  {
    IndexOfFirst(local, '@', domain);
    Assoc(local, "@", domain);
    CutConcat(local, "@" + domain);
    CutConcat(local + "@", domain);
    assert m.value[|local|] == '@';
    assert m.value[..|local|] == local && SliceFrom(m.value, |local| + 1) == domain;
    assert local[..Min(1, |local|)] == if |local| <= 1 then local else [local[0]];
    Assoc(local[..Min(1, |local|)], "***", "@");
    assert "***" + "@" == "***@";
  }

  /** How many hyphens the values of a kind are split at; the other kinds are masked whatever they hold. */
  ghost function Splits(t: PiiType): nat {
    match t
    case ResidentNumber => 1
    case ForeignerNumber => 1
    case Landline => 2
    case BusinessNumber => 2
    case DriverLicence => 3
    case _ => 0
  }

  /** A value that is not written like its kind shows its first two characters, and nothing else but its length. */
  lemma MaskFallback(m: PiiMatch)
    requires if m.piiType == AccountNumber then '-' !in m.value
             else Splits(m.piiType) > 0 && Count(m.value, '-') != Splits(m.piiType)
    ensures var v, r := m.value, MaskValue(m);
            && r.Ok? && |r.value| == |v|
            && forall i :: 0 <= i < |v| ==> r.value[i] == if i < 2 then v[i] else '*'
  {
    SplitCount(m.value, '-');
    CountZero(m.value, '-');
    hide Split, Count;
  }

  // ---------------------------------------------------------------- choosing the spans

  predicate Overlap(a: PiiMatch, start: nat, end: nat) {
    a.start < end && start < a.end
  }

  predicate Blocks(kept: seq<PiiMatch>, start: nat, end: nat) {
    exists k | k in kept :: Overlap(k, start, end)
  }

  /** Some position of the span lies inside a date. */
  predicate TouchesDate(dates: seq<Match>, start: nat, end: nat) {
    exists d | d in dates :: d.start < end && start < d.end
  }

  function ToPii(text: string, t: PiiType, m: Match): PiiMatch
    requires m.start <= m.end <= |text|
  {
    PiiMatch(t, text[m.start..m.end], m.start, m.end)
  }

  predicate Excluded(t: PiiType, dates: seq<Match>, m: Match) {
    DateSensitive(t) && TouchesDate(dates, m.start, m.end)
  }

  ghost predicate InText(text: string, ms: seq<Match>) {
    forall m :: m in ms ==> m.start < m.end <= |text|
  }

  /** One pattern's matches, added to the kept list in order unless blocked. */
  function KeepMatches(text: string, t: PiiType, ms: seq<Match>, dates: seq<Match>, kept: seq<PiiMatch>): seq<PiiMatch>
    requires InText(text, ms)
    decreases |ms|
  {
    if ms == [] then kept
    else
      assert ms[0] in ms;
      var next := if Excluded(t, dates, ms[0]) || Blocks(kept, ms[0].start, ms[0].end) then kept
                  else kept + [ToPii(text, t, ms[0])];
      KeepMatches(text, t, ms[1..], dates, next)
  }

  lemma FindsInText(u: Alphabet, t: PiiType, text: string)
    ensures InText(text, Finds(u, t, text))
  {
    PatternsNonEmpty(t);
    FindIterSpec(u, PatternOf(t), text);
  }

  /** The first `n` patterns in priority order. */
  function ScanFirst(u: Alphabet, text: string, n: nat): seq<PiiMatch>
    requires n <= |ORDER|
  {
    if n == 0 then []
    else
      var t := ORDER[n - 1];
      FindsInText(u, t, text);
      KeepMatches(text, t, Finds(u, t, text), Dates(u, text), ScanFirst(u, text, n - 1))
  }

  function Scan(u: Alphabet, text: string): seq<PiiMatch> {
    ScanFirst(u, text, |ORDER|)
  }

  ghost predicate Disjoint(ms: seq<PiiMatch>) {
    forall i, j :: 0 <= i < j < |ms| ==> !Overlap(ms[i], ms[j].start, ms[j].end)
  }

  ghost predicate DisjointMatches(ms: seq<Match>) {
    forall i, j :: 0 <= i < j < |ms| ==> ms[i].end <= ms[j].start
  }

  predicate Free(t: PiiType, dates: seq<Match>, kept: seq<PiiMatch>, m: Match) {
    !Excluded(t, dates, m) && !Blocks(kept, m.start, m.end)
  }

  /** The matches that neither a date nor a span of the fixed list `kept` rules out. */
  function Allowed(text: string, t: PiiType, ms: seq<Match>, dates: seq<Match>, kept: seq<PiiMatch>): seq<PiiMatch>
    requires InText(text, ms)
    decreases |ms|
  {
    if ms == [] then []
    else
      assert ms[0] in ms;
      (if Free(t, dates, kept, ms[0]) then [ToPii(text, t, ms[0])] else []) + Allowed(text, t, ms[1..], dates, kept)
  }

  lemma {:induction false} AllowedAgree(text: string, t: PiiType, ms: seq<Match>, dates: seq<Match>, a: seq<PiiMatch>,
                                        b: seq<PiiMatch>)
    requires InText(text, ms)
    requires forall m :: m in ms ==> Blocks(a, m.start, m.end) == Blocks(b, m.start, m.end)
    ensures Allowed(text, t, ms, dates, a) == Allowed(text, t, ms, dates, b)
    decreases |ms|
  {
    if ms != [] {
      assert ms[0] in ms;
      AllowedAgree(text, t, ms[1..], dates, a, b);
    }
  }

  lemma {:induction false} AllowedMembers(text: string, t: PiiType, ms: seq<Match>, dates: seq<Match>,
                                          kept: seq<PiiMatch>)
    requires InText(text, ms)
    ensures forall m :: m in ms && Free(t, dates, kept, m) ==> ToPii(text, t, m) in Allowed(text, t, ms, dates, kept)
    ensures forall x :: x in Allowed(text, t, ms, dates, kept) ==>
              exists m :: m in ms && Free(t, dates, kept, m) && x == ToPii(text, t, m)
    decreases |ms|
  {
    if ms != [] {
      assert ms[0] in ms;
      AllowedMembers(text, t, ms[1..], dates, kept);
      forall m | m in ms && Free(t, dates, kept, m) ensures ToPii(text, t, m) in Allowed(text, t, ms, dates, kept) {
        if m != ms[0] { assert m in ms[1..]; }
      }
      forall x | x in Allowed(text, t, ms, dates, kept)
        ensures exists m :: m in ms && Free(t, dates, kept, m) && x == ToPii(text, t, m)
      {
        if x in Allowed(text, t, ms[1..], dates, kept) {
          var m :| m in ms[1..] && Free(t, dates, kept, m) && x == ToPii(text, t, m);
          assert m in ms;
        }
      }
    }
  }

  lemma BlocksSnoc(kept: seq<PiiMatch>, x: PiiMatch, start: nat, end: nat)
    ensures Blocks(kept + [x], start, end) <==> Blocks(kept, start, end) || Overlap(x, start, end)
  {
    if k :| k in kept && Overlap(k, start, end) { assert k in kept + [x]; }
    if Overlap(x, start, end) { assert x in kept + [x]; }
  }

  /** A span that the first of a pattern's disjoint matches leaves behind blocks none of the later ones. */
  lemma KeptBlocksNoLater(text: string, t: PiiType, ms: seq<Match>, dates: seq<Match>, kept: seq<PiiMatch>)
    requires InText(text, ms) && DisjointMatches(ms) && ms != []
    requires ms[0].start <= ms[0].end <= |text|
    ensures Allowed(text, t, ms[1..], dates, kept + [ToPii(text, t, ms[0])]) == Allowed(text, t, ms[1..], dates, kept)
  {
    var x := ToPii(text, t, ms[0]);
    forall w | w in ms[1..] ensures Blocks(kept + [x], w.start, w.end) == Blocks(kept, w.start, w.end) {
      BlocksSnoc(kept, x, w.start, w.end);
    }
    AllowedAgree(text, t, ms[1..], dates, kept + [x], kept);
  }

  /** What the first match adds to the list. */
  function FirstKept(text: string, t: PiiType, dates: seq<Match>, kept: seq<PiiMatch>, m: Match): seq<PiiMatch>
    requires m.start <= m.end <= |text|
  {
    if Free(t, dates, kept, m) then [ToPii(text, t, m)] else []
  }

  lemma KeepStep(text: string, t: PiiType, ms: seq<Match>, dates: seq<Match>, kept: seq<PiiMatch>)
    requires InText(text, ms) && ms != []
    ensures ms[0].start <= ms[0].end <= |text| && InText(text, ms[1..])
    ensures var first := FirstKept(text, t, dates, kept, ms[0]);
            && KeepMatches(text, t, ms, dates, kept) == KeepMatches(text, t, ms[1..], dates, kept + first)
            && Allowed(text, t, ms, dates, kept) == first + Allowed(text, t, ms[1..], dates, kept)
  {
    assert ms[0] in ms;
    hide Excluded, Blocks, ToPii, Overlap;
    Unit(kept);
  }

  lemma LaterKeptAlike(text: string, t: PiiType, ms: seq<Match>, dates: seq<Match>, kept: seq<PiiMatch>)
    requires InText(text, ms) && DisjointMatches(ms) && ms != []
    requires ms[0].start <= ms[0].end <= |text|
    ensures var first := FirstKept(text, t, dates, kept, ms[0]);
            Allowed(text, t, ms[1..], dates, kept + first) == Allowed(text, t, ms[1..], dates, kept)
  {
    hide Excluded, Blocks, ToPii, Overlap, Allowed;
    if Free(t, dates, kept, ms[0]) { KeptBlocksNoLater(text, t, ms, dates, kept); } else { Unit(kept); }
  }

  lemma DisjointTail(ms: seq<Match>)
    requires DisjointMatches(ms) && ms != []
    ensures DisjointMatches(ms[1..])
  {
  }

  /**
   A pattern's matches are disjoint, so the growing list blocks none that the list at the start
   of the loop did not: the loop is a filter.
   */
  lemma {:induction false} KeepMatchesFilters(text: string, t: PiiType, ms: seq<Match>, dates: seq<Match>,
                                              kept: seq<PiiMatch>)
    requires InText(text, ms) && DisjointMatches(ms)
    ensures KeepMatches(text, t, ms, dates, kept) == kept + Allowed(text, t, ms, dates, kept)
    decreases |ms|
  {
    if ms == [] {
      hide Allowed, KeepMatches;
      NothingKept(text, t, dates, kept);
    } else {
      hide *;
      KeepStep(text, t, ms, dates, kept);
      DisjointTail(ms);
      var first := FirstKept(text, t, dates, kept, ms[0]);
      KeepMatchesFilters(text, t, ms[1..], dates, kept + first);
      LaterKeptAlike(text, t, ms, dates, kept);
      Assoc(kept, first, Allowed(text, t, ms[1..], dates, kept));
    }
  }

  lemma NothingKept(text: string, t: PiiType, dates: seq<Match>, kept: seq<PiiMatch>)
    ensures KeepMatches(text, t, [], dates, kept) == kept + Allowed(text, t, [], dates, kept)
  {
  }

  lemma {:induction false} AllowedDisjoint(text: string, t: PiiType, ms: seq<Match>, dates: seq<Match>,
                                           kept: seq<PiiMatch>)
    requires InText(text, ms) && DisjointMatches(ms)
    ensures Disjoint(Allowed(text, t, ms, dates, kept))
    decreases |ms|
  {
    if ms != [] {
      assert ms[0] in ms;
      AllowedDisjoint(text, t, ms[1..], dates, kept);
      AllowedMembers(text, t, ms[1..], dates, kept);
      var tail := Allowed(text, t, ms[1..], dates, kept);
      if Free(t, dates, kept, ms[0]) {
        var x := ToPii(text, t, ms[0]);
        forall j | 0 <= j < |tail| ensures !Overlap(x, tail[j].start, tail[j].end) {
          assert tail[j] in tail;
          var m :| m in ms[1..] && Free(t, dates, kept, m) && tail[j] == ToPii(text, t, m);
        }
        DisjointCons(x, tail);
      } else {
        assert Allowed(text, t, ms, dates, kept) == tail;
      }
    }
  }

  lemma DisjointCons(x: PiiMatch, tail: seq<PiiMatch>)
    requires Disjoint(tail) && forall j :: 0 <= j < |tail| ==> !Overlap(x, tail[j].start, tail[j].end)
    ensures Disjoint([x] + tail)
  {
    var r := [x] + tail;
    forall i, j | 0 <= i < j < |r| ensures !Overlap(r[i], r[j].start, r[j].end) {
      assert r[j] == tail[j - 1];
      if i > 0 { assert r[i] == tail[i - 1]; }
    }
  }

  lemma DisjointAppend(a: seq<PiiMatch>, b: seq<PiiMatch>)
    requires Disjoint(a) && Disjoint(b)
    requires forall x :: x in b ==> !Blocks(a, x.start, x.end)
    ensures Disjoint(a + b)
  {
    var r := a + b;
    forall i, j | 0 <= i < j < |r| ensures !Overlap(r[i], r[j].start, r[j].end) {
      if j >= |a| {
        assert r[j] == b[j - |a|];
        if i < |a| { assert r[i] in a; } else { assert r[i] == b[i - |a|]; }
      }
    }
  }

  // ---------------------------------------------------------------- what the scan selects

  /** `x` is a match of its own pattern, as `finditer` found it. */
  ghost predicate FromPattern(u: Alphabet, text: string, x: PiiMatch) {
    exists m :: m in Finds(u, x.piiType, text) && m.start <= m.end <= |text| && x == ToPii(text, x.piiType, m)
  }

  /** Ruled in: no date in the way, and no span of `kept` from an earlier pattern overlaps. */
  ghost predicate Entitled(u: Alphabet, text: string, kept: seq<PiiMatch>, t: PiiType, m: Match) {
    && !Excluded(t, Dates(u, text), m)
    && (forall k :: k in kept && Rank(k.piiType) < Rank(t) ==> !Overlap(k, m.start, m.end))
  }

  lemma ORDERByRank(i: nat)
    requires i < |ORDER|
    ensures Rank(ORDER[i]) == i
  {
  }

  lemma ScanStep(u: Alphabet, text: string, n: nat)
    requires 0 < n <= |ORDER|
    ensures var t := ORDER[n - 1];
            && InText(text, Finds(u, t, text)) && DisjointMatches(Finds(u, t, text))
            && ScanFirst(u, text, n) ==
                 ScanFirst(u, text, n - 1)
                   + Allowed(text, t, Finds(u, t, text), Dates(u, text), ScanFirst(u, text, n - 1))
  {
    var t := ORDER[n - 1];
    FindsInText(u, t, text);
    PatternsNonEmpty(t);
    FindIterSpec(u, PatternOf(t), text);
    KeepMatchesFilters(text, t, Finds(u, t, text), Dates(u, text), ScanFirst(u, text, n - 1));
  }

  lemma {:induction false} ScanFirstSound(u: Alphabet, text: string, n: nat)
    requires n <= |ORDER|
    ensures Disjoint(ScanFirst(u, text, n))
    ensures forall x :: x in ScanFirst(u, text, n) ==> Rank(x.piiType) < n && FromPattern(u, text, x)
  {
    if n > 0 {
      ScanFirstSound(u, text, n - 1);
      ScanStep(u, text, n);
      ORDERByRank(n - 1);
      var t, kept := ORDER[n - 1], ScanFirst(u, text, n - 1);
      var new_ := Allowed(text, t, Finds(u, t, text), Dates(u, text), kept);
      AllowedMembers(text, t, Finds(u, t, text), Dates(u, text), kept);
      AllowedDisjoint(text, t, Finds(u, t, text), Dates(u, text), kept);
      DisjointAppend(kept, new_);
    }
  }

  lemma AllowedTyped(text: string, t: PiiType, ms: seq<Match>, dates: seq<Match>, kept: seq<PiiMatch>)
    requires InText(text, ms)
    ensures forall x :: x in Allowed(text, t, ms, dates, kept) ==> x.piiType == t
  {
    AllowedMembers(text, t, ms, dates, kept);
    hide Allowed, Free;
  }

  lemma TailGrows(a: seq<PiiMatch>, b: seq<PiiMatch>, mine: seq<PiiMatch>)
    requires a <= b
    ensures a <= b + mine && forall x :: x in (b + mine)[|a|..] <==> x in b[|a|..] || x in mine
  {
    assert (b + mine)[|a|..] == b[|a|..] + mine;
  }

  /** What one more pattern adds is of its own rank. */
  lemma ScanAdds(u: Alphabet, text: string, n: nat) returns (mine: seq<PiiMatch>)
    requires 0 < n <= |ORDER|
    ensures ScanFirst(u, text, n) == ScanFirst(u, text, n - 1) + mine
    ensures forall x :: x in mine ==> Rank(x.piiType) == n - 1
  {
    hide *;
    ScanStep(u, text, n);
    ORDERByRank(n - 1);
    var t, kept := ORDER[n - 1], ScanFirst(u, text, n - 1);
    AllowedTyped(text, t, Finds(u, t, text), Dates(u, text), kept);
    mine := Allowed(text, t, Finds(u, t, text), Dates(u, text), kept);
  }

  lemma {:induction false} ScanGrows(u: Alphabet, text: string, n: nat, last: nat)
    requires n <= last <= |ORDER|
    ensures ScanFirst(u, text, n) <= ScanFirst(u, text, last)
    ensures forall x :: x in ScanFirst(u, text, last)[|ScanFirst(u, text, n)|..] ==> Rank(x.piiType) >= n
    decreases last - n
  {
    hide *;
    if n < last {
      ScanGrows(u, text, n, last - 1);
      var mine := ScanAdds(u, text, last);
      TailGrows(ScanFirst(u, text, n), ScanFirst(u, text, last - 1), mine);
    } else {
      assert ScanFirst(u, text, n)[|ScanFirst(u, text, n)|..] == [];
    }
  }

  /** The scan, cut at one pattern: what earlier patterns kept, what this one added, what later ones added. */
  lemma ScanParts(u: Alphabet, text: string, t: PiiType) returns (kept: seq<PiiMatch>, later: seq<PiiMatch>)
    ensures InText(text, Finds(u, t, text))
    ensures Scan(u, text) == kept + Allowed(text, t, Finds(u, t, text), Dates(u, text), kept) + later
    ensures forall k :: k in kept ==> Rank(k.piiType) < Rank(t)
    ensures forall k :: k in later ==> Rank(k.piiType) > Rank(t)
  {
    var n := Rank(t) + 1;
    assert ORDER[n - 1] == t;
    hide *;
    ScanStep(u, text, n);
    ScanFirstSound(u, text, n - 1);
    ScanGrows(u, text, n, |ORDER|);
    ScanIsLast(u, text);
    kept := ScanFirst(u, text, n - 1);
    later := ScanFirst(u, text, |ORDER|)[|ScanFirst(u, text, n)|..];
    PrefixRest(ScanFirst(u, text, n), ScanFirst(u, text, |ORDER|));
  }

  lemma PrefixRest<T>(a: seq<T>, s: seq<T>)
    requires a <= s
    ensures s == a + s[|a|..]
  {
    CutAt(s, |a|);
  }

  lemma ScanIsLast(u: Alphabet, text: string)
    ensures Scan(u, text) == ScanFirst(u, text, |ORDER|)
  {
  }

  /**
   Priority completeness: a match of any pattern is selected exactly when it is not a date-sensitive
   match touching a date and no selected span of an earlier pattern overlaps it. By induction over
   the nine patterns this fixes the whole selection.
   */
  lemma ScanSelects(u: Alphabet, text: string, t: PiiType, m: Match)
    requires m in Finds(u, t, text)
    ensures m.start <= m.end <= |text|
    ensures ToPii(text, t, m) in Scan(u, text) <==> Entitled(u, text, Scan(u, text), t, m)
  {
    hide Scan, Allowed, Finds, Dates, Rank;
    var kept, later := ScanParts(u, text, t);
    var all, dates, ms := Scan(u, text), Dates(u, text), Finds(u, t, text);
    var mine := Allowed(text, t, ms, dates, kept);
    AllowedMembers(text, t, ms, dates, kept);
    assert forall k :: k in all <==> k in kept || k in mine || k in later;
    assert forall k :: k in mine ==> k.piiType == t;
    var x := ToPii(text, t, m);
    assert x in all <==> x in mine;
    if x in mine {
      var w :| w in ms && Free(t, dates, kept, w) && x == ToPii(text, t, w);
      assert Free(t, dates, kept, m);
    }
    assert Free(t, dates, kept, m) <==> Entitled(u, text, all, t, m);
  }

  /** The selected spans are disjoint, lie in the text, and have the shape their pattern promises. */
  lemma ScanSound(u: Alphabet, text: string)
    requires Sane(u)
    ensures var ms := Scan(u, text);
            && Disjoint(ms)
            && (forall x :: x in ms ==>
                  x.start < x.end <= |text| && x.value == text[x.start..x.end] && Shaped(x.piiType, x.value))
  {
    ScanFirstSound(u, text, |ORDER|);
    forall x | x in Scan(u, text)
      ensures x.start < x.end <= |text| && x.value == text[x.start..x.end] && Shaped(x.piiType, x.value)
    {
      var t := x.piiType;
      var m :| m in Finds(u, t, text) && m.start <= m.end <= |text| && x == ToPii(text, t, m);
      PatternsNonEmpty(t);
      FindIterSpec(u, PatternOf(t), text);
      MatchesAreShaped(u, t, text, m);
    }
  }

  // ---------------------------------------------------------------- the loops of regex_scan

  /** `set(range(start, end))`. */
  function Span(start: nat, end: nat): (r: set<int>)
    ensures forall i :: i in r <==> start <= i < end
    decreases end - start
  {
    if start >= end then {} else {start} + Span(start + 1, end)
  }

  ghost function Positions(ms: seq<PiiMatch>): set<int> {
    if ms == [] then {} else Positions(ms[..|ms| - 1]) + Span(ms[|ms| - 1].start, ms[|ms| - 1].end)
  }

  ghost predicate InSpans(ms: seq<PiiMatch>, i: int) {
    exists k :: k in ms && k.start <= i < k.end
  }

  lemma {:induction false} PositionsAreSpans(ms: seq<PiiMatch>, i: int)
    ensures i in Positions(ms) <==> InSpans(ms, i)
  {
    if ms != [] {
      var front, last := ms[..|ms| - 1], ms[|ms| - 1];
      assert ms == front + [last];
      PositionsAreSpans(front, i);
      if k :| k in ms && k.start <= i < k.end { assert k in front || k == last; }
      if k :| k in front && k.start <= i < k.end { assert k in ms; }
      if last.start <= i < last.end { assert last in ms; }
    }
  }

  /** `any(i in occupied for i in span)`. */
  predicate Meets(positions: set<int>, start: nat, end: nat) {
    exists i | start <= i < end :: i in positions
  }

  /** Testing every position of a span against the occupied set is testing the kept spans for overlap. */
  lemma OccupiedIsBlocked(kept: seq<PiiMatch>, start: nat, end: nat)
    requires start < end && forall k :: k in kept ==> k.start < k.end
    ensures Meets(Positions(kept), start, end) <==> Blocks(kept, start, end)
  {
    if i :| start <= i < end && i in Positions(kept) {
      PositionsAreSpans(kept, i);
      var k :| k in kept && k.start <= i < k.end;
      assert Overlap(k, start, end);
    }
    if k :| k in kept && Overlap(k, start, end) {
      var i := if k.start <= start then start else k.start;
      assert InSpans(kept, i);
      PositionsAreSpans(kept, i);
    }
  }

  ghost predicate InDates(dates: seq<Match>, i: int) {
    exists d :: d in dates && d.start <= i < d.end
  }

  lemma DatePositionsTouch(dates: seq<Match>, range: set<int>, start: nat, end: nat)
    requires forall i :: i in range <==> InDates(dates, i)
    requires start < end && forall d :: d in dates ==> d.start < d.end
    ensures Meets(range, start, end) <==> TouchesDate(dates, start, end)
  {
    if i :| start <= i < end && i in range {
      var d :| d in dates && d.start <= i < d.end;
    }
    if d :| d in dates && d.start < end && start < d.end {
      var i := if d.start <= start then start else d.start;
      assert InDates(dates, i);
      assert i in range;
    }
  }

  method DateRanges(u: Alphabet, text: string) returns (range: set<int>)
    ensures forall p :: p in range <==> InDates(Dates(u, text), p)
    ensures forall d :: d in Dates(u, text) ==> d.start < d.end
  {
    range := {};
    var dates := Dates(u, text);
    PatternsNonEmpty(ResidentNumber);
    FindIterSpec(u, DatePattern(), text);
    for i := 0 to |dates|
      invariant forall p :: p in range <==> InDates(dates[..i], p)
    {
      range := range + Span(dates[i].start, dates[i].end);
      InDatesSnoc(dates[..i], dates[i]);
      assert dates[..i + 1] == dates[..i] + [dates[i]];
    }
    assert dates[..|dates|] == dates;
  }

  lemma InDatesSnoc(dates: seq<Match>, d: Match)
    ensures forall p :: InDates(dates + [d], p) <==> InDates(dates, p) || d.start <= p < d.end
  {
    forall p ensures InDates(dates + [d], p) <==> InDates(dates, p) || d.start <= p < d.end {
      if e :| e in dates && e.start <= p < e.end { assert e in dates + [d]; }
      if d.start <= p < d.end { assert d in dates + [d]; }
    }
  }

  /** The inner loop of the scan: `occupied` always holds exactly the positions of the kept spans. */
  method ScanPattern(text: string, t: PiiType, ms: seq<Match>, ghost dates: seq<Match>, dateRanges: set<int>,
                     kept: seq<PiiMatch>, taken: set<int>) returns (candidates: seq<PiiMatch>, occupied: set<int>)
    requires InText(text, ms)
    requires forall p :: p in dateRanges <==> InDates(dates, p)
    requires forall d :: d in dates ==> d.start < d.end
    requires taken == Positions(kept) && forall k :: k in kept ==> k.start < k.end
    ensures candidates == KeepMatches(text, t, ms, dates, kept)
    ensures occupied == Positions(candidates) && forall k :: k in candidates ==> k.start < k.end
  {
    hide Meets, Positions, Blocks, TouchesDate, Span;
    candidates, occupied := kept, taken;
    for i := 0 to |ms|
      invariant KeepMatches(text, t, ms[i..], dates, candidates) == KeepMatches(text, t, ms, dates, kept)
      invariant occupied == Positions(candidates)
      invariant forall k :: k in candidates ==> k.start < k.end
    {
      var m := ms[i];
      assert m in ms;
      assert ms[i..][1..] == ms[i + 1..];
      DatePositionsTouch(dates, dateRanges, m.start, m.end);
      if DateSensitive(t) && Meets(dateRanges, m.start, m.end) {
        continue;
      }
      OccupiedIsBlocked(candidates, m.start, m.end);
      if Meets(occupied, m.start, m.end) {
        continue;
      }
      var x := ToPii(text, t, m);
      PositionsSnoc(candidates, x);
      occupied := occupied + Span(m.start, m.end);
      candidates := candidates + [x];
    }
  }

  lemma PositionsSnoc(ms: seq<PiiMatch>, x: PiiMatch)
    ensures Positions(ms + [x]) == Positions(ms) + Span(x.start, x.end)
  {
    assert (ms + [x])[..|ms + [x]| - 1] == ms;
  }

  /** The two position sets of the source, refined to the selection rule. */
  method RegexScan(u: Alphabet, text: string) returns (candidates: seq<PiiMatch>)
    ensures candidates == Scan(u, text)
  {
    var dateRanges := DateRanges(u, text);
    var occupied: set<int> := {};
    candidates := [];
    for n := 0 to |ORDER|
      invariant candidates == ScanFirst(u, text, n)
      invariant occupied == Positions(candidates) && forall k :: k in candidates ==> k.start < k.end
    {
      var t := ORDER[n];
      FindsInText(u, t, text);
      candidates, occupied := ScanPattern(text, t, Finds(u, t, text), Dates(u, text), dateRanges, candidates, occupied);
    }
  }

  // ---------------------------------------------------------------- splicing

  const ByStart: PiiMatch -> real := (m: PiiMatch) => m.start as real

  /** The splices of `mask` in the order given. */
  function Splice(text: string, ms: seq<PiiMatch>): Result<string, MaskError>
    decreases |ms|
  {
    if ms == [] then Ok(text)
    else
      match MaskValue(ms[0])
      case Err(e) => Err(e)
      case Ok(w) => Splice(SliceTo(text, ms[0].start) + w + SliceFrom(text, ms[0].end), ms[1..])
  }

  method Mask(text: string, matches: seq<PiiMatch>) returns (r: Result<string, MaskError>)
    ensures r == Splice(text, SortDesc(ByStart, matches))
  {
    var sorted := SortDesc(ByStart, matches);
    var current := text;
    for i := 0 to |sorted|
      invariant Splice(current, sorted[i..]) == Splice(text, sorted)
    {
      var m := sorted[i];
      assert sorted[i..][1..] == sorted[i + 1..];
      var masked := MaskValue(m);
      if masked.Err? { return Err(masked.error); }
      current := SliceTo(current, m.start) + masked.value + SliceFrom(current, m.end);
    }
    r := Ok(current);
  }

  ghost predicate WellPlaced(text: string, ms: seq<PiiMatch>) {
    InRange(text, ms) && Disjoint(ms)
  }

  /** The span that starts at `i`, if there is one. */
  function StartingAt(ms: seq<PiiMatch>, i: nat): (r: Option<PiiMatch>)
    ensures r.Some? ==> r.value in ms && r.value.start == i
    ensures r.None? ==> forall m :: m in ms ==> m.start != i
  {
    if ms == [] then None else if ms[0].start == i then Some(ms[0]) else StartingAt(ms[1..], i)
  }

  /** `text[i..]` with every span replaced at once by its substitute and every gap copied. */
  function Replaced(sub: PiiMatch -> string, text: string, ms: seq<PiiMatch>, i: nat): string
    requires i <= |text| && InRange(text, ms)
    decreases |text| - i
  {
    if i == |text| then ""
    else
      match StartingAt(ms, i)
      case Some(m) => sub(m) + Replaced(sub, text, ms, m.end)
      case None => [text[i]] + Replaced(sub, text, ms, i + 1)
  }

  ghost predicate InRange(text: string, ms: seq<PiiMatch>) {
    forall m :: m in ms ==> m.start < m.end <= |text|
  }

  /** `mask_value` where it returns. */
  function Masked(m: PiiMatch): string {
    match MaskValue(m)
    case Ok(w) => w
    case Err(_) => ""
  }

  ghost predicate Maskable(ms: seq<PiiMatch>) {
    forall m :: m in ms ==> MaskValue(m).Ok?
  }

  lemma ReplacedStep(sub: PiiMatch -> string, text: string, ms: seq<PiiMatch>, i: nat)
    requires i < |text| && InRange(text, ms)
    ensures Replaced(sub, text, ms, i) ==
            match StartingAt(ms, i)
            case Some(m) => sub(m) + Replaced(sub, text, ms, m.end)
            case None => [text[i]] + Replaced(sub, text, ms, i + 1)
  {
  }

  /** Where no span starts the text is copied. */
  lemma {:induction false} ReplacedGap(sub: PiiMatch -> string, text: string, ms: seq<PiiMatch>, a: nat, b: nat)
    requires a <= b <= |text| && InRange(text, ms)
    requires forall m :: m in ms ==> !(a <= m.start < b)
    ensures Replaced(sub, text, ms, a) == text[a..b] + Replaced(sub, text, ms, b)
    decreases b - a
  {
    hide *;
    if a < b {
      ReplacedStep(sub, text, ms, a);
      ReplacedGap(sub, text, ms, a + 1, b);
      var rest := Replaced(sub, text, ms, b);
      assert text[a..b] == [text[a]] + text[a + 1..b];
      Assoc([text[a]], text[a + 1..b], rest);
    } else {
      assert text[a..b] == "";
    }
  }

  lemma StartingAtUnique(text: string, ms: seq<PiiMatch>, m: PiiMatch)
    requires WellPlaced(text, ms) && m in ms
    ensures StartingAt(ms, m.start) == Some(m)
  {
    var w := StartingAt(ms, m.start).value;
    if w != m { DisjointMembers(ms, w, m); }
  }

  lemma DisjointMembers(ms: seq<PiiMatch>, x: PiiMatch, y: PiiMatch)
    requires Disjoint(ms) && x in ms && y in ms && x != y
    ensures !Overlap(x, y.start, y.end)
  {
    var a :| 0 <= a < |ms| && ms[a] == x;
    var b :| 0 <= b < |ms| && ms[b] == y;
    if a < b { assert !Overlap(ms[a], ms[b].start, ms[b].end); }
    else { assert !Overlap(ms[b], ms[a].start, ms[a].end); }
  }

  /** Non-empty disjoint spans are listed once. */
  lemma {:induction false} ListedOnce(ms: seq<PiiMatch>, x: PiiMatch)
    requires Disjoint(ms) && forall m :: m in ms ==> m.start < m.end
    ensures multiset(ms)[x] <= 1
  {
    if ms != [] {
      assert ms == [ms[0]] + ms[1..];
      if x == ms[0] {
        forall i | 0 <= i < |ms[1..]| ensures ms[1..][i] != x {
          assert !Overlap(ms[0], ms[i + 1].start, ms[i + 1].end);
        }
        assert x !in ms[1..];
      } else {
        ListedOnce(ms[1..], x);
      }
    }
  }

  lemma SortedSpans(text: string, ms: seq<PiiMatch>, ds: seq<PiiMatch>)
    requires WellPlaced(text, ms) && ds == SortDesc(ByStart, ms)
    ensures forall m :: m in ds <==> m in ms
    ensures forall i, j :: 0 <= i < j < |ds| ==> ds[j].start <= ds[i].start
    ensures forall i, j :: 0 <= i < j < |ds| ==> ds[j].end <= ds[i].start
  {
    SortDescSpec(ByStart, ms);
    forall m ensures m in ds <==> m in ms { SortMember(ByStart, ms, m); }
    forall i, j | 0 <= i < j < |ds| ensures ds[j].start <= ds[i].start {
      assert ByStart(ds[i]) >= ByStart(ds[j]);
    }
    forall i, j | 0 <= i < j < |ds| ensures ds[j].end <= ds[i].start {
      SortedPairDisjoint(text, ms, ds, i, j);
    }
  }

  lemma SortedPairDisjoint(text: string, ms: seq<PiiMatch>, ds: seq<PiiMatch>, i: nat, j: nat)
    requires WellPlaced(text, ms) && multiset(ds) == multiset(ms)
    requires i < j < |ds| && ds[j].start <= ds[i].start
    ensures ds[j].end <= ds[i].start
  {
    hide *;
    SameMembers(ms, ds, i);
    SameMembers(ms, ds, j);
    WellPlacedFacts(text, ms);
    ListedOnce(ms, ds[i]);
    if ds[i] == ds[j] { OccursTwice(ds, i, j); }
    DisjointMembers(ms, ds[i], ds[j]);
    NoOverlapOrder(ds[i], ds[j]);
  }

  lemma SameMembers(ms: seq<PiiMatch>, ds: seq<PiiMatch>, i: nat)
    requires multiset(ds) == multiset(ms) && i < |ds|
    ensures ds[i] in ms
  {
    assert ds[i] in multiset(ds);
  }

  lemma WellPlacedFacts(text: string, ms: seq<PiiMatch>)
    requires WellPlaced(text, ms)
    ensures Disjoint(ms) && forall m :: m in ms ==> m.start < m.end
  {
  }

  lemma NoOverlapOrder(x: PiiMatch, y: PiiMatch)
    requires !Overlap(x, y.start, y.end) && y.start <= x.start < x.end
    ensures y.end <= x.start
  {
  }

  lemma SpliceStep(text: string, ms: seq<PiiMatch>)
    requires ms != [] && MaskValue(ms[0]).Ok?
    ensures Splice(text, ms) == Splice(SliceTo(text, ms[0].start) + Masked(ms[0]) + SliceFrom(text, ms[0].end), ms[1..])
  {
  }

  lemma SpliceEnd(text: string, ms: seq<PiiMatch>, p: nat)
    requires InRange(text, ms) && p <= |text|
    requires forall m :: m in ms ==> m.start >= p
    ensures Splice(text[..p] + Replaced(Masked, text, ms, p), []) == Ok(Replaced(Masked, text, ms, 0))
  {
    hide Replaced, Masked;
    ReplacedGap(Masked, text, ms, 0, p);
    assert text[0..p] == text[..p];
  }

  /** After `j` splices, everything from the leftmost spliced span on is final and everything before it is untouched. */
  lemma {:induction false} SpliceFrom(text: string, ms: seq<PiiMatch>, ds: seq<PiiMatch>, j: nat, p: nat)
    requires WellPlaced(text, ms) && Maskable(ms)
    requires forall m :: m in ds <==> m in ms
    requires forall i, k :: 0 <= i < k < |ds| ==> ds[k].end <= ds[i].start
    requires j <= |ds| && p == (if j == 0 then |text| else ds[j - 1].start) && p <= |text|
    ensures Splice(text[..p] + Replaced(Masked, text, ms, p), ds[j..]) == Ok(Replaced(Masked, text, ms, 0))
    decreases |ds| - j
  {
    hide Replaced, MaskValue, Masked, Disjoint, Splice, SliceTo, SliceFrom;
    if j == |ds| {
      AllAfter(text, ms, ds, p);
      SpliceEnd(text, ms, p);
    } else {
      var m := ds[j];
      assert m in ms && m.end <= p;
      NoneBetween(text, ms, ds, j, p);
      SpliceOne(text, ms, m, p);
      assert ds[j..][0] == m && ds[j..][1..] == ds[j + 1..];
      SpliceStep(text[..p] + Replaced(Masked, text, ms, p), ds[j..]);
      SpliceFrom(text, ms, ds, j + 1, m.start);
    }
  }

  lemma AllAfter(text: string, ms: seq<PiiMatch>, ds: seq<PiiMatch>, p: nat)
    requires InRange(text, ms) && forall m :: m in ds <==> m in ms
    requires forall i, k :: 0 <= i < k < |ds| ==> ds[k].end <= ds[i].start
    requires p == if ds == [] then |text| else ds[|ds| - 1].start
    ensures forall m :: m in ms ==> m.start >= p
  {
    forall m | m in ms ensures m.start >= p {
      var i :| 0 <= i < |ds| && ds[i] == m;
      assert ds[|ds| - 1] in ms;
    }
  }

  lemma NoneBetween(text: string, ms: seq<PiiMatch>, ds: seq<PiiMatch>, j: nat, p: nat)
    requires InRange(text, ms) && forall m :: m in ds <==> m in ms
    requires forall i, k :: 0 <= i < k < |ds| ==> ds[k].end <= ds[i].start
    requires j < |ds| && p == (if j == 0 then |text| else ds[j - 1].start)
    ensures forall x :: x in ms ==> !(ds[j].end <= x.start < p)
  {
    forall x | x in ms ensures !(ds[j].end <= x.start < p) {
      var i :| 0 <= i < |ds| && ds[i] == x;
      assert ds[j] in ms;
      if 0 < i < j { assert ds[j - 1] in ms; }
    }
  }

  lemma SpliceOne(text: string, ms: seq<PiiMatch>, m: PiiMatch, p: nat)
    requires WellPlaced(text, ms) && Maskable(ms)
    requires m in ms && m.end <= p <= |text|
    requires forall x :: x in ms ==> !(m.end <= x.start < p)
    ensures var current := text[..p] + Replaced(Masked, text, ms, p);
            SliceTo(current, m.start) + Masked(m) + SliceFrom(current, m.end)
              == text[..m.start] + Replaced(Masked, text, ms, m.start)
  {
    hide Replaced, MaskValue, StartingAt, SliceTo, SliceFrom;
    ReplacedGap(Masked, text, ms, m.end, p);
    StartingAtUnique(text, ms, m);
    ReplacedStep(Masked, text, ms, m.start);
    SpliceText(text, Replaced(Masked, text, ms, p), Masked(m), m.start, m.end, p);
  }

  lemma SpliceText(text: string, rest: string, w: string, a: nat, b: nat, p: nat)
    requires a <= b <= p <= |text|
    ensures SliceTo(text[..p] + rest, a) + w + SliceFrom(text[..p] + rest, b) == text[..a] + (w + (text[b..p] + rest))
  {
    var current := text[..p] + rest;
    assert SliceTo(current, a) == text[..a];
    assert SliceFrom(current, b) == text[b..p] + rest;
    assert text[..a] + w + (text[b..p] + rest) == text[..a] + (w + (text[b..p] + rest));
  }

  /** For any disjoint spans in any order, splicing right to left is simultaneous replacement. */
  lemma MaskIsSimultaneous(text: string, ms: seq<PiiMatch>)
    requires WellPlaced(text, ms) && Maskable(ms)
    ensures Splice(text, SortDesc(ByStart, ms)) == Ok(Replaced(Masked, text, ms, 0))
  {
    var ds := SortDesc(ByStart, ms);
    SortedSpans(text, ms, ds);
    SpliceFrom(text, ms, ds, 0, |text|);
    assert text[..|text|] + Replaced(Masked, text, ms, |text|) == text;
    assert ds[0..] == ds;
  }

  lemma {:induction false} SpliceFails(text: string, ms: seq<PiiMatch>)
    ensures Splice(text, ms).Err? <==> exists m :: m in ms && MaskValue(m).Err?
    decreases |ms|
  {
    if ms != [] {
      if MaskValue(ms[0]).Ok? {
        var next := SliceTo(text, ms[0].start) + MaskValue(ms[0]).value + SliceFrom(text, ms[0].end);
        SpliceFails(next, ms[1..]);
        if m :| m in ms && MaskValue(m).Err? { assert m in ms[1..]; }
      } else {
        assert ms[0] in ms;
      }
    }
  }

  // ---------------------------------------------------------------- the two functions together

  /**
   `mask(text, regex_scan(text))` raises exactly when the scan selected a mobile number written with
   one hyphen; otherwise it is the simultaneous replacement of the selected spans.
   */
  lemma MaskedScan(u: Alphabet, text: string)
    requires Sane(u)
    ensures var ms := Scan(u, text);
            var r := Splice(text, SortDesc(ByStart, ms));
            if exists m :: m in ms && OneHyphenMobile(m) then r.Err?
            else WellPlaced(text, ms) && Maskable(ms) && r == Ok(Replaced(Masked, text, ms, 0))
  {
    var ms := Scan(u, text);
    ScanSound(u, text);
    forall m | m in ms ensures MaskValue(m).Err? <==> OneHyphenMobile(m) { MaskValueFails(m); }
    if m :| m in ms && OneHyphenMobile(m) {
      SortMember(ByStart, ms, m);
      SpliceFails(text, SortDesc(ByStart, ms));
    } else {
      MaskIsSimultaneous(text, ms);
    }
  }

  /** The span that covers position `i`, if there is one. */
  function SpanAt(ms: seq<PiiMatch>, i: nat): (r: Option<PiiMatch>)
    ensures r.Some? ==> r.value in ms && r.value.start <= i < r.value.end
    ensures r.None? ==> forall m :: m in ms ==> !(m.start <= i < m.end)
  {
    if ms == [] then None else if ms[0].start <= i < ms[0].end then Some(ms[0]) else SpanAt(ms[1..], i)
  }

  /** What masking leaves at position `i`: a span keeps its prefix and its hyphens and stars the rest. */
  function MaskedChar(text: string, ms: seq<PiiMatch>, i: nat): char
    requires i < |text|
  {
    match SpanAt(ms, i)
    case None => text[i]
    case Some(m) => if i < m.start + KeptPrefix(m) || text[i] == '-' then text[i] else '*'
  }

  /** No span straddles `at`. */
  ghost predicate Boundary(ms: seq<PiiMatch>, at: nat) {
    forall m :: m in ms ==> !(m.start < at < m.end)
  }

  lemma SpanEndIsBoundary(text: string, ms: seq<PiiMatch>, x: PiiMatch)
    requires InRange(text, ms) && Disjoint(ms) && x in ms
    ensures Boundary(ms, x.end) && x.start < x.end <= |text|
    ensures forall i: nat :: x.start <= i < x.end ==> SpanAt(ms, i) == Some(x)
  {
    forall m | m in ms ensures !(m.start < x.end < m.end) {
      if m != x { DisjointMembers(ms, m, x); }
    }
    forall i: nat | x.start <= i < x.end ensures SpanAt(ms, i) == Some(x) {
      var w := SpanAt(ms, i).value;
      if w != x { DisjointMembers(ms, w, x); }
    }
  }

  lemma GapIsBoundary(ms: seq<PiiMatch>, at: nat)
    requires Boundary(ms, at) && StartingAt(ms, at).None?
    ensures Boundary(ms, at + 1) && SpanAt(ms, at).None?
  {
  }

  /** A substitution that keeps lengths acts position by position. */
  lemma {:induction false} ReplacedCharacter(sub: PiiMatch -> string, text: string, ms: seq<PiiMatch>, from: nat,
                                             i: nat)
    requires from <= |text| && InRange(text, ms) && Disjoint(ms) && Boundary(ms, from)
    requires forall m :: m in ms ==> |sub(m)| == m.end - m.start
    ensures |Replaced(sub, text, ms, from)| == |text| - from
    ensures from <= i < |text| ==>
              Replaced(sub, text, ms, from)[i - from] ==
              match SpanAt(ms, i) case None => text[i] case Some(m) => sub(m)[i - m.start]
    decreases |text| - from
  {
    hide *;
    if from == |text| {
      ReplacedEnd(sub, text, ms);
    } else {
      ReplacedStep(sub, text, ms, from);
      match StartingAt(ms, from)
      case None =>
        GapIsBoundary(ms, from);
        ReplacedCharacter(sub, text, ms, from + 1, i);
      case Some(x) =>
        SpanEndIsBoundary(text, ms, x);
        ReplacedCharacter(sub, text, ms, x.end, i);
    }
  }

  lemma ReplacedEnd(sub: PiiMatch -> string, text: string, ms: seq<PiiMatch>)
    requires InRange(text, ms)
    ensures Replaced(sub, text, ms, |text|) == ""
  {
  }

  lemma MaskedIsStarred(x: PiiMatch)
    requires Shaped(x.piiType, x.value) && x.piiType != Email && !OneHyphenMobile(x)
    ensures Masked(x) == StarAfter(x.value, KeptPrefix(x))
  {
    MaskValueMeaning(x);
    hide Shaped, MaskValue, StarAfter, KeptPrefix;
  }

  lemma MaskedCharacters(text: string, x: PiiMatch)
    requires Shaped(x.piiType, x.value) && x.piiType != Email && !OneHyphenMobile(x)
    requires x.start < x.end <= |text| && x.value == text[x.start..x.end]
    ensures |Masked(x)| == x.end - x.start
    ensures forall i: nat :: x.start <= i < x.end ==>
              Masked(x)[i - x.start] == if i < x.start + KeptPrefix(x) || text[i] == '-' then text[i] else '*'
  {
    hide *;
    MaskedIsStarred(x);
    forall i: nat | x.start <= i < x.end
      ensures Masked(x)[i - x.start] == if i < x.start + KeptPrefix(x) || text[i] == '-' then text[i] else '*'
    {
      assert x.value[i - x.start] == text[i];
    }
  }

  /**
   With no e-mail address and no one-hyphen mobile number among the matches, masking keeps the
   length and is decided position by position: outside the spans the character stays; inside one,
   the leading part and the hyphens stay and everything else becomes a star.
   */
  lemma MaskingKeepsPositions(u: Alphabet, text: string)
    requires Sane(u)
    requires forall m :: m in Scan(u, text) ==> m.piiType != Email && !OneHyphenMobile(m)
    ensures var r := Splice(text, SortDesc(ByStart, Scan(u, text)));
            && r.Ok? && |r.value| == |text|
            && forall i: nat :: i < |text| ==> r.value[i] == MaskedChar(text, Scan(u, text), i)
  {
    hide Scan, Replaced, Splice, SortDesc, MaskValue, Masked, Shaped, SpanAt, KeptPrefix, OneHyphenMobile;
    var ms := Scan(u, text);
    MaskedScan(u, text);
    ScanSound(u, text);
    forall m | m in ms ensures |Masked(m)| == m.end - m.start { MaskedCharacters(text, m); }
    assert Boundary(ms, 0);
    ReplacedCharacter(Masked, text, ms, 0, 0);
    forall i: nat | i < |text| ensures Replaced(Masked, text, ms, 0)[i] == MaskedChar(text, ms, i) {
      ReplacedCharacter(Masked, text, ms, 0, i);
      var x := SpanAt(ms, i);
      if x.Some? { MaskedCharacters(text, x.value); }
    }
  }

  const ONE_HYPHEN := "010-12345678"

  lemma TooShortToMatch(u: Alphabet, t: PiiType, text: string)
    requires MinLength(PatternOf(t).items) > |text|
    ensures Finds(u, t, text) == []
  {
    PatternsNonEmpty(t);
    FindIterSpec(u, PatternOf(t), text);
    var ms := Finds(u, t, text);
    if ms != [] { FitsBounds(u, text, ms[0].start, PatternOf(t).items, PatternOf(t).ahead, ms[0].lens); }
  }

  lemma MobileFitsOneHyphen(u: Alphabet)
    requires Sane(u)
    ensures Matchable(u, PatternOf(Mobile), ONE_HYPHEN, 0)
  {
    var text, p := ONE_HYPHEN, PatternOf(Mobile);
    var i3 := Then(MaybeDash(), DigitTail());
    var i2 := Then(Exactly(Or(Char('0'), Or(Char('1'), Range('6', '9'))), 1), i3);
    var i1 := Then(Exactly(Char('1'), 1), i2);
    assert p.items == Then(Exactly(Char('0'), 1), i1);
    TailFits(u, p.ahead);
    hide DigitTail, PatternOf;
    assert Fits(u, text, 3, i3, p.ahead, [1, 4, 0, 4]) by { assert [1, 4, 0, 4][1..] == [4, 0, 4]; }
    assert In(u, Or(Char('0'), Or(Char('1'), Range('6', '9'))), '0');
    assert Fits(u, text, 2, i2, p.ahead, [1, 1, 4, 0, 4]) by { assert [1, 1, 4, 0, 4][1..] == [1, 4, 0, 4]; }
    assert Fits(u, text, 1, i1, p.ahead, [1, 1, 1, 4, 0, 4]) by { assert [1, 1, 1, 4, 0, 4][1..] == [1, 1, 4, 0, 4]; }
    assert Fits(u, text, 0, p.items, p.ahead, [1, 1, 1, 1, 4, 0, 4]) by {
      assert [1, 1, 1, 1, 4, 0, 4][1..] == [1, 1, 1, 4, 0, 4];
    }
  }

  /** The end of the mobile pattern, from its second run of digits on. */
  function DigitTail(): Items { Then(Between(Digit, 3, 4), Then(MaybeDash(), Then(Exactly(Digit, 4), End))) }

  lemma TailFits(u: Alphabet, ahead: Option<Class>)
    requires Sane(u) && ahead == PatternOf(Mobile).ahead
    ensures Fits(u, ONE_HYPHEN, 4, DigitTail(), ahead, [4, 0, 4])
  {
    var i6 := Then(Exactly(Digit, 4), End);
    var i5 := Then(MaybeDash(), i6);
    assert Fits(u, ONE_HYPHEN, 12, End, ahead, []);
    assert Fits(u, ONE_HYPHEN, 8, i6, ahead, [4]) by { assert [4][1..] == []; }
    assert Fits(u, ONE_HYPHEN, 8, i5, ahead, [0, 4]) by { assert [0, 4][1..] == [4]; assert ONE_HYPHEN[8..8] == ""; }
    assert [4, 0, 4][1..] == [0, 4];
  }

  /** Any match at the start of the text takes its one hyphen. */
  lemma OneHyphenValue(end: nat)
    requires 10 <= end <= 12
    ensures Count(ONE_HYPHEN[0..end], '-') == 1
  {
    var text := ONE_HYPHEN;
    assert text[0..end] == "010" + "-" + text[4..end];
    CountConcat("010" + "-", text[4..end], '-');
    CountConcat("010", "-", '-');
    CountZero("010", '-');
    CountHyphenRun("-");
    CountZero(text[4..end], '-');
  }

  lemma LongPatterns(t: PiiType)
    ensures Rank(t) < Rank(Mobile) ==> MinLength(PatternOf(t).items) > |ONE_HYPHEN|
  {
  }

  /** The three longer patterns cannot match, so nothing outranks a mobile number here. */
  lemma OneHyphenRanks(u: Alphabet, k: PiiMatch)
    requires k in Scan(u, ONE_HYPHEN)
    ensures Rank(k.piiType) >= Rank(Mobile)
  {
    hide *;
    ScanIsLast(u, ONE_HYPHEN);
    ScanFirstSound(u, ONE_HYPHEN, |ORDER|);
    LongPatterns(k.piiType);
    if Rank(k.piiType) < Rank(Mobile) { FoundSomewhere(u, ONE_HYPHEN, k); TooShortToMatch(u, k.piiType, ONE_HYPHEN); }
  }

  lemma FoundSomewhere(u: Alphabet, text: string, k: PiiMatch)
    requires FromPattern(u, text, k)
    ensures Finds(u, k.piiType, text) != []
  {
  }

  lemma OneHyphenSelected(u: Alphabet, m: Match)
    requires m in Finds(u, Mobile, ONE_HYPHEN)
    ensures m.start <= m.end <= |ONE_HYPHEN| && ToPii(ONE_HYPHEN, Mobile, m) in Scan(u, ONE_HYPHEN)
  {
    forall k | k in Scan(u, ONE_HYPHEN) ensures Rank(k.piiType) >= Rank(Mobile) { OneHyphenRanks(u, k); }
    ScanSelects(u, ONE_HYPHEN, Mobile, m);
  }

  /** The failure is real: this text makes `mask(text, regex_scan(text))` raise an IndexError. */
  lemma OneHyphenRaises(u: Alphabet)
    requires Sane(u)
    ensures Splice(ONE_HYPHEN, SortDesc(ByStart, Scan(u, ONE_HYPHEN))).Err?
  {
    var text, p := ONE_HYPHEN, PatternOf(Mobile);
    MobileFitsOneHyphen(u);
    PatternsNonEmpty(Mobile);
    FindIterSpec(u, p, text);
    assert Covered(Finds(u, Mobile, text), 0);
    var m :| m in Finds(u, Mobile, text) && m.start <= 0 < m.end;
    FitsBounds(u, text, 0, p.items, p.ahead, m.lens);
    OneHyphenValue(m.end);
    OneHyphenSelected(u, m);
    assert OneHyphenMobile(ToPii(text, Mobile, m));
    MaskedScan(u, text);
  }
}
