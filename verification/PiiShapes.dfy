/**
 What the patterns of backend/app/services/guardrails/pii.py mean, character by character, and what
 the date filter protects. Nothing here is stated through the patterns themselves.
 */
module PiiShapes {
  import opened Prelude
  import opened Strings
  import opened Regex
  import opened Pii

  // ---------------------------------------------------------------- templates

  /** What a character of a template stands for: `#` a digit, four letters a choice, others themselves. */
  predicate Stands(u: Alphabet, code: char, c: char) {
    if code == '#' then u.isDigit(c)
    else if code == 'L' then '1' <= c <= '4'
    else if code == 'H' then '5' <= c <= '8'
    else if code == 'M' then c == '0' || c == '1' || '6' <= c <= '9'
    else if code == 'Z' then 'A' <= c <= 'Z'
    else c == code
  }

  ghost predicate Like(u: Alphabet, s: string, template: string) {
    |s| == |template| && forall i :: 0 <= i < |s| ==> Stands(u, template[i], s[i])
  }

  function Hashes(n: nat): string { Repeat('#', n) }

  function Hyphen(there: bool): string { if there then "-" else "" }

  function MobileTemplate(first: bool, n: nat, second: bool): string {
    "01M" + (Hyphen(first) + (Hashes(n) + (Hyphen(second) + "####")))
  }

  function LandlineTemplate(a: nat, b: nat): string { "0" + (Hashes(a) + ("-" + (Hashes(b) + "-####"))) }

  function AccountTemplate(a: nat, b: nat, c: nat): string { Hashes(a) + ("-" + (Hashes(b) + ("-" + Hashes(c)))) }

  /** How a number of each kind is written. */
  ghost predicate Template(t: PiiType, s: string) {
    match t
    case ResidentNumber => s == "######-L######"
    case ForeignerNumber => s == "######-H######"
    case DriverLicence => s == "##-##-######-##"
    case Mobile => exists first, second, n: nat :: 3 <= n <= 4 && s == MobileTemplate(first, n, second)
    case BusinessNumber => s == "###-##-#####"
    case Landline => exists a: nat, b: nat :: 1 <= a <= 2 && 3 <= b <= 4 && s == LandlineTemplate(a, b)
    case Passport => s == "Z########"
    case AccountNumber =>
      exists a: nat, b: nat, c: nat :: 3 <= a <= 4 && 2 <= b <= 6 && 2 <= c <= 6 && s == AccountTemplate(a, b, c)
    case Email => false
  }

  ghost predicate NameChar(u: Alphabet, c: char) { u.isWord(c) || c == '.' || c == '-' }

  ghost predicate Named(u: Alphabet, s: string) { s != "" && forall i :: 0 <= i < |s| ==> NameChar(u, s[i]) }

  ghost predicate Worded(u: Alphabet, s: string) { s != "" && forall i :: 0 <= i < |s| ==> u.isWord(s[i]) }

  /** An at sign at `at` and a dot at `dot` part the value into a local part, a host and a last label. */
  ghost predicate AddressAt(u: Alphabet, v: string, at: nat, dot: nat) {
    && at < dot < |v| && v[at] == '@' && v[dot] == '.'
    && Named(u, v[..at]) && Named(u, v[at + 1..dot]) && Worded(u, v[dot + 1..])
  }

  ghost predicate Address(u: Alphabet, v: string) { exists at: nat, dot: nat :: AddressAt(u, v, at, dot) }

  ghost predicate Looks(u: Alphabet, t: PiiType, v: string) {
    if t == Email then Address(u, v) else exists s :: Template(t, s) && Like(u, v, s)
  }

  /** What may not stand right before and right after a match. */
  ghost predicate Alone(u: Alphabet, t: PiiType, text: string, start: nat, end: nat)
    requires start <= end <= |text|
  {
    && (t != Mobile && t != Email && start > 0 ==>
          if t == Passport then !('A' <= text[start - 1] <= 'Z') else !u.isDigit(text[start - 1]))
    && (t != Email && end < |text| ==> !u.isDigit(text[end]))
  }

  // ---------------------------------------------------------------- items and templates

  function CodeOf(cls: Class): char {
    match cls
    case Digit => '#'
    case Char(c) => c
    case Range(lo, _) => if lo == '1' then 'L' else if lo == '5' then 'H' else 'Z'
    case _ => 'M'
  }

  ghost predicate Coded(u: Alphabet, cls: Class) { forall c :: In(u, cls, c) <==> Stands(u, CodeOf(cls), c) }

  ghost predicate AllCoded(u: Alphabet, items: Items) {
    match items
    case End => true
    case Then(Rep(cls, _, hi), rest) => hi.Some? && Coded(u, cls) && AllCoded(u, rest)
    case Then(Alt(_), _) => false
  }

  /** `s` is one of the fixed templates that the counts of `items` allow. */
  ghost predicate Spells(items: Items, s: string)
    decreases items
  {
    match items
    case End => s == ""
    case Then(Rep(cls, lo, hi), rest) =>
      && hi.Some?
      && exists n: nat ::
           lo <= n <= hi.value && n <= |s| && s[..n] == Repeat(CodeOf(cls), n) && Spells(rest, s[n..])
    case Then(Alt(_), _) => false
  }

  lemma LikeConcat(u: Alphabet, a: string, b: string, s: string, t: string)
    requires Like(u, a, s) && Like(u, b, t)
    ensures Like(u, a + b, s + t)
  {
  }

  lemma LikeRun(u: Alphabet, cls: Class, piece: string)
    requires Coded(u, cls)
    ensures AllIn(u, cls, piece) <==> Like(u, piece, Repeat(CodeOf(cls), |piece|))
  {
    var t := Repeat(CodeOf(cls), |piece|);
    assert |t| == |piece| && forall i :: 0 <= i < |t| ==> t[i] == CodeOf(cls);
    if Like(u, piece, t) {
      forall i | 0 <= i < |piece| ensures In(u, cls, piece[i]) { assert Stands(u, t[i], piece[i]); }
    }
  }

  lemma SpellsStep(item: Item, rest: Items, n: nat, s: string)
    requires item.Rep? && item.hi.Some? && item.lo <= n <= item.hi.value && Spells(rest, s)
    ensures Spells(Then(item, rest), Repeat(CodeOf(item.cls), n) + s)
  {
    var r := Repeat(CodeOf(item.cls), n);
    assert |r| == n;
    CutConcat(r, s);
  }

  /** The first piece of a cut reads like its run. */
  lemma PieceSpelled(u: Alphabet, text: string, pos: nat, items: Items, ahead: Option<Class>, lens: seq<nat>)
    requires pos <= |text| && items.Then? && Fits(u, text, pos, items, ahead, lens) && AllCoded(u, items)
    ensures lens != [] && pos + lens[0] <= |text| && items.item.Rep? && items.item.hi.Some?
    ensures items.item.lo <= lens[0] <= items.item.hi.value && AllCoded(u, items.rest)
    ensures Like(u, text[pos..pos + lens[0]], Repeat(CodeOf(items.item.cls), lens[0]))
  {
    LikeRun(u, items.item.cls, text[pos..pos + lens[0]]);
    hide Like, Coded, CodeOf, Repeat;
  }

  lemma NothingLeft(u: Alphabet, text: string, pos: nat, ahead: Option<Class>, lens: seq<nat>)
    requires pos <= |text| && Fits(u, text, pos, End, ahead, lens)
    ensures Total(lens) == 0 && Spells(End, "") && Like(u, text[pos..pos], "") && !Blocked(u, ahead, text, pos)
  {
  }

  lemma NothingSpelled(u: Alphabet, text: string, pos: nat, ahead: Option<Class>, s: string)
    requires Spells(End, s) && pos + |s| <= |text| && !Blocked(u, ahead, text, pos + |s|)
    ensures Fits(u, text, pos, End, ahead, []) && Total([]) == |s|
  {
  }

  /** A cut of the text reads like one of the templates. */
  lemma {:induction false} FitsSpelled(u: Alphabet, text: string, pos: nat, items: Items, ahead: Option<Class>,
                                       lens: seq<nat>) returns (s: string)
    requires pos <= |text| && Fits(u, text, pos, items, ahead, lens) && AllCoded(u, items)
    ensures pos + Total(lens) <= |text| && Spells(items, s) && Like(u, text[pos..pos + Total(lens)], s)
    ensures !Blocked(u, ahead, text, pos + Total(lens))
    decreases items
  {
    hide *;
    if items.End? {
      NothingLeft(u, text, pos, ahead, lens);
      return "";
    }
    FitsRest(u, text, pos, items, ahead, lens);
    TotalTail(lens);
    PieceSpelled(u, text, pos, items, ahead, lens);
    var n, mid := lens[0], pos + lens[0];
    var rest := FitsSpelled(u, text, mid, items.rest, ahead, lens[1..]);
    var piece, end := text[pos..mid], pos + Total(lens);
    var run := Repeat(CodeOf(items.item.cls), n);
    s := run + rest;
    SpellsStep(items.item, items.rest, n, rest);
    assert items == Then(items.item, items.rest);
    LikeConcat(u, piece, text[mid..end], run, rest);
    assert text[pos..end] == piece + text[mid..end];
  }

  /** Splitting a template that the text reads like. */
  lemma SpellsSplit(u: Alphabet, text: string, pos: nat, items: Items, s: string) returns (n: nat)
    requires items.Then? && AllCoded(u, items) && Spells(items, s)
    requires pos + |s| <= |text| && Like(u, text[pos..pos + |s|], s)
    ensures n <= |s| && ItemMatches(u, items.item, text[pos..pos + n]) && AllCoded(u, items.rest)
    ensures Spells(items.rest, s[n..]) && Like(u, text[pos + n..pos + |s|], s[n..])
  {
    var cls := items.item.cls;
    n :| items.item.lo <= n <= items.item.hi.value && n <= |s| && s[..n] == Repeat(CodeOf(cls), n)
         && Spells(items.rest, s[n..]);
    LikeParts(u, text[pos..pos + |s|], s, n);
    assert text[pos..pos + |s|][..n] == text[pos..pos + n];
    assert text[pos..pos + |s|][n..] == text[pos + n..pos + |s|];
    LikeRun(u, cls, text[pos..pos + n]);
    hide Like, Coded, CodeOf, Repeat;
  }

  lemma LikeParts(u: Alphabet, a: string, s: string, n: nat)
    requires Like(u, a, s) && n <= |s|
    ensures Like(u, a[..n], s[..n]) && Like(u, a[n..], s[n..])
  {
  }

  lemma {:induction false} SpelledFits(u: Alphabet, text: string, pos: nat, items: Items, ahead: Option<Class>,
                                       s: string) returns (lens: seq<nat>)
    requires AllCoded(u, items) && Spells(items, s) && pos + |s| <= |text| && Like(u, text[pos..pos + |s|], s)
    requires !Blocked(u, ahead, text, pos + |s|)
    ensures Fits(u, text, pos, items, ahead, lens) && Total(lens) == |s|
    decreases items
  {
    hide *;
    if items.End? {
      NothingSpelled(u, text, pos, ahead, s);
      return [];
    }
    var n := SpellsSplit(u, text, pos, items, s);
    var rest := SpelledFits(u, text, pos + n, items.rest, ahead, s[n..]);
    FitsCons(u, text, pos, items, ahead, n, rest);
    lens := [n] + rest;
  }

  // ---------------------------------------------------------------- the templates of the nine patterns

  ghost predicate AllExact(items: Items) {
    match items
    case End => true
    case Then(Rep(_, lo, hi), rest) => hi == Some(lo) && AllExact(rest)
    case Then(Alt(_), _) => false
  }

  function FixedText(items: Items): string {
    match items
    case End => ""
    case Then(Rep(cls, lo, _), rest) => Repeat(CodeOf(cls), lo) + FixedText(rest)
    case Then(Alt(_), rest) => FixedText(rest)
  }

  lemma SpellsHead(item: Item, rest: Items, s: string) returns (n: nat, r: string)
    requires Spells(Then(item, rest), s)
    ensures item.Rep? && item.hi.Some? && item.lo <= n <= item.hi.value
    ensures s == Repeat(CodeOf(item.cls), n) + r && Spells(rest, r)
  {
    n :| item.lo <= n <= item.hi.value && n <= |s| && s[..n] == Repeat(CodeOf(item.cls), n) && Spells(rest, s[n..]);
    r := s[n..];
    CutAt(s, n);
  }

  lemma {:induction false} SpellsFixed(items: Items, s: string)
    requires AllExact(items)
    ensures Spells(items, s) <==> s == FixedText(items)
    decreases items
  {
    if items.Then? {
      var item, rest := items.item, items.rest;
      SpellsFixed(rest, FixedText(rest));
      hide Spells, Repeat, CodeOf;
      SpellsStep(item, rest, item.lo, FixedText(rest));
      if Spells(items, s) {
        var n, r := SpellsHead(item, rest, s);
        SpellsFixed(rest, r);
      }
    }
  }

  lemma Runs()
    ensures Repeat('-', 1) == "-" && Repeat('0', 1) == "0" && Repeat('1', 1) == "1"
    ensures Repeat('L', 1) == "L" && Repeat('H', 1) == "H" && Repeat('M', 1) == "M" && Repeat('Z', 1) == "Z"
    ensures Repeat('#', 2) == "##" && Repeat('#', 3) == "###" && Repeat('#', 4) == "####" && Repeat('#', 5) == "#####"
    ensures Repeat('#', 6) == "######" && Repeat('#', 8) == "########" && Repeat('-', 0) == ""
  {
  }

  lemma RegistrationText(t: PiiType)
    requires t in {ResidentNumber, ForeignerNumber, Passport}
    ensures AllExact(PatternOf(t).items) && Template(t, FixedText(PatternOf(t).items))
  {
    Runs();
    hide Repeat;
  }

  lemma LicenceText()
    ensures AllExact(PatternOf(DriverLicence).items) && FixedText(PatternOf(DriverLicence).items) == "##-##-######-##"
  {
    Runs();
    hide Repeat;
  }

  lemma BusinessText()
    ensures AllExact(PatternOf(BusinessNumber).items) && FixedText(PatternOf(BusinessNumber).items) == "###-##-#####"
  {
    Runs();
    hide Repeat;
  }

  lemma FixedTexts(t: PiiType)
    requires t !in {Mobile, Landline, AccountNumber, Email}
    ensures AllExact(PatternOf(t).items) && Template(t, FixedText(PatternOf(t).items))
  {
    hide AllExact, FixedText, PatternOf;
    if t == DriverLicence { LicenceText(); }
    else if t == BusinessNumber { BusinessText(); }
    else { RegistrationText(t); }
  }

  lemma OneTemplate(t: PiiType, s: string, r: string)
    requires t !in {Mobile, Landline, AccountNumber, Email} && Template(t, r)
    ensures Template(t, s) <==> s == r
  {
  }

  lemma FixedTemplates(t: PiiType, s: string)
    requires t !in {Mobile, Landline, AccountNumber, Email}
    ensures Spells(PatternOf(t).items, s) <==> Template(t, s)
  {
    hide *;
    FixedTexts(t);
    OneTemplate(t, s, FixedText(PatternOf(t).items));
    SpellsFixed(PatternOf(t).items, s);
  }

  /** The last run: a hyphen, if any, and four digits. */
  function FourDigits(hyphen: bool): Items {
    if hyphen then Then(Dash(), Then(Exactly(Digit, 4), End)) else Then(Exactly(Digit, 4), End)
  }

  lemma FourDigitsSpelt(hyphen: bool, s: string)
    ensures Spells(FourDigits(hyphen), s) <==> s == if hyphen then "-####" else "####"
  {
    Runs();
    SpellsFixed(FourDigits(hyphen), s);
    hide Spells, Repeat;
    assert FixedText(FourDigits(hyphen)) == if hyphen then "-####" else "####" by { Unit("####"); }
  }

  lemma OneHead(cls: Class, code: string, rest: Items, s: string) returns (r: string)
    requires code == Repeat(CodeOf(cls), 1) && Spells(Then(Exactly(cls, 1), rest), s)
    ensures s == code + r && Spells(rest, r)
  {
    hide Spells, Repeat, CodeOf;
    var n;
    n, r := SpellsHead(Exactly(cls, 1), rest, s);
  }

  lemma OneCons(cls: Class, code: string, rest: Items, r: string)
    requires code == Repeat(CodeOf(cls), 1) && Spells(rest, r)
    ensures Spells(Then(Exactly(cls, 1), rest), code + r)
  {
    hide Spells, Repeat, CodeOf;
    SpellsStep(Exactly(cls, 1), rest, 1, r);
  }

  lemma DigitsHead(lo: nat, hi: nat, rest: Items, s: string) returns (n: nat, r: string)
    requires Spells(Then(Between(Digit, lo, hi), rest), s)
    ensures lo <= n <= hi && s == Hashes(n) + r && Spells(rest, r)
  {
    hide Spells, Repeat;
    n, r := SpellsHead(Between(Digit, lo, hi), rest, s);
  }

  lemma DigitsCons(lo: nat, hi: nat, n: nat, rest: Items, r: string)
    requires lo <= n <= hi && Spells(rest, r)
    ensures Spells(Then(Between(Digit, lo, hi), rest), Hashes(n) + r)
  {
    hide Spells, Repeat;
    SpellsStep(Between(Digit, lo, hi), rest, n, r);
  }

  lemma HyphenHead(rest: Items, s: string) returns (there: bool, r: string)
    requires Spells(Then(MaybeDash(), rest), s)
    ensures s == Hyphen(there) + r && Spells(rest, r)
  {
    Runs();
    hide Spells, Repeat;
    var n;
    n, r := SpellsHead(MaybeDash(), rest, s);
    there := n == 1;
  }

  lemma HyphenCons(there: bool, rest: Items, r: string)
    requires Spells(rest, r)
    ensures Spells(Then(MaybeDash(), rest), Hyphen(there) + r)
  {
    Runs();
    hide Spells, Repeat;
    SpellsStep(MaybeDash(), rest, if there then 1 else 0, r);
  }

  function LandlineItems(): Items {
    Then(Exactly(Char('0'), 1), Then(Between(Digit, 1, 2), Then(Exactly(Char('-'), 1),
    Then(Between(Digit, 3, 4), FourDigits(true)))))
  }

  lemma CodesOfOne()
    ensures "0" == Repeat(CodeOf(Char('0')), 1) && "1" == Repeat(CodeOf(Char('1')), 1)
    ensures "-" == Repeat(CodeOf(Char('-')), 1) && "M" == Repeat(CodeOf(MobileThird()), 1)
  {
    Runs();
    hide Repeat;
  }

  lemma LandlineHeads(s: string) returns (a: nat, b: nat)
    requires Spells(LandlineItems(), s)
    ensures 1 <= a <= 2 && 3 <= b <= 4 && s == LandlineTemplate(a, b)
  {
    CodesOfOne();
    var i4 := FourDigits(true);
    var i3 := Then(Between(Digit, 3, 4), i4);
    var i2 := Then(Exactly(Char('-'), 1), i3);
    var i1 := Then(Between(Digit, 1, 2), i2);
    assert LandlineItems() == Then(Exactly(Char('0'), 1), i1);
    hide *;
    var r1 := OneHead(Char('0'), "0", i1, s);
    var r2, r3, r4;
    a, r2 := DigitsHead(1, 2, i2, r1);
    r3 := OneHead(Char('-'), "-", i3, r2);
    b, r4 := DigitsHead(3, 4, i4, r3);
    FourDigitsSpelt(true, r4);
    LandlineTemplateIs(a, b);
  }

  lemma LandlineTemplateIs(a: nat, b: nat)
    ensures LandlineTemplate(a, b) == "0" + (Hashes(a) + ("-" + (Hashes(b) + "-####")))
  {
  }

  lemma LandlineConses(a: nat, b: nat)
    requires 1 <= a <= 2 && 3 <= b <= 4
    ensures Spells(LandlineItems(), LandlineTemplate(a, b))
  {
    CodesOfOne();
    LandlineTemplateIs(a, b);
    var i4 := FourDigits(true);
    var i3 := Then(Between(Digit, 3, 4), i4);
    var i2 := Then(Exactly(Char('-'), 1), i3);
    var i1 := Then(Between(Digit, 1, 2), i2);
    assert LandlineItems() == Then(Exactly(Char('0'), 1), i1);
    hide *;
    FourDigitsSpelt(true, "-####");
    DigitsCons(3, 4, b, i4, "-####");
    OneCons(Char('-'), "-", i3, Hashes(b) + "-####");
    DigitsCons(1, 2, a, i2, "-" + (Hashes(b) + "-####"));
    OneCons(Char('0'), "0", i1, Hashes(a) + ("-" + (Hashes(b) + "-####")));
  }

  lemma LandlineTemplates(s: string)
    ensures Spells(LandlineItems(), s) <==> Template(Landline, s)
  {
    hide Spells, LandlineItems, LandlineTemplate;
    if Spells(LandlineItems(), s) {
      var a, b := LandlineHeads(s);
    }
    if a: nat, b: nat :| 1 <= a <= 2 && 3 <= b <= 4 && s == LandlineTemplate(a, b) { LandlineConses(a, b); }
  }

  function AccountItems(): Items {
    Then(Between(Digit, 3, 4), Then(Exactly(Char('-'), 1), Then(Between(Digit, 2, 6),
    Then(Exactly(Char('-'), 1), Then(Between(Digit, 2, 6), End)))))
  }

  lemma NothingSpelt(s: string)
    ensures Spells(End, s) <==> s == ""
  {
  }

  lemma AccountTemplateIs(a: nat, b: nat, c: nat)
    ensures AccountTemplate(a, b, c) == Hashes(a) + ("-" + (Hashes(b) + ("-" + Hashes(c))))
  {
  }

  lemma AccountHeads(s: string) returns (a: nat, b: nat, c: nat)
    requires Spells(AccountItems(), s)
    ensures 3 <= a <= 4 && 2 <= b <= 6 && 2 <= c <= 6 && s == AccountTemplate(a, b, c)
  {
    CodesOfOne();
    var i4 := Then(Between(Digit, 2, 6), End);
    var i3 := Then(Exactly(Char('-'), 1), i4);
    var i2 := Then(Between(Digit, 2, 6), i3);
    var i1 := Then(Exactly(Char('-'), 1), i2);
    assert AccountItems() == Then(Between(Digit, 3, 4), i1);
    hide *;
    var r1, r2, r3, r4, r5;
    a, r1 := DigitsHead(3, 4, i1, s);
    r2 := OneHead(Char('-'), "-", i2, r1);
    b, r3 := DigitsHead(2, 6, i3, r2);
    r4 := OneHead(Char('-'), "-", i4, r3);
    c, r5 := DigitsHead(2, 6, End, r4);
    NothingSpelt(r5);
    Unit(Hashes(c));
    AccountTemplateIs(a, b, c);
  }

  lemma AccountConses(a: nat, b: nat, c: nat)
    requires 3 <= a <= 4 && 2 <= b <= 6 && 2 <= c <= 6
    ensures Spells(AccountItems(), AccountTemplate(a, b, c))
  {
    CodesOfOne();
    AccountTemplateIs(a, b, c);
    var i4 := Then(Between(Digit, 2, 6), End);
    var i3 := Then(Exactly(Char('-'), 1), i4);
    var i2 := Then(Between(Digit, 2, 6), i3);
    var i1 := Then(Exactly(Char('-'), 1), i2);
    assert AccountItems() == Then(Between(Digit, 3, 4), i1);
    hide *;
    NothingSpelt("");
    DigitsCons(2, 6, c, End, "");
    Unit(Hashes(c));
    OneCons(Char('-'), "-", i4, Hashes(c));
    DigitsCons(2, 6, b, i3, "-" + Hashes(c));
    OneCons(Char('-'), "-", i2, Hashes(b) + ("-" + Hashes(c)));
    DigitsCons(3, 4, a, i1, "-" + (Hashes(b) + ("-" + Hashes(c))));
  }

  lemma AccountTemplates(s: string)
    ensures Spells(AccountItems(), s) <==> Template(AccountNumber, s)
  {
    hide Spells, AccountItems, AccountTemplate;
    if Spells(AccountItems(), s) {
      var a, b, c := AccountHeads(s);
    }
    if a: nat, b: nat, c: nat :| 3 <= a <= 4 && 2 <= b <= 6 && 2 <= c <= 6 && s == AccountTemplate(a, b, c) {
      AccountConses(a, b, c);
    }
  }

  function MobileThird(): Class { Or(Char('0'), Or(Char('1'), Range('6', '9'))) }

  function MobileItems(): Items {
    Then(Exactly(Char('0'), 1), Then(Exactly(Char('1'), 1), Then(Exactly(MobileThird(), 1), Then(MaybeDash(),
    Then(Between(Digit, 3, 4), Then(MaybeDash(), FourDigits(false)))))))
  }

  lemma MobileTemplateIs(first: bool, n: nat, second: bool)
    ensures MobileTemplate(first, n, second) ==
            "0" + ("1" + ("M" + (Hyphen(first) + (Hashes(n) + (Hyphen(second) + "####")))))
  {
    hide Hashes, Hyphen;
  }

  lemma MobileHeads(s: string) returns (first: bool, n: nat, second: bool)
    requires Spells(MobileItems(), s)
    ensures 3 <= n <= 4 && s == MobileTemplate(first, n, second)
  {
    CodesOfOne();
    var i6 := FourDigits(false);
    var i5 := Then(MaybeDash(), i6);
    var i4 := Then(Between(Digit, 3, 4), i5);
    var i3 := Then(MaybeDash(), i4);
    var i2 := Then(Exactly(MobileThird(), 1), i3);
    var i1 := Then(Exactly(Char('1'), 1), i2);
    assert MobileItems() == Then(Exactly(Char('0'), 1), i1);
    hide *;
    var r4, r5, r6;
    var r1 := OneHead(Char('0'), "0", i1, s);
    var r2 := OneHead(Char('1'), "1", i2, r1);
    var r3 := OneHead(MobileThird(), "M", i3, r2);
    first, r4 := HyphenHead(i4, r3);
    n, r5 := DigitsHead(3, 4, i5, r4);
    second, r6 := HyphenHead(i6, r5);
    FourDigitsSpelt(false, r6);
    MobileTemplateIs(first, n, second);
  }

  lemma MobileConses(first: bool, n: nat, second: bool)
    requires 3 <= n <= 4
    ensures Spells(MobileItems(), MobileTemplate(first, n, second))
  {
    CodesOfOne();
    MobileTemplateIs(first, n, second);
    var i6 := FourDigits(false);
    var i5 := Then(MaybeDash(), i6);
    var i4 := Then(Between(Digit, 3, 4), i5);
    var i3 := Then(MaybeDash(), i4);
    var i2 := Then(Exactly(MobileThird(), 1), i3);
    var i1 := Then(Exactly(Char('1'), 1), i2);
    assert MobileItems() == Then(Exactly(Char('0'), 1), i1);
    hide *;
    FourDigitsSpelt(false, "####");
    HyphenCons(second, i6, "####");
    DigitsCons(3, 4, n, i5, Hyphen(second) + "####");
    HyphenCons(first, i4, Hashes(n) + (Hyphen(second) + "####"));
    var r3 := Hyphen(first) + (Hashes(n) + (Hyphen(second) + "####"));
    OneCons(MobileThird(), "M", i3, r3);
    OneCons(Char('1'), "1", i2, "M" + r3);
    OneCons(Char('0'), "0", i1, "1" + ("M" + r3));
  }

  lemma MobileTemplates(s: string)
    ensures Spells(MobileItems(), s) <==> Template(Mobile, s)
  {
    hide Spells, MobileItems, MobileTemplate;
    if Spells(MobileItems(), s) {
      var first, n, second := MobileHeads(s);
    }
    if first, second, n: nat :| 3 <= n <= 4 && s == MobileTemplate(first, n, second) { MobileConses(first, n, second); }
  }

  lemma NamedItems()
    ensures PatternOf(Mobile).items == MobileItems() && PatternOf(Landline).items == LandlineItems()
    ensures PatternOf(AccountNumber).items == AccountItems()
  {
  }

  lemma Templates(t: PiiType, s: string)
    requires t != Email
    ensures Spells(PatternOf(t).items, s) <==> Template(t, s)
  {
    hide *;
    NamedItems();
    if t == Mobile { MobileTemplates(s); }
    else if t == Landline { LandlineTemplates(s); }
    else if t == AccountNumber { AccountTemplates(s); }
    else { FixedTemplates(t, s); }
  }

  /** Each class used stands for what its code stands for. */
  lemma ClassesCoded(u: Alphabet)
    ensures Coded(u, Digit) && Coded(u, Char('-')) && Coded(u, Char('0')) && Coded(u, Char('1'))
    ensures Coded(u, Range('1', '4')) && Coded(u, Range('5', '8')) && Coded(u, Range('A', 'Z'))
    ensures Coded(u, MobileThird())
  {
    forall c ensures In(u, Or(Char('1'), Range('6', '9')), c) <==> c == '1' || '6' <= c <= '9' {}
  }

  predicate Simple(items: Items) {
    match items
    case End => true
    case Then(Rep(cls, _, hi), rest) =>
      && hi.Some? && Simple(rest)
      && (|| cls == Digit || cls == Char('-') || cls == Char('0') || cls == Char('1') || cls == MobileThird()
          || cls == Range('1', '4') || cls == Range('5', '8') || cls == Range('A', 'Z'))
    case Then(Alt(_), _) => false
  }

  lemma {:induction false} SimpleCoded(u: Alphabet, items: Items)
    requires Simple(items)
    ensures AllCoded(u, items)
    decreases items
  {
    ClassesCoded(u);
    hide Coded;
    if items.Then? { SimpleCoded(u, items.rest); }
  }

  lemma PatternsSimple(t: PiiType)
    requires t != Email
    ensures Simple(PatternOf(t).items)
  {
  }

  lemma PatternsCoded(u: Alphabet, t: PiiType)
    requires t != Email
    ensures AllCoded(u, PatternOf(t).items)
  {
    hide *;
    PatternsSimple(t);
    SimpleCoded(u, PatternOf(t).items);
  }

  lemma Around(u: Alphabet, t: PiiType, text: string, start: nat, end: nat)
    requires start <= end <= |text|
    ensures Alone(u, t, text, start, end) <==>
      !Blocked(u, PatternOf(t).behind, text, start - 1) && !Blocked(u, PatternOf(t).ahead, text, end)
  {
  }

  // ---------------------------------------------------------------- what a match looks like

  lemma {:induction false} NumberLooks(u: Alphabet, t: PiiType, text: string, m: Match)
    requires t != Email && IsMatch(u, PatternOf(t), text, m)
    ensures Looks(u, t, text[m.start..m.end]) && Alone(u, t, text, m.start, m.end)
  {
    hide *;
    MatchFacts(u, PatternOf(t), text, m);
    PatternsCoded(u, t);
    var s := FitsSpelled(u, text, m.start, PatternOf(t).items, PatternOf(t).ahead, m.lens);
    Templates(t, s);
    LooksBy(u, t, text[m.start..m.end], s);
    Around(u, t, text, m.start, m.end);
  }

  lemma LooksBy(u: Alphabet, t: PiiType, v: string, s: string)
    requires t != Email && Template(t, s) && Like(u, v, s)
    ensures Looks(u, t, v)
  {
  }

  lemma TemplateOf(u: Alphabet, t: PiiType, v: string) returns (s: string)
    requires t != Email && Looks(u, t, v)
    ensures Template(t, s) && Like(u, v, s) && |v| == |s|
  {
    s :| Template(t, s) && Like(u, v, s);
  }

  lemma NumberMatches(u: Alphabet, t: PiiType, text: string, start: nat, end: nat) returns (lens: seq<nat>)
    requires t != Email && start <= end <= |text| && Looks(u, t, text[start..end]) && Alone(u, t, text, start, end)
    ensures IsMatch(u, PatternOf(t), text, Match(start, end, lens))
  {
    hide *;
    var p := PatternOf(t);
    Around(u, t, text, start, end);
    PatternsCoded(u, t);
    var s := TemplateOf(u, t, text[start..end]);
    Templates(t, s);
    lens := SpelledFits(u, text, start, p.items, p.ahead, s);
    PatternsNonEmpty(t);
    FitsBounds(u, text, start, p.items, p.ahead, lens);
    PartsMatch(u, p, text, Match(start, end, lens));
  }

  lemma OneChar(u: Alphabet, c: char, piece: string)
    requires ItemMatches(u, Exactly(Char(c), 1), piece)
    ensures piece == [c]
  {
  }

  /** The four parts of an e-mail address before its last label. */
  const EMAIL_ITEMS: Items := Then(Rep(WordDotDash(), 1, None), EMAIL_AT)
  const EMAIL_AT: Items := Then(Exactly(Char('@'), 1), EMAIL_HOST)
  const EMAIL_HOST: Items := Then(Rep(WordDotDash(), 1, None), EMAIL_DOT)
  const EMAIL_DOT: Items := Then(Exactly(Char('.'), 1), EMAIL_LABEL)
  const EMAIL_LABEL: Items := Then(Rep(Word, 1, None), End)

  lemma EmailParts()
    ensures PatternOf(Email) == Pattern(None, EMAIL_ITEMS, None)
  {
  }

  lemma NamePiece(u: Alphabet, piece: string)
    ensures ItemMatches(u, Rep(WordDotDash(), 1, None), piece) <==> Named(u, piece)
    ensures ItemMatches(u, Rep(Word, 1, None), piece) <==> Worded(u, piece)
  {
    forall c ensures In(u, WordDotDash(), c) <==> NameChar(u, c) {
      assert In(u, Or(Char('.'), Char('-')), c) <==> c == '.' || c == '-';
    }
    hide WordDotDash, NameChar;
  }

  /** From the dot on. */
  lemma LabelLooks(u: Alphabet, text: string, dot: nat, lens: seq<nat>)
    requires dot <= |text| && Fits(u, text, dot, EMAIL_DOT, None, lens)
    ensures dot + Total(lens) <= |text| && Total(lens) >= 1 && text[dot..dot + 1] == "."
    ensures Worded(u, text[dot + 1..dot + Total(lens)])
  {
    assert EMAIL_DOT == Then(Exactly(Char('.'), 1), EMAIL_LABEL) && EMAIL_LABEL == Then(Rep(Word, 1, None), End);
    hide *;
    FitsPiece(u, text, dot, Exactly(Char('.'), 1), EMAIL_LABEL, None, lens);
    OneChar(u, '.', text[dot..dot + lens[0]]);
    var at, rest := dot + 1, lens[1..];
    FitsPiece(u, text, at, Rep(Word, 1, None), End, None, rest);
    NothingLeft(u, text, at + rest[0], None, rest[1..]);
    NamePiece(u, text[at..at + rest[0]]);
  }

  /** From the at sign on. */
  lemma HostLooks(u: Alphabet, text: string, at: nat, lens: seq<nat>) returns (dot: nat)
    requires at <= |text| && Fits(u, text, at, EMAIL_AT, None, lens)
    ensures at < dot < at + Total(lens) <= |text| && text[at..at + 1] == "@" && text[dot..dot + 1] == "."
    ensures Named(u, text[at + 1..dot]) && Worded(u, text[dot + 1..at + Total(lens)])
  {
    assert EMAIL_AT == Then(Exactly(Char('@'), 1), EMAIL_HOST);
    assert EMAIL_HOST == Then(Rep(WordDotDash(), 1, None), EMAIL_DOT);
    hide *;
    FitsPiece(u, text, at, Exactly(Char('@'), 1), EMAIL_HOST, None, lens);
    OneChar(u, '@', text[at..at + lens[0]]);
    var host, rest := at + 1, lens[1..];
    FitsPiece(u, text, host, Rep(WordDotDash(), 1, None), EMAIL_DOT, None, rest);
    dot := host + rest[0];
    NamePiece(u, text[host..dot]);
    LabelLooks(u, text, dot, rest[1..]);
  }

  lemma EmailLooks(u: Alphabet, text: string, m: Match)
    requires IsMatch(u, PatternOf(Email), text, m)
    ensures Looks(u, Email, text[m.start..m.end])
  {
    EmailParts();
    MatchFacts(u, PatternOf(Email), text, m);
    assert EMAIL_ITEMS == Then(Rep(WordDotDash(), 1, None), EMAIL_AT);
    hide *;
    FitsPiece(u, text, m.start, Rep(WordDotDash(), 1, None), EMAIL_AT, None, m.lens);
    var at := m.start + m.lens[0];
    NamePiece(u, text[m.start..at]);
    var dot := HostLooks(u, text, at, m.lens[1..]);
    AddressLooks(u, text, m.start, at, dot, m.end);
  }

  lemma SliceOfSlice(s: string, a: nat, b: nat, i: nat, j: nat)
    requires a <= b <= |s| && i <= j <= b - a
    ensures s[a..b][i..j] == s[a + i..a + j]
  {
    var t := s[a..b];
    assert forall k :: i <= k < j ==> t[k] == s[a + k];
    assert |t[i..j]| == |s[a + i..a + j]| && forall k :: 0 <= k < j - i ==> t[i..j][k] == s[a + i..a + j][k];
  }

  lemma AddressLooks(u: Alphabet, text: string, start: nat, at: nat, dot: nat, end: nat)
    requires start <= at < dot < end <= |text| && text[at..at + 1] == "@" && text[dot..dot + 1] == "."
    requires Named(u, text[start..at]) && Named(u, text[at + 1..dot]) && Worded(u, text[dot + 1..end])
    ensures Looks(u, Email, text[start..end])
  {
    var v := text[start..end];
    assert text[at] == text[at..at + 1][0] && text[dot] == text[dot..dot + 1][0];
    SliceOfSlice(text, start, end, 0, at - start);
    SliceOfSlice(text, start, end, at - start + 1, dot - start);
    SliceOfSlice(text, start, end, dot - start + 1, end - start);
    assert AddressAt(u, v, at - start, dot - start);
  }

  lemma CharPiece(u: Alphabet, c: char, text: string, at: nat)
    requires at < |text| && text[at] == c
    ensures ItemMatches(u, Exactly(Char(c), 1), text[at..at + 1])
  {
  }

  lemma HostMatches(u: Alphabet, text: string, at: nat, dot: nat, end: nat) returns (lens: seq<nat>)
    requires at < dot < end <= |text| && text[at] == '@' && text[dot] == '.'
    requires Named(u, text[at + 1..dot]) && Worded(u, text[dot + 1..end])
    ensures Fits(u, text, at, EMAIL_AT, None, lens) && Total(lens) == end - at
  {
    assert EMAIL_AT == Then(Exactly(Char('@'), 1), EMAIL_HOST);
    assert EMAIL_HOST == Then(Rep(WordDotDash(), 1, None), EMAIL_DOT);
    assert EMAIL_DOT == Then(Exactly(Char('.'), 1), EMAIL_LABEL) && EMAIL_LABEL == Then(Rep(Word, 1, None), End);
    NotBlocked(u, text, end);
    NothingSpelled(u, text, end, None, "");
    hide *;
    NamePiece(u, text[at + 1..dot]);
    NamePiece(u, text[dot + 1..end]);
    CharPiece(u, '@', text, at);
    CharPiece(u, '.', text, dot);
    var l4 := PieceFits(u, text, dot + 1, Rep(Word, 1, None), End, None, end - dot - 1, []);
    var l3 := PieceFits(u, text, dot, Exactly(Char('.'), 1), EMAIL_LABEL, None, 1, l4);
    var l2 := PieceFits(u, text, at + 1, Rep(WordDotDash(), 1, None), EMAIL_DOT, None, dot - at - 1, l3);
    lens := PieceFits(u, text, at, Exactly(Char('@'), 1), EMAIL_HOST, None, 1, l2);
  }

  lemma AddressParts(u: Alphabet, text: string, start: nat, end: nat) returns (at: nat, dot: nat)
    requires start <= end <= |text| && Looks(u, Email, text[start..end])
    ensures start < at < dot < end && text[at] == '@' && text[dot] == '.'
    ensures Named(u, text[start..at]) && Named(u, text[at + 1..dot]) && Worded(u, text[dot + 1..end])
  {
    var v := text[start..end];
    var a: nat, d: nat :| AddressAt(u, v, a, d);
    at, dot := start + a, start + d;
    SliceOfSlice(text, start, end, 0, a);
    SliceOfSlice(text, start, end, a + 1, d);
    SliceOfSlice(text, start, end, d + 1, end - start);
    assert text[start..at] != "";
  }

  lemma EmailMatches(u: Alphabet, text: string, start: nat, end: nat) returns (lens: seq<nat>)
    requires start <= end <= |text| && Looks(u, Email, text[start..end])
    ensures IsMatch(u, PatternOf(Email), text, Match(start, end, lens))
  {
    var at, dot := AddressParts(u, text, start, end);
    EmailParts();
    assert EMAIL_ITEMS == Then(Rep(WordDotDash(), 1, None), EMAIL_AT);
    hide *;
    NamePiece(u, text[start..at]);
    var host := HostMatches(u, text, at, dot, end);
    lens := PieceFits(u, text, start, Rep(WordDotDash(), 1, None), EMAIL_AT, None, at - start, host);
    NotBlocked(u, text, start - 1);
    PartsMatch(u, PatternOf(Email), text, Match(start, end, lens));
  }

  lemma NotBlocked(u: Alphabet, text: string, at: int)
    ensures !Blocked(u, None, text, at)
  {
  }

  lemma EmailAlone(u: Alphabet, text: string, start: nat, end: nat)
    requires start <= end <= |text|
    ensures Alone(u, Email, text, start, end)
  {
  }

  /**
   What each pattern matches: a part of the text is a match exactly when it is written like a number of
   that kind and nothing that would prolong it stands beside it.
   */
  lemma PatternsMean(u: Alphabet, t: PiiType, text: string, start: nat, end: nat)
    ensures (exists lens :: IsMatch(u, PatternOf(t), text, Match(start, end, lens))) <==>
              start <= end <= |text| && Looks(u, t, text[start..end]) && Alone(u, t, text, start, end)
  {
    hide *;
    if lens :| IsMatch(u, PatternOf(t), text, Match(start, end, lens)) {
      var m := Match(start, end, lens);
      MatchFacts(u, PatternOf(t), text, m);
      if t == Email {
        EmailLooks(u, text, m);
        EmailAlone(u, text, start, end);
      } else {
        NumberLooks(u, t, text, m);
      }
    }
    if start <= end <= |text| && Looks(u, t, text[start..end]) && Alone(u, t, text, start, end) {
      var lens;
      if t == Email { lens := EmailMatches(u, text, start, end); }
      else { lens := NumberMatches(u, t, text, start, end); }
    }
  }

  // ---------------------------------------------------------------- dates

  /** Ten characters written like a date: four digits, two and two, with hyphens between. */
  ghost predicate DateAt(u: Alphabet, text: string, i: nat) {
    i + 10 <= |text| && Like(u, text[i..i + 10], "####-##-##")
  }

  /** Where the dates of the text start, read from left to right without overlap. */
  ghost function DateStarts(u: Alphabet, text: string, i: nat): seq<nat>
    decreases |text| - i
  {
    if i >= |text| then []
    else if DateAt(u, text, i) then [i] + DateStarts(u, text, i + 10)
    else DateStarts(u, text, i + 1)
  }

  lemma DateTemplate(s: string)
    ensures Simple(DatePattern().items)
    ensures Spells(DatePattern().items, s) <==> s == "####-##-##"
  {
    hide *;
    DateText();
    SpellsFixed(DatePattern().items, s);
  }

  lemma DateText()
    ensures Simple(DatePattern().items) && AllExact(DatePattern().items)
    ensures FixedText(DatePattern().items) == "####-##-##"
  {
    Runs();
    hide Repeat;
  }

  lemma DateStep(u: Alphabet, text: string, at: nat)
    requires at < |text|
    ensures var m := MatchAt(u, text, at, DatePattern());
            (m.Some? <==> DateAt(u, text, at)) && (m.Some? ==> Total(m.value) == 10)
  {
    hide *;
    var items := DatePattern().items;
    var m := MatchAt(u, text, at, DatePattern());
    NoBoundary(u, text, at);
    DateTemplate("####-##-##");
    SimpleCoded(u, items);
    if m.Some? {
      MatchItemsSound(u, text, at, items, None);
      var s := FitsSpelled(u, text, at, items, None, m.value);
      DateTemplate(s);
      DateSpelt(u, text, at, text[at..at + Total(m.value)]);
    }
    if DateAt(u, text, at) {
      SpeltDate(u, text, at);
      NotBlocked(u, text, at + 10);
      var lens := SpelledFits(u, text, at, items, None, "####-##-##");
      MatchItemsPreferred(u, text, at, items, None, lens);
    }
  }

  lemma NoBoundary(u: Alphabet, text: string, at: nat)
    requires at <= |text|
    ensures MatchAt(u, text, at, DatePattern()) == MatchItems(u, text, at, DatePattern().items, None)
  {
    hide MatchItems;
  }

  lemma DateSpelt(u: Alphabet, text: string, at: nat, v: string)
    requires at + |v| <= |text| && v == text[at..at + |v|] && Like(u, v, "####-##-##")
    ensures DateAt(u, text, at) && |v| == 10
  {
  }

  lemma SpeltDate(u: Alphabet, text: string, at: nat)
    requires DateAt(u, text, at)
    ensures at + 10 <= |text| && Like(u, text[at..at + 10], "####-##-##")
  {
  }

  /** The two readings of the text find the same dates. */
  ghost predicate SameDates(ms: seq<Match>, starts: seq<nat>) {
    |ms| == |starts| && forall i :: 0 <= i < |ms| ==> ms[i].start == starts[i] && ms[i].end == starts[i] + 10
  }

  lemma {:induction false} LeftmostDates(u: Alphabet, text: string, pos: nat)
    requires pos <= |text| && Advances(Step(u, DatePattern(), text), |text|)
    ensures SameDates(Leftmost(Step(u, DatePattern(), text), |text|, pos), DateStarts(u, text, pos))
    decreases |text| - pos
  {
    var step := Step(u, DatePattern(), text);
    if pos < |text| {
      DateStep(u, text, pos);
      assert step(pos) == MatchAt(u, text, pos, DatePattern());
      hide DateAt, Step, MatchAt;
      if step(pos).Some? { LeftmostDates(u, text, pos + 10); } else { LeftmostDates(u, text, pos + 1); }
    }
  }

  lemma DatesAre(u: Alphabet, text: string)
    ensures SameDates(Dates(u, text), DateStarts(u, text, 0))
  {
    PatternsNonEmpty(ResidentNumber);
    StepAdvances(u, DatePattern(), text);
    LeftmostDates(u, text, 0);
    hide Leftmost, Step, DateStarts, SameDates;
  }

  /** A date of the text shares a position with the span. */
  ghost predicate OnDate(u: Alphabet, text: string, start: nat, end: nat) {
    exists d :: d in DateStarts(u, text, 0) && d < end && start < d + 10
  }

  lemma TouchIsOnDate(u: Alphabet, text: string, start: nat, end: nat)
    ensures TouchesDate(Dates(u, text), start, end) <==> OnDate(u, text, start, end)
  {
    DatesAre(u, text);
    hide DateStarts, Dates;
    var ms, starts := Dates(u, text), DateStarts(u, text, 0);
    if m :| m in ms && m.start < end && start < m.end {
      var i :| 0 <= i < |ms| && ms[i] == m;
      assert starts[i] in starts;
    }
    if d :| d in starts && d < end && start < d + 10 {
      var i :| 0 <= i < |starts| && starts[i] == d;
      assert ms[i] in ms;
    }
  }

  /**
   Which matches are selected: the matches of registration and account numbers that share no position
   with a date, and all matches of the six other kinds, unless a selected span of an earlier pattern
   overlaps them.
   */
  lemma ScanRule(u: Alphabet, text: string, t: PiiType, m: Match)
    requires m in Finds(u, t, text)
    ensures m.start <= m.end <= |text|
    ensures PiiMatch(t, text[m.start..m.end], m.start, m.end) in Scan(u, text) <==>
              && (t in {ResidentNumber, ForeignerNumber, AccountNumber} ==> !OnDate(u, text, m.start, m.end))
              && (forall k :: k in Scan(u, text) && Rank(k.piiType) < Rank(t) ==> k.end <= m.start || m.end <= k.start)
  {
    ScanSelects(u, text, t, m);
    TouchIsOnDate(u, text, m.start, m.end);
    hide Scan, Finds, Dates, OnDate, TouchesDate, Rank;
  }

  /** No selected registration or account number shares a position with a date. */
  lemma DatesStay(u: Alphabet, text: string)
    ensures forall x :: x in Scan(u, text) && x.piiType in {ResidentNumber, ForeignerNumber, AccountNumber} ==>
              !OnDate(u, text, x.start, x.end)
  {
    ScanIsLast(u, text);
    ScanFirstSound(u, text, |ORDER|);
    hide Scan, Finds, Dates, OnDate, Rank, ScanFirst;
    forall x | x in Scan(u, text) && x.piiType in {ResidentNumber, ForeignerNumber, AccountNumber}
      ensures !OnDate(u, text, x.start, x.end)
    {
      var m :| m in Finds(u, x.piiType, text) && m.start <= m.end <= |text| && x == ToPii(text, x.piiType, m);
      ScanRule(u, text, x.piiType, m);
    }
  }

  const DATE := "2024-01-15"

  lemma LookLengths(u: Alphabet, t: PiiType, v: string)
    requires Looks(u, t, v)
    ensures t in {ResidentNumber, ForeignerNumber, DriverLicence, BusinessNumber, Landline} ==> |v| > 10
    ensures t == Mobile ==> |v| >= 10 && v[0] == '0'
    ensures t == Passport ==> v != "" && 'A' <= v[0] <= 'Z'
    ensures t == Email ==> '@' in v
  {
  }

  lemma SelectedLooks(u: Alphabet, text: string, x: PiiMatch)
    requires x in Scan(u, text)
    ensures x.start < x.end <= |text| && Looks(u, x.piiType, text[x.start..x.end])
  {
    ScanIsLast(u, text);
    ScanFirstSound(u, text, |ORDER|);
    hide Scan, Looks, Alone, Rank, ScanFirst, IsMatch, PatternOf;
    var t := x.piiType;
    var m :| m in Finds(u, t, text) && m.start <= m.end <= |text| && x == ToPii(text, t, m);
    PatternsNonEmpty(t);
    FindIterSpec(u, PatternOf(t), text);
    assert IsMatch(u, PatternOf(t), text, Match(m.start, m.end, m.lens));
    PatternsMean(u, t, text, m.start, m.end);
    MatchFacts(u, PatternOf(t), text, m);
  }

  lemma OneDate(u: Alphabet)
    requires Sane(u)
    ensures DateStarts(u, DATE, 0) == [0]
  {
    assert DATE[0..10] == DATE;
    assert DateStarts(u, DATE, 10) == [];
  }

  lemma AllDate(u: Alphabet, start: nat, end: nat)
    requires Sane(u) && start < end <= 10
    ensures OnDate(u, DATE, start, end)
  {
    OneDate(u);
    hide DateStarts, Sane, DATE;
    assert 0 in DateStarts(u, DATE, 0);
  }

  lemma NoLetters(i: nat, j: nat)
    requires i < j <= |DATE|
    ensures var v := DATE[i..j]; |v| <= 10 && '@' !in v && !('A' <= v[0] <= 'Z') && (|v| == 10 ==> v[0] != '0')
  {
    var v := DATE[i..j];
    assert v[0] == DATE[i];
    forall k | 0 <= k < |v| ensures v[k] != '@' { assert v[k] == DATE[i + k]; }
  }

  /** Nothing in `DATE` is written like a number of another kind. */
  lemma OnlyAnAccount(u: Alphabet, x: PiiMatch)
    requires x in Scan(u, DATE)
    ensures x.piiType == AccountNumber && x.start < x.end <= 10
  {
    assert |DATE| == 10;
    hide *;
    SelectedLooks(u, DATE, x);
    LookLengths(u, x.piiType, DATE[x.start..x.end]);
    NoLetters(x.start, x.end);
  }

  lemma DateIsAccount(u: Alphabet)
    requires Sane(u)
    ensures Looks(u, AccountNumber, DATE)
  {
    assert AccountTemplate(4, 2, 2) == "####-##-##";
    assert Like(u, DATE, "####-##-##");
    hide AccountTemplate, Like;
    assert Template(AccountNumber, AccountTemplate(4, 2, 2));
  }

  /** A date by itself: it is written like an account number and stays as it is. */
  lemma DateAloneStays(u: Alphabet)
    requires Sane(u)
    ensures Looks(u, AccountNumber, DATE) && Scan(u, DATE) == []
  {
    hide *;
    DateIsAccount(u);
    DatesStay(u, DATE);
    if Scan(u, DATE) != [] {
      var x := Scan(u, DATE)[0];
      OnlyAnAccount(u, x);
      AllDate(u, x.start, x.end);
    }
  }
}
