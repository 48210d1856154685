/**
 Checking that the numbers of an answer occur in its context
 (backend/app/services/guardrails/numeric_verifier.py).
 */
module NumericVerifier {
  import opened Prelude
  import opened Strings
  import opened Regex

  const PREFIXES: seq<string> := ["연", "월", "주", "일", "반기", "분기", "매", ""]

  /** Compound units come first so that they win. */
  const UNITS: seq<string> := [
    "개월", "반기", "분기", "회", "번", "개", "점", "%", "원", "시간", "일", "주", "월", "년", "건", "명", "만", "억", "천"
  ]

  function NumericPattern(): Pattern {
    Pattern(Some(Or(Char('제'), Word)),
            Then(Alt(PREFIXES), Then(Rep(Space, 0, None), Then(Rep(Digit, 1, None),
            Then(Rep(Or(Digit, Or(Char(','), Char('.'))), 0, None),
                Then(Rep(Space, 0, None), Then(Alt(UNITS), End)))))),
            None)
  }

  datatype Equivalence = Equivalence(key: string, forms: seq<string>)

  const EQUIVALENTS: seq<Equivalence> := [
    Equivalence("반기", ["6개월", "반년"]),
    Equivalence("6개월", ["반기", "반년"]),
    Equivalence("분기", ["3개월"]),
    Equivalence("3개월", ["분기"]),
    Equivalence("연", ["1년", "12개월"]),
    Equivalence("1년", ["연", "12개월"]),
    Equivalence("12개월", ["연", "1년"]),
    Equivalence("월", ["30일"]),
    Equivalence("30일", ["월"])
  ]

  lemma NumericNonEmpty()
    ensures MinLength(NumericPattern().items) > 0
  {
  }

  /** Commas and spaces removed. */
  function Normalize(text: string): string { Remove(Remove(text, ','), ' ') }

  /** The number expressions of a text, left to right. */
  function ExtractNumbers(u: Alphabet, text: string): seq<string> {
    NumericNonEmpty();
    FindIterSpec(u, NumericPattern(), text);
    Pieces(text, FindIter(u, NumericPattern(), text))
  }

  function Pieces(text: string, ms: seq<Match>): (r: seq<string>)
    requires forall i :: 0 <= i < |ms| ==> ms[i].start <= ms[i].end <= |text|
    ensures |r| == |ms| && forall i :: 0 <= i < |ms| ==> r[i] == text[ms[i].start..ms[i].end]
  {
    if ms == [] then [] else [text[ms[0].start..ms[0].end]] + Pieces(text, ms[1..])
  }

  /** Some listed form occurs in the context, raw or normalized. */
  predicate FormOccurs(forms: seq<string>, raw: string) {
    exists f | f in forms :: Occurs(f, raw) || Occurs(f, Normalize(raw))
  }

  predicate EquivalentOccurs(expr: string, raw: string) {
    exists e | e in EQUIVALENTS :: Occurs(e.key, expr) && FormOccurs(e.forms, raw)
  }

  predicate IsGrounded(expr: string, raw: string) {
    || Occurs(Normalize(expr), Normalize(raw))
    || Occurs(expr, raw)
    || EquivalentOccurs(expr, raw)
  }

  datatype Verification = Verification(passed: bool, ungrounded: seq<string>, total: nat)

  function Ungrounded(exprs: seq<string>, raw: string): seq<string> {
    if exprs == [] then []
    else (if IsGrounded(exprs[0], raw) then [] else [exprs[0]]) + Ungrounded(exprs[1..], raw)
  }

  function Verified(u: Alphabet, answer: string, texts: seq<string>): Verification {
    var exprs := ExtractNumbers(u, answer);
    var ungrounded := Ungrounded(exprs, Join(texts, " "));
    Verification(ungrounded == [], ungrounded, |exprs|)
  }

  method Verify(u: Alphabet, answer: string, texts: seq<string>) returns (v: Verification)
    ensures v == Verified(u, answer, texts)
  {
    hide ExtractNumbers, IsGrounded, Join;
    var exprs := ExtractNumbers(u, answer);
    if exprs == [] { return Verification(true, [], 0); }
    var joined := Join(texts, " ");
    var ungrounded: seq<string> := [];
    for i := 0 to |exprs|
      invariant ungrounded + Ungrounded(exprs[i..], joined) == Ungrounded(exprs, joined)
    {
      assert exprs[i..][0] == exprs[i] && exprs[i..][1..] == exprs[i + 1..];
      if !IsGrounded(exprs[i], joined) {
        Assoc(ungrounded, [exprs[i]], Ungrounded(exprs[i + 1..], joined));
        ungrounded := ungrounded + [exprs[i]];
      } else {
        Unit(Ungrounded(exprs[i + 1..], joined));
      }
    }
    Unit(ungrounded);
    v := Verification(|ungrounded| == 0, ungrounded, |exprs|);
  }

  // ---------------------------------------------------------------- more context never hurts

  lemma NormalizeConcat(a: string, b: string)
    ensures Normalize(a + b) == Normalize(a) + Normalize(b)
  {
    RemoveConcat(a, b, ',');
    RemoveConcat(Remove(a, ','), Remove(b, ','), ' ');
  }

  /** A grounded number stays grounded in any text around the context. */
  lemma GroundedInside(expr: string, pre: string, raw: string, post: string)
    requires IsGrounded(expr, raw)
    ensures IsGrounded(expr, pre + raw + post)
  {
    NormalizeConcat(pre + raw, post);
    NormalizeConcat(pre, raw);
    hide Occurs, Normalize;
    if Occurs(Normalize(expr), Normalize(raw)) {
      OccursInside(Normalize(expr), Normalize(pre), Normalize(raw), Normalize(post));
    } else if Occurs(expr, raw) {
      OccursInside(expr, pre, raw, post);
    } else {
      var e :| e in EQUIVALENTS && Occurs(e.key, expr) && FormOccurs(e.forms, raw);
      var f :| f in e.forms && (Occurs(f, raw) || Occurs(f, Normalize(raw)));
      if Occurs(f, raw) { OccursInside(f, pre, raw, post); }
      else { OccursInside(f, Normalize(pre), Normalize(raw), Normalize(post)); }
      assert FormOccurs(e.forms, pre + raw + post);
    }
  }

  /** The joined context of some texts is a piece of the joined context of those texts with others around them. */
  lemma JoinAround(pre: seq<string>, texts: seq<string>, post: seq<string>) returns (before: string, after: string)
    ensures Join(pre + texts + post, " ") == before + Join(texts, " ") + after
  {
    var raw := Join(texts, " ");
    if texts == [] {
      before, after := "", Join(pre + texts + post, " ");
      Unit(after);
    } else {
      after := "";
      if post != [] {
        JoinConcat(texts, post, " ");
        after := " " + Join(post, " ");
        Assoc(raw, " ", Join(post, " "));
      } else {
        Unit(texts);
        Unit(raw);
      }
      assert Join(texts + post, " ") == raw + after;
      Assoc(pre, texts, post);
      if pre != [] {
        JoinConcat(pre, texts + post, " ");
        before := Join(pre, " ") + " ";
        Assoc(before, raw, after);
      } else {
        before := "";
        Unit(texts + post);
        Unit(raw);
      }
    }
  }

  lemma {:induction false} UngroundedShrinks(exprs: seq<string>, raw: string, more: string)
    requires forall x :: x in exprs && IsGrounded(x, raw) ==> IsGrounded(x, more)
    ensures Ungrounded(exprs, more) == Ungrounded(Ungrounded(exprs, raw), more)
    decreases |exprs|
  {
    hide IsGrounded;
    if exprs != [] {
      assert exprs[0] in exprs && forall x :: x in exprs[1..] ==> x in exprs;
      UngroundedShrinks(exprs[1..], raw, more);
      var rest := Ungrounded(exprs[1..], raw);
      if IsGrounded(exprs[0], raw) {
        Unit(rest);
        Unit(Ungrounded(exprs[1..], more));
      } else {
        ConcatTail([exprs[0]], rest);
      }
    }
  }

  /**
   Adding context texts before or after never makes a grounded number ungrounded: what is still
   missing with the larger context is what it misses among the numbers missing before.
   */
  lemma GroundingIsMonotone(u: Alphabet, answer: string, pre: seq<string>, texts: seq<string>, post: seq<string>)
    ensures var few, many := Verified(u, answer, texts), Verified(u, answer, pre + texts + post);
            && many.ungrounded == Ungrounded(few.ungrounded, Join(pre + texts + post, " "))
            && (few.passed ==> many.passed)
  {
    hide ExtractNumbers, IsGrounded, Join;
    var before, after := JoinAround(pre, texts, post);
    var exprs, raw := ExtractNumbers(u, answer), Join(texts, " ");
    forall x | x in exprs && IsGrounded(x, raw) ensures IsGrounded(x, before + raw + after) {
      GroundedInside(x, before, raw, after);
    }
    UngroundedShrinks(exprs, raw, before + raw + after);
  }

  // ---------------------------------------------------------------- extraction passes

  lemma OccursTransitive(a: string, b: string, c: string)
    requires Occurs(a, b) && Occurs(b, c)
    ensures Occurs(a, c)
  {
    var i: nat :| i <= |c| && OccursAt(b, c, i);
    assert c == c[..i] + b + c[i + |b|..];
    OccursInside(a, c[..i], b, c[i + |b|..]);
  }

  lemma {:induction false} AllGrounded(exprs: seq<string>, raw: string)
    requires forall x :: x in exprs ==> Occurs(x, raw)
    ensures Ungrounded(exprs, raw) == []
    decreases |exprs|
  {
    hide Occurs;
    if exprs != [] {
      assert exprs[0] in exprs && forall x :: x in exprs[1..] ==> x in exprs;
      AllGrounded(exprs[1..], raw);
    }
  }

  lemma ExtractedOccur(u: Alphabet, text: string)
    ensures forall x :: x in ExtractNumbers(u, text) ==> Occurs(x, text)
  {
    hide FindIter, NumericPattern, Fits, Blocked, Matchable, Covered;
    NumericNonEmpty();
    FindIterSpec(u, NumericPattern(), text);
    var ms := FindIter(u, NumericPattern(), text);
    assert ExtractNumbers(u, text) == Pieces(text, ms);
    PiecesOccur(text, ms);
  }

  lemma PiecesOccur(text: string, ms: seq<Match>)
    requires forall i :: 0 <= i < |ms| ==> ms[i].start <= ms[i].end <= |text|
    ensures forall x :: x in Pieces(text, ms) ==> Occurs(x, text)
  {
    hide Pieces;
    forall x | x in Pieces(text, ms) ensures Occurs(x, text) {
      var i :| 0 <= i < |ms| && Pieces(text, ms)[i] == x;
      assert OccursAt(x, text, ms[i].start);
    }
  }

  /** An answer that is a contiguous piece of one of the context texts always passes. */
  lemma ExtractPasses(u: Alphabet, answer: string, texts: seq<string>, t: nat)
    requires t < |texts| && Occurs(answer, texts[t])
    ensures Verified(u, answer, texts).passed
  {
    hide ExtractNumbers, Occurs, IsGrounded, Join;
    var exprs, raw := ExtractNumbers(u, answer), Join(texts, " ");
    var before, after := JoinAround(texts[..t], [texts[t]], texts[t + 1..]);
    assert texts[..t] + [texts[t]] + texts[t + 1..] == texts;
    JoinOne(texts[t]);
    OccursInside(answer, before, texts[t], after);
    ExtractedOccur(u, answer);
    forall x | x in exprs ensures Occurs(x, raw) { OccursTransitive(x, answer, raw); }
    AllGrounded(exprs, raw);
  }

  lemma JoinOne(text: string)
    ensures Join([text], " ") == text
  {
  }

  // ---------------------------------------------------------------- what joining the texts adds

  /** All that a context text contributes: the normalized texts, end to end. */
  function Normals(texts: seq<string>): string {
    if texts == [] then "" else Normalize(texts[0]) + Normals(texts[1..])
  }

  lemma NormalizeSpace()
    ensures Normalize(" ") == ""
  {
    assert Remove(" ", ',') == " " && Remove(" ", ' ') == "";
  }

  lemma {:induction false} JoinNormals(texts: seq<string>)
    ensures Normalize(Join(texts, " ")) == Normals(texts)
  {
    if |texts| > 1 {
      hide Normalize;
      NormalizeSpace();
      JoinNormals(texts[1..]);
      NormalizeConcat(texts[0] + " ", Join(texts[1..], " "));
      NormalizeConcat(texts[0], " ");
      Unit(Normalize(texts[0]));
    } else if |texts| == 1 {
      Unit(Normalize(texts[0]));
    }
  }

  lemma {:induction false} NormalsConcat(a: seq<string>, b: seq<string>)
    ensures Normals(a + b) == Normals(a) + Normals(b)
  {
    if a == [] {
      Unit(b);
      Unit(Normals(b));
    } else {
      ConcatTail(a, b);
      NormalsConcat(a[1..], b);
      Assoc(Normalize(a[0]), Normals(a[1..]), Normals(b));
    }
  }

  /** The first `k` characters of `n` end `a` and the others begin `b`. */
  predicate CutAcross(n: string, a: string, b: string, k: nat) {
    0 < k < |n| && k <= |a| && a[|a| - k..] == n[..k] && n[k..] <= b
  }

  /** A proper cut of `n` ends `a` and begins `b`. */
  ghost predicate Straddles(n: string, a: string, b: string) {
    exists k: nat :: CutAcross(n, a, b, k)
  }

  lemma SliceAcross(a: string, b: string, i: nat, j: nat)
    requires i <= |a| <= j <= |a| + |b|
    ensures (a + b)[i..j] == a[i..] + b[..j - |a|]
  {
  }

  lemma StraddlesOccurs(n: string, a: string, b: string)
    requires Straddles(n, a, b)
    ensures Occurs(n, a + b)
  {
    var k: nat :| CutAcross(n, a, b, k);
    var i := |a| - k;
    SliceAcross(a, b, i, i + |n|);
    CutAt(n, k);
    assert b[..|n| - k] == n[k..];
    assert OccursAt(n, a + b, i);
  }

  lemma OccursInFront(n: string, a: string, b: string, i: nat)
    requires OccursAt(n, a + b, i) && i + |n| <= |a|
    ensures Occurs(n, a)
  {
    assert a[i..i + |n|] == (a + b)[i..i + |n|];
    assert OccursAt(n, a, i);
  }

  lemma OccursBehind(n: string, a: string, b: string, i: nat)
    requires OccursAt(n, a + b, i) && i >= |a|
    ensures Occurs(n, b)
  {
    assert b[i - |a|..i - |a| + |n|] == (a + b)[i..i + |n|];
    assert OccursAt(n, b, i - |a|);
  }

  lemma OccursAcross(n: string, a: string, b: string, i: nat)
    requires OccursAt(n, a + b, i) && i < |a| < i + |n|
    ensures Straddles(n, a, b)
  {
    var k := |a| - i;
    SliceAcross(a, b, i, i + |n|);
    CutConcat(a[i..], b[..|n| - k]);
    assert CutAcross(n, a, b, k);
  }

  lemma OccursInConcat(n: string, a: string, b: string)
    ensures Occurs(n, a + b) <==> Occurs(n, a) || Occurs(n, b) || Straddles(n, a, b)
  {
    hide OccursAt, Straddles;
    if Occurs(n, a) { OccursInside(n, "", a, b); Unit(a); }
    if Occurs(n, b) { OccursInside(n, a, b, ""); Unit(a + b); }
    if Straddles(n, a, b) { StraddlesOccurs(n, a, b); }
    if i: nat :| i <= |a + b| && OccursAt(n, a + b, i) {
      if i + |n| <= |a| { OccursInFront(n, a, b, i); }
      else if i >= |a| { OccursBehind(n, a, b, i); }
      else { OccursAcross(n, a, b, i); }
    }
  }

  /** `n` runs over the boundary in front of text `t`. */
  ghost predicate StraddlesAt(n: string, texts: seq<string>, t: nat) {
    0 < t < |texts| && Straddles(n, Normals(texts[..t]), Normals(texts[t..]))
  }

  ghost predicate StraddlesSome(n: string, texts: seq<string>) {
    exists t: nat :: StraddlesAt(n, texts, t)
  }

  ghost predicate InOne(n: string, texts: seq<string>) {
    exists t: nat :: t < |texts| && Occurs(n, Normalize(texts[t]))
  }

  lemma InOneCons(n: string, head: string, tail: seq<string>)
    ensures InOne(n, [head] + tail) <==> Occurs(n, Normalize(head)) || InOne(n, tail)
  {
    hide Occurs, Normalize;
    var all := [head] + tail;
    if t: nat :| t < |all| && Occurs(n, Normalize(all[t])) {
      if t > 0 { assert Occurs(n, Normalize(tail[t - 1])); }
    }
    if Occurs(n, Normalize(head)) { assert Occurs(n, Normalize(all[0])); }
    if t: nat :| t < |tail| && Occurs(n, Normalize(tail[t])) { assert Occurs(n, Normalize(all[t + 1])); }
  }

  lemma LongerFront(n: string, front: string, a: string, b: string)
    requires Straddles(n, a, b)
    ensures Straddles(n, front + a, b)
  {
    var k: nat :| CutAcross(n, a, b, k);
    assert (front + a)[|front + a| - k..] == a[|a| - k..];
    assert CutAcross(n, front + a, b, k);
  }

  lemma LaterBoundary(n: string, head: string, tail: seq<string>, t: nat)
    requires StraddlesAt(n, tail, t)
    ensures StraddlesAt(n, [head] + tail, t + 1)
  {
    hide Straddles;
    var all := [head] + tail;
    assert all[..t + 1] == [head] + tail[..t] && all[t + 1..] == tail[t..];
    assert ([head] + tail[..t])[1..] == tail[..t];
    LongerFront(n, Normalize(head), Normals(tail[..t]), Normals(tail[t..]));
  }

  lemma FirstBoundary(n: string, head: string, tail: seq<string>)
    requires tail != [] && Straddles(n, Normalize(head), Normals(tail))
    ensures StraddlesAt(n, [head] + tail, 1)
  {
    hide Straddles, Normalize;
    var all := [head] + tail;
    assert all[..1] == [head] && all[1..] == tail;
    assert Normals([head]) == Normalize(head) + Normals([head][1..]);
    Unit(Normalize(head));
  }

  /** What the joined context contains: what one text contains, and what runs over a boundary. */
  lemma {:induction false} OccursInNormals(n: string, texts: seq<string>)
    ensures Occurs(n, Normals(texts)) <==> n == "" || InOne(n, texts) || StraddlesSome(n, texts)
    decreases |texts|
  {
    hide Occurs, Straddles, Normalize;
    if n == "" {
      EmptyOccurs(Normals(texts));
    } else if texts == [] {
      TooLongToOccur(n, "");
    } else {
      var head, tail := texts[0], texts[1..];
      HeadTail(texts);
      OccursInConcat(n, Normalize(head), Normals(tail));
      OccursInNormals(n, tail);
      InOneCons(n, head, tail);
      if Straddles(n, Normalize(head), Normals(tail)) {
        StraddleTail(n, Normalize(head), Normals(tail));
        if tail != [] { FirstBoundary(n, head, tail); }
      }
      if t: nat :| StraddlesAt(n, tail, t) { LaterBoundary(n, head, tail, t); }
      if t: nat :| StraddlesAt(n, texts, t) { BoundaryOccurs(n, texts, t); }
    }
  }

  lemma BoundaryOccurs(n: string, texts: seq<string>, t: nat)
    requires StraddlesAt(n, texts, t)
    ensures Occurs(n, Normals(texts))
  {
    StraddlesOccurs(n, Normals(texts[..t]), Normals(texts[t..]));
    NormalsConcat(texts[..t], texts[t..]);
    CutAt(texts, t);
  }

  lemma StraddleTail(n: string, a: string, b: string)
    requires Straddles(n, a, b)
    ensures b != ""
  {
  }

  lemma EmptyOccurs(s: string)
    ensures Occurs("", s)
  {
    assert OccursAt("", s, 0);
  }

  /** The strings that ground `expr`: itself normalized, and the forms of the equivalents it contains. */
  ghost predicate Grounds(f: string, expr: string) {
    f == Normalize(expr) || exists e :: e in EQUIVALENTS && Occurs(e.key, expr) && f in e.forms
  }

  lemma FormsArePlain(e: Equivalence, f: string)
    requires e in EQUIVALENTS && f in e.forms
    ensures Normalize(f) == f && f != ""
  {
    assert ',' !in f && ' ' !in f;
    NormalizePlain(f);
  }

  lemma OccursNormalized(part: string, raw: string)
    requires Occurs(part, raw)
    ensures Occurs(Normalize(part), Normalize(raw))
  {
    var i: nat :| i <= |raw| && OccursAt(part, raw, i);
    var pre, post := raw[..i], raw[i + |part|..];
    assert raw == pre + part + post;
    NormalizeConcat(pre + part, post);
    NormalizeConcat(pre, part);
    hide Normalize, Occurs;
    OccursSelf(Normalize(part));
    OccursInside(Normalize(part), Normalize(pre), Normalize(part), Normalize(post));
  }

  /** The tests on the raw text never change the verdict: a number is grounded by a form in the normalized text. */
  lemma GroundedByForm(expr: string, raw: string)
    ensures IsGrounded(expr, raw) <==> exists f :: Grounds(f, expr) && Occurs(f, Normalize(raw))
  {
    hide Occurs, Normalize;
    if Occurs(expr, raw) { OccursNormalized(expr, raw); }
    assert Grounds(Normalize(expr), expr);
    if e :| e in EQUIVALENTS && Occurs(e.key, expr) && FormOccurs(e.forms, raw) {
      var f :| f in e.forms && (Occurs(f, raw) || Occurs(f, Normalize(raw)));
      FormsArePlain(e, f);
      if Occurs(f, raw) { OccursNormalized(f, raw); }
      assert Grounds(f, expr) && Occurs(f, Normalize(raw));
    }
    if f :| Grounds(f, expr) && Occurs(f, Normalize(raw)) {
      if f != Normalize(expr) {
        var e :| e in EQUIVALENTS && Occurs(e.key, expr) && f in e.forms;
        assert FormOccurs(e.forms, raw);
      }
    }
  }

  /**
   What joining the texts adds: a number is grounded exactly when one of the texts grounds it, or the
   number or an equivalent form runs over a boundary between texts, because normalization removes
   the joining space. (An expression of commas and spaces alone is always grounded.)
   */
  lemma GroundedAcrossTexts(expr: string, texts: seq<string>)
    ensures IsGrounded(expr, Join(texts, " ")) <==>
              || Normalize(expr) == ""
              || (exists t: nat :: t < |texts| && IsGrounded(expr, texts[t]))
              || (exists f :: Grounds(f, expr) && StraddlesSome(f, texts))
  {
    hide Occurs, Normalize, IsGrounded, Grounds, StraddlesSome, Join, Normals;
    GroundedByForm(expr, Join(texts, " "));
    JoinNormals(texts);
    GroundsItself(expr);
    if f :| Grounds(f, expr) && Occurs(f, Normals(texts)) {
      OccursInNormals(f, texts);
      if f == "" { GroundsNonEmpty(f, expr); }
      if t: nat :| t < |texts| && Occurs(f, Normalize(texts[t])) { GroundedByForm(expr, texts[t]); }
    }
    if Normalize(expr) == "" { EmptyOccurs(Normals(texts)); }
    if t: nat :| t < |texts| && IsGrounded(expr, texts[t]) {
      GroundedByForm(expr, texts[t]);
      var f :| Grounds(f, expr) && Occurs(f, Normalize(texts[t]));
      OccursInNormals(f, texts);
    }
    if f :| Grounds(f, expr) && StraddlesSome(f, texts) { OccursInNormals(f, texts); }
  }

  lemma GroundsItself(expr: string)
    ensures Grounds(Normalize(expr), expr)
  {
  }

  lemma GroundsNonEmpty(f: string, expr: string)
    requires Grounds(f, expr) && f == ""
    ensures Normalize(expr) == ""
  {
    hide Normalize, Occurs;
    if f != Normalize(expr) {
      var e :| e in EQUIVALENTS && Occurs(e.key, expr) && f in e.forms;
      FormsArePlain(e, f);
    }
  }

  lemma OccursSelf(s: string)
    ensures Occurs(s, s)
  {
    assert OccursAt(s, s, 0);
  }

  lemma TooLongToOccur(part: string, whole: string)
    requires |part| > |whole|
    ensures !Occurs(part, whole)
  {
  }

  lemma NormalizePlain(s: string)
    requires ',' !in s && ' ' !in s
    ensures Normalize(s) == s
  {
    RemoveAbsent(s, ',');
    RemoveAbsent(s, ' ');
  }

  // ---------------------------------------------------------------- a number split over two texts

  /** The options of the last item, when it is an alternative. */
  function LastOptions(items: Items): seq<string> {
    match items
    case End => []
    case Then(Alt(options), End) => options
    case Then(_, rest) => LastOptions(rest)
  }

  /** A match ends in one of the options of its last item. */
  lemma {:induction false} EndsInOption(u: Alphabet, text: string, pos: nat, items: Items, ahead: Option<Class>,
                                        lens: seq<nat>)
    requires pos <= |text| && Fits(u, text, pos, items, ahead, lens) && LastOptions(items) != []
    ensures pos + Total(lens) <= |text|
    ensures exists w :: w in LastOptions(items) && |w| <= Total(lens)
                        && text[pos + Total(lens) - |w|..pos + Total(lens)] == w
    decreases items
  {
    if items.rest == End {
      assert lens[1..] == [];
      assert text[pos..pos + lens[0]] in LastOptions(items);
    } else {
      EndsInOption(u, text, pos + lens[0], items.rest, ahead, lens[1..]);
    }
  }

  lemma UnitsComeLast()
    ensures LastOptions(NumericPattern().items) == UNITS && UNITS != []
  {
  }

  /** An extracted number ends in a unit. */
  lemma EndsInUnit(u: Alphabet, text: string, m: Match)
    requires IsMatch(u, NumericPattern(), text, m)
    ensures m.end <= |text|
    ensures exists w :: w in UNITS && |w| <= m.end - m.start && text[m.end - |w|..m.end] == w
  {
    hide *;
    UnitsComeLast();
    MatchFacts(u, NumericPattern(), text, m);
    EndsInOption(u, text, m.start, NumericPattern().items, NumericPattern().ahead, m.lens);
  }

  const SPLIT := "10명"

  /** The pattern after the prefix, the spaces and the first digits. */
  const REST: Items := Then(Rep(Or(Digit, Or(Char(','), Char('.'))), 0, None),
                         Then(Rep(Space, 0, None), Then(Alt(UNITS), End)))

  lemma UnitFits(u: Alphabet)
    ensures Fits(u, SPLIT, 2, REST, None, [0, 0, 1])
  {
    var i5 := Then(Alt(UNITS), End);
    var i4 := Then(Rep(Space, 0, None), i5);
    assert SPLIT[2..3] == "명" && "명" in UNITS && [1][1..] == [];
    assert Fits(u, SPLIT, 3, End, None, []);
    assert Fits(u, SPLIT, 2, i5, None, [1]);
    assert Fits(u, SPLIT, 2, i4, None, [0, 1]) by { assert [0, 1][1..] == [1]; }
    assert [0, 0, 1][1..] == [0, 1];
  }

  lemma SplitFits(u: Alphabet)
    requires Sane(u)
    ensures Matchable(u, NumericPattern(), SPLIT, 0)
  {
    var i2 := Then(Rep(Digit, 1, None), REST);
    var i1 := Then(Rep(Space, 0, None), i2);
    assert NumericPattern().items == Then(Alt(PREFIXES), i1);
    UnitFits(u);
    assert Fits(u, SPLIT, 0, i2, None, [2, 0, 0, 1]) by { assert [2, 0, 0, 1][1..] == [0, 0, 1]; }
    assert Fits(u, SPLIT, 0, i1, None, [0, 2, 0, 0, 1]) by { assert [0, 2, 0, 0, 1][1..] == [2, 0, 0, 1]; }
    assert "" in PREFIXES && SPLIT[0..0] == "";
    assert Fits(u, SPLIT, 0, NumericPattern().items, None, [0, 0, 2, 0, 0, 1]) by {
      assert [0, 0, 2, 0, 0, 1][1..] == [0, 2, 0, 0, 1];
    }
  }

  lemma UnitsEndPlain(w: string)
    requires w in UNITS
    ensures w != "" && w[|w| - 1] != '1' && w[|w| - 1] != '0'
  {
  }

  lemma OnlyMatch(ms: seq<Match>)
    requires forall i :: 0 <= i < |ms| ==> ms[i].start < ms[i].end == 3
    requires forall i, j :: 0 <= i < j < |ms| ==> ms[i].end <= ms[j].start
    requires Covered(ms, 0)
    ensures |ms| == 1 && ms[0].start == 0 && ms[0].end == 3
  {
    if |ms| > 1 { FirstTwo(ms); }
  }

  lemma FirstTwo(ms: seq<Match>)
    requires |ms| > 1 && forall i, j :: 0 <= i < j < |ms| ==> ms[i].end <= ms[j].start
    ensures ms[0].end <= ms[1].start
  {
  }

  /** The whole of the text is its one number. */
  lemma SplitExtracted(u: Alphabet)
    requires Sane(u)
    ensures ExtractNumbers(u, SPLIT) == [SPLIT]
  {
    NumericNonEmpty();
    FindIterSpec(u, NumericPattern(), SPLIT);
    SplitMatches(u);
    hide FindIter, NumericPattern, Fits, Matchable, Covered, IsMatch;
    OnePiece(SPLIT, FindIter(u, NumericPattern(), SPLIT));
  }

  lemma OnePiece(text: string, ms: seq<Match>)
    requires |ms| == 1 && ms[0].start == 0 && ms[0].end == |text|
    ensures Pieces(text, ms) == [text]
  {
    assert text[0..|text|] == text && ms[1..] == [];
  }

  lemma SplitMatches(u: Alphabet)
    requires Sane(u)
    ensures MinLength(NumericPattern().items) > 0
    ensures var ms := FindIter(u, NumericPattern(), SPLIT); |ms| == 1 && ms[0].start == 0 && ms[0].end == 3
  {
    hide *;
    NumericNonEmpty();
    FindIterSpec(u, NumericPattern(), SPLIT);
    SplitFits(u);
    var ms := FindIter(u, NumericPattern(), SPLIT);
    SplitLength();
    forall i | 0 <= i < |ms| ensures ms[i].start < ms[i].end == 3 {
      SplitEnd(u, ms[i]);
      MatchFacts(u, NumericPattern(), SPLIT, ms[i]);
    }
    OnlyMatch(ms);
  }

  lemma SplitLength()
    ensures |SPLIT| == 3
  {
  }

  lemma SplitEnd(u: Alphabet, m: Match)
    requires IsMatch(u, NumericPattern(), SPLIT, m)
    ensures m.end == 3
  {
    EndsInUnit(u, SPLIT, m);
    hide Fits, NumericPattern;
    var w :| w in UNITS && |w| <= m.end && SPLIT[m.end - |w|..m.end] == w;
    UnitsEndPlain(w);
    assert w[|w| - 1] == SPLIT[m.end - 1];
  }

  lemma OccursMember(part: string, whole: string, c: char)
    requires Occurs(part, whole) && c in part
    ensures c in whole
  {
    var i: nat :| i <= |whole| && OccursAt(part, whole, i);
    assert c in whole[i..i + |part|];
  }

  lemma MissingCharacter(part: string, whole: string, c: char)
    requires c in part && c !in whole
    ensures !Occurs(part, whole)
  {
    hide Occurs;
    if Occurs(part, whole) { OccursMember(part, whole, c); }
  }

  lemma KeysAreListed()
    ensures forall e :: e in EQUIVALENTS ==>
      e.key in {"반기", "6개월", "분기", "3개월", "연", "1년", "12개월", "월", "30일"}
  {
    var n := |EQUIVALENTS|;
    forall e | e in EQUIVALENTS
      ensures e.key in {"반기", "6개월", "분기", "3개월", "연", "1년", "12개월", "월", "30일"}
    {
      var i :| 0 <= i < n && EQUIVALENTS[i] == e;
    }
  }

  lemma NoEquivalentOfSplit(raw: string)
    ensures !EquivalentOccurs(SPLIT, raw)
  {
    MissingCharacter("반기", SPLIT, '반');
    MissingCharacter("6개월", SPLIT, '6');
    MissingCharacter("분기", SPLIT, '분');
    MissingCharacter("3개월", SPLIT, '3');
    MissingCharacter("연", SPLIT, '연');
    MissingCharacter("1년", SPLIT, '년');
    MissingCharacter("12개월", SPLIT, '2');
    MissingCharacter("월", SPLIT, '월');
    MissingCharacter("30일", SPLIT, '3');
    hide Occurs, FormOccurs;
    KeysAreListed();
  }

  lemma SplitUngrounded(part: string)
    requires |part| < 3 && ',' !in part && ' ' !in part
    ensures !IsGrounded(SPLIT, part)
  {
    NoEquivalentOfSplit(part);
    NormalizePlain(SPLIT);
    NormalizePlain(part);
    TooLongToOccur(SPLIT, part);
    hide EquivalentOccurs, Occurs, Normalize;
  }

  lemma PairGrounds(expr: string, a: string, b: string)
    requires Normalize(expr) == expr && Normalize(a) == a && Normalize(b) == b && Straddles(expr, a, b)
    ensures IsGrounded(expr, Join([a, b], " "))
  {
    GroundsItself(expr);
    assert [a] + [b] == [a, b] && [b][1..] == [];
    assert Normals([b]) == b + "";
    hide *;
    Unit(b);
    FirstBoundary(expr, a, [b]);
    GroundedAcrossTexts(expr, [a, b]);
    assert StraddlesSome(expr, [a, b]) by { BoundarySome(expr, [a, b], 1); }
  }

  lemma BoundarySome(n: string, texts: seq<string>, t: nat)
    requires StraddlesAt(n, texts, t)
    ensures StraddlesSome(n, texts)
  {
  }

  lemma VerdictOnOne(u: Alphabet, answer: string, texts: seq<string>, expr: string)
    requires ExtractNumbers(u, answer) == [expr]
    ensures Verified(u, answer, texts) ==
            if IsGrounded(expr, Join(texts, " ")) then Verification(true, [], 1) else Verification(false, [expr], 1)
  {
    hide IsGrounded, ExtractNumbers, Join;
    var raw := Join(texts, " ");
    assert Ungrounded([expr][1..], raw) == [];
    assert Ungrounded([expr], raw) == if IsGrounded(expr, raw) then [] else [expr];
  }

  lemma SplitStraddles()
    ensures Normalize(SPLIT) == SPLIT && Normalize("1") == "1" && Normalize("0명") == "0명"
    ensures Straddles(SPLIT, "1", "0명")
  {
    NormalizePlain(SPLIT);
    NormalizePlain("1");
    NormalizePlain("0명");
    assert CutAcross(SPLIT, "1", "0명", 1);
  }

  /** It happens: this answer passes on two texts, and on neither of them alone. */
  lemma SplitNumberPasses(u: Alphabet)
    requires Sane(u)
    ensures Verified(u, SPLIT, ["1", "0명"]) == Verification(true, [], 1)
    ensures Verified(u, SPLIT, ["1"]) == Verified(u, SPLIT, ["0명"]) == Verification(false, [SPLIT], 1)
  {
    SplitUngrounded("1");
    SplitUngrounded("0명");
    hide *;
    SplitExtracted(u);
    SplitStraddles();
    PairGrounds(SPLIT, "1", "0명");
    JoinOne("1");
    JoinOne("0명");
    VerdictOnOne(u, SPLIT, ["1", "0명"], SPLIT);
    VerdictOnOne(u, SPLIT, ["1"], SPLIT);
    VerdictOnOne(u, SPLIT, ["0명"], SPLIT);
  }
}
