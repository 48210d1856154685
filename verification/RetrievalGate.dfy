/** The score gate in front of answer generation (backend/app/services/guardrails/retrieval_gate.py). */
module RetrievalGate {
  import opened Prelude
  import opened Results

  datatype Gate = Gate(minTopScore: real, minDocCount: int, minDocScore: real, softMode: bool)

  datatype Reason = NoReason | NoDocuments | TopScoreTooLow | TooFewDocuments

  datatype Verdict = Verdict(passed: bool, softFail: bool, topScore: real, qualifying: nat, reason: Reason)

  /** `len([d for d in documents if d.score >= floor])`. */
  function Qualifying(docs: seq<SearchResult>, floor: real): (n: nat)
    ensures n <= |docs|
    ensures n > 0 <==> exists d :: d in docs && d.score >= floor
  {
    if docs == [] then 0
    else
      assert docs[0] in docs && forall d :: d in docs ==> d == docs[0] || d in docs[1..];
      (if docs[0].score >= floor then 1 else 0) + Qualifying(docs[1..], floor)
  }

  function Evaluate(g: Gate, docs: seq<SearchResult>): Verdict {
    if docs == [] then Verdict(false, false, 0.0, 0, NoDocuments)
    else
      var top, n := docs[0].score, Qualifying(docs, g.minDocScore);
      if top < g.minTopScore then Verdict(false, g.softMode, top, n, TopScoreTooLow)
      else if n < g.minDocCount then Verdict(false, g.softMode, top, n, TooFewDocuments)
      else Verdict(true, false, top, n, NoReason)
  }

  /** On a ranked list at least `c` documents qualify exactly when the one of rank `c` does. */
  lemma {:induction false} QualifyingByRank(docs: seq<SearchResult>, floor: real, c: nat)
    requires Ranked(docs) && c >= 1
    ensures Qualifying(docs, floor) >= c <==> c <= |docs| && docs[c - 1].score >= floor
  {
    if docs != [] {
      assert Ranked(docs[1..]) by { TailRanked(docs); }
      if docs[0].score >= floor {
        if c > 1 { QualifyingByRank(docs[1..], floor, c - 1); }
      } else {
        TopOfRanked(docs);
      }
    }
  }

  lemma TailRanked(docs: seq<SearchResult>)
    requires Ranked(docs) && docs != []
    ensures Ranked(docs[1..])
  {
    forall i, j | 0 <= i < j < |docs[1..]| ensures ByScore(docs[1..][i]) >= ByScore(docs[1..][j]) {
      assert ByScore(docs[i + 1]) >= ByScore(docs[j + 1]);
    }
  }

  lemma TopOfRanked(docs: seq<SearchResult>)
    requires Ranked(docs) && docs != []
    ensures forall i :: 0 <= i < |docs| ==> docs[i].score <= docs[0].score
    ensures forall d :: d in docs ==> d.score <= docs[0].score
  {
    forall i | 0 <= i < |docs| ensures docs[i].score <= docs[0].score {
      if i > 0 { assert ByScore(docs[0]) >= ByScore(docs[i]); }
    }
  }

  /** The gate on a ranked list reads two scores: the first, and the one of rank `minDocCount`. */
  lemma GateByRank(g: Gate, docs: seq<SearchResult>)
    requires Ranked(docs)
    ensures Evaluate(g, docs).passed <==>
              && docs != [] && docs[0].score >= g.minTopScore
              && (g.minDocCount <= 0 || (g.minDocCount <= |docs| && docs[g.minDocCount - 1].score >= g.minDocScore))
  {
    if g.minDocCount >= 1 { QualifyingByRank(docs, g.minDocScore, g.minDocCount); }
    hide Qualifying;
  }

  /**
   On a ranked list the first score is the greatest, so the gate passes exactly when some document
   is good enough and enough of them qualify.
   */
  lemma GateOnRanked(g: Gate, docs: seq<SearchResult>)
    requires Ranked(docs)
    ensures Evaluate(g, docs).passed <==>
              && (exists d :: d in docs && d.score >= g.minTopScore)
              && Qualifying(docs, g.minDocScore) >= g.minDocCount
    ensures docs != [] ==> forall d :: d in docs ==> d.score <= Evaluate(g, docs).topScore
  {
    forall d | d in docs ensures d.score <= docs[0].score {
      var i :| 0 <= i < |docs| && docs[i] == d;
      if i > 0 { assert ByScore(docs[0]) >= ByScore(docs[i]); }
    }
    if docs != [] { assert docs[0] in docs; }
  }

  // ---------------------------------------------------------------- the verdict on any list

  /** The places of the documents that reach `floor`. */
  ghost function Reaching(docs: seq<SearchResult>, floor: real): set<nat> {
    set i: nat | i < |docs| && docs[i].score >= floor
  }

  lemma {:induction false} QualifyingCounts(docs: seq<SearchResult>, floor: real)
    ensures Qualifying(docs, floor) == |Reaching(docs, floor)|
  {
    if docs == [] {
      assert Reaching(docs, floor) == {};
    } else {
      var n := |docs| - 1;
      QualifyingCounts(docs[..n], floor);
      QualifyingSnoc(docs[..n], docs[n], floor);
      ReachingSnoc(docs[..n], docs[n], floor);
      assert docs == docs[..n] + [docs[n]];
      hide Qualifying, Reaching;
    }
  }

  lemma ReachingSnoc(docs: seq<SearchResult>, d: SearchResult, floor: real)
    ensures |Reaching(docs + [d], floor)| == |Reaching(docs, floor)| + if d.score >= floor then 1 else 0
  {
    var n: nat := |docs|;
    assert Reaching(docs + [d], floor) == Reaching(docs, floor) + if d.score >= floor then {n} else {};
  }

  lemma {:induction false} QualifyingSnoc(docs: seq<SearchResult>, d: SearchResult, floor: real)
    ensures Qualifying(docs + [d], floor) == Qualifying(docs, floor) + if d.score >= floor then 1 else 0
  {
    if docs != [] {
      QualifyingSnoc(docs[1..], d, floor);
      assert (docs + [d])[1..] == docs[1..] + [d];
    }
  }

  /** Everything a verdict says, for a list in any order. */
  lemma VerdictMeaning(g: Gate, docs: seq<SearchResult>)
    ensures var v, n := Evaluate(g, docs), |Reaching(docs, g.minDocScore)|;
            && (v.passed <==> docs != [] && docs[0].score >= g.minTopScore && n >= g.minDocCount)
            && (v.softFail <==> docs != [] && !v.passed && g.softMode)
            && v.qualifying == n && v.topScore == (if docs == [] then 0.0 else docs[0].score)
            && (v.reason == NoDocuments <==> docs == [])
            && (v.reason == TopScoreTooLow <==> docs != [] && docs[0].score < g.minTopScore)
            && (v.reason == NoReason <==> v.passed)
  {
    QualifyingCounts(docs, g.minDocScore);
    hide Reaching;
  }
}
