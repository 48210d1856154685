/**
 What the score gate decides on the document flow: after a calibrated rerank, without reranking in
 hybrid and in cascading mode, and at the default settings.
 */
module GateOutcomes {
  import opened Prelude
  import opened StableSort
  import opened Results
  import opened Rrf
  import opened RetrievalGate
  import opened RagSettings
  import opened HybridSearch
  import DocumentScope
  import Reranking

  // ---------------------------------------------------------------- after a calibrated rerank

  /** How far down the blended score of rank `i` can go; the encoder never quite reaches it. */
  function RankFloor(alpha: real, i: nat): real { Scale(1.0 - alpha, Reranking.RankScore(i)) }

  lemma CombineAboveFloor(alpha: real, p: real, i: nat)
    requires 0.0 <= alpha <= 1.0 && 0.0 < p < 1.0
    ensures RankFloor(alpha, i) <= Reranking.Combine(alpha, p, i) <= RankFloor(alpha, i) + p
  {
    hide Reranking.RankScore;
    Shrink(p, alpha);
  }

  lemma FirstFloor(alpha: real)
    ensures RankFloor(alpha, 0) == 1.0 - alpha
  {
    Reranking.RankScores(0, 0);
    hide Reranking.RankScore;
  }

  /** What a calibrated rerank hands to the gate: ranked, cut to top_k, each score the blend of its rank. */
  lemma CalibratedSpec(sigmoid: real -> real, logits: seq<real>, docs: seq<SearchResult>, topK: int, alpha: real)
    requires |logits| == |docs| && topK >= 1 && Reranking.Squashes(sigmoid) && 0.0 <= alpha <= 1.0
    ensures var r := Reranking.Reranked(sigmoid, logits, docs, topK, Reranking.Calibrated, alpha);
            && |r| == Min(|docs|, topK) && Ranked(r)
            && forall i :: 0 <= i < |r| ==>
                 exists x :: x in logits && r[i].score == Reranking.Combine(alpha, sigmoid(x), i)
  {
    hide Reranking.Combine, SortDesc, Reranking.Zip, Reranking.Blend, Reranking.Rescore;
    var sorted := Reranking.ByLogit(logits, docs);
    SortDescSpec(Reranking.ByKey, Reranking.Zip(logits, docs));
    Reranking.BlendDescends(sigmoid, alpha, sorted);
    var blended := Reranking.Blend(sigmoid, alpha, sorted);
    SortedIsFixed(Reranking.ByKey, blended);
    RescoredRanked(blended, topK);
    var r := Reranking.Rescore(SliceTo(blended, topK));
    forall i | 0 <= i < |r|
      ensures exists x :: x in logits && r[i].score == Reranking.Combine(alpha, sigmoid(x), i)
    {
      KeyIsLogit(logits, docs, sorted[i]) by { assert sorted[i] in sorted; }
      assert r[i].score == Reranking.Combine(alpha, sigmoid(sorted[i].key), i);
    }
  }

  lemma KeyIsLogit(logits: seq<real>, docs: seq<SearchResult>, x: Reranking.Scored)
    requires |logits| == |docs| && x in Reranking.ByLogit(logits, docs)
    ensures x.key in logits
  {
    hide SortDesc;
    SortMember(Reranking.ByKey, Reranking.Zip(logits, docs), x);
    var i :| 0 <= i < |docs| && Reranking.Zip(logits, docs)[i] == x;
    assert logits[i] in logits;
  }

  lemma RescoredRanked(s: seq<Reranking.Scored>, n: int)
    requires SortedDesc(Reranking.ByKey, s)
    ensures Ranked(Reranking.Rescore(SliceTo(s, n)))
  {
    hide Reranking.Rescore;
    var r := Reranking.Rescore(SliceTo(s, n));
    forall i, j | 0 <= i < j < |r| ensures ByScore(r[i]) >= ByScore(r[j]) {
      assert Reranking.ByKey(s[i]) >= Reranking.ByKey(s[j]);
    }
  }

  /** The thresholds are in reach of every blended list of `n` documents. */
  predicate Lenient(g: Gate, alpha: real, n: int) {
    && g.minTopScore <= 1.0 - alpha
    && (g.minDocCount <= 0
        || (g.minDocCount <= n && g.minDocScore <= RankFloor(alpha, g.minDocCount - 1)))
  }

  lemma LenientPasses(g: Gate, sigmoid: real -> real, logits: seq<real>, docs: seq<SearchResult>, topK: int,
                      alpha: real)
    requires |logits| == |docs| && docs != [] && topK >= 1 && Reranking.Squashes(sigmoid) && 0.0 <= alpha <= 1.0
    requires Lenient(g, alpha, Min(|docs|, topK))
    ensures Evaluate(g, Reranking.Reranked(sigmoid, logits, docs, topK, Reranking.Calibrated, alpha)).passed
  {
    hide Reranking.Reranked, Reranking.Combine, RankFloor, Evaluate;
    var r := Reranking.Reranked(sigmoid, logits, docs, topK, Reranking.Calibrated, alpha);
    CalibratedSpec(sigmoid, logits, docs, topK, alpha);
    FirstFloor(alpha);
    GateByRank(g, r);
    forall i | 0 <= i < |r| ensures r[i].score >= RankFloor(alpha, i) {
      var x :| x in logits && r[i].score == Reranking.Combine(alpha, sigmoid(x), i);
      CombineAboveFloor(alpha, sigmoid(x), i);
    }
  }

  ghost predicate GoesBelow(sigmoid: real -> real, gap: real) {
    exists x :: sigmoid(x) < gap
  }

  /** The sigmoid comes as close to zero as one likes. */
  ghost predicate Vanishes(sigmoid: real -> real) {
    forall gap | gap > 0.0 :: GoesBelow(sigmoid, gap)
  }

  function Same(x: real, n: nat): (logits: seq<real>)
    ensures |logits| == n && forall y :: y in logits ==> y == x
  {
    seq(n, i => x)
  }

  /** A cross encoder that gives every document the logit `x`. */
  function Indifferent(x: real): seq<SearchResult> -> Option<seq<real>> {
    (docs: seq<SearchResult>) => Some(Same(x, |docs|))
  }

  /** A threshold above the floor of rank `i` is missed when all logits are low enough. */
  lemma ThresholdMissed(sigmoid: real -> real, docs: seq<SearchResult>, topK: int, alpha: real, i: nat, threshold: real)
    returns (x: real)
    requires topK >= 1 && 0.0 <= alpha <= 1.0 && Reranking.Squashes(sigmoid) && Vanishes(sigmoid)
    requires RankFloor(alpha, i) < threshold
    ensures var r := Reranking.Reranked(sigmoid, Same(x, |docs|), docs, topK, Reranking.Calibrated, alpha);
            |r| == Min(|docs|, topK) && Ranked(r) && (i < |r| ==> r[i].score < threshold)
  {
    hide Reranking.Reranked, Reranking.Combine, RankFloor, Same;
    var gap := threshold - RankFloor(alpha, i);
    assert GoesBelow(sigmoid, gap);
    x :| sigmoid(x) < gap;
    CalibratedSpec(sigmoid, Same(x, |docs|), docs, topK, alpha);
    CombineAboveFloor(alpha, sigmoid(x), i);
  }

  /** Outside those thresholds some encoder output makes the gate fail. */
  lemma StrictGateFails(g: Gate, sigmoid: real -> real, docs: seq<SearchResult>, topK: int, alpha: real)
    returns (x: real)
    requires docs != [] && topK >= 1 && 0.0 <= alpha <= 1.0 && Reranking.Squashes(sigmoid) && Vanishes(sigmoid)
    requires !Lenient(g, alpha, Min(|docs|, topK))
    ensures !Evaluate(g, Reranking.Reranked(sigmoid, Same(x, |docs|), docs, topK, Reranking.Calibrated, alpha)).passed
  {
    hide Reranking.Reranked, RankFloor, Evaluate, Same, Vanishes, Reranking.Squashes;
    FirstFloor(alpha);
    if g.minTopScore > 1.0 - alpha {
      x := ThresholdMissed(sigmoid, docs, topK, alpha, 0, g.minTopScore);
    } else {
      var i := g.minDocCount - 1;
      var threshold := if RankFloor(alpha, i) < g.minDocScore then g.minDocScore else RankFloor(alpha, i) + 1.0;
      x := ThresholdMissed(sigmoid, docs, topK, alpha, i, threshold);
    }
    GateByRank(g, Reranking.Reranked(sigmoid, Same(x, |docs|), docs, topK, Reranking.Calibrated, alpha));
  }

  /** The gate passes whatever the cross encoder answers. */
  ghost predicate DecidesNothing(s: Settings, sigmoid: real -> real, docs: seq<SearchResult>) {
    forall predict :: Scores(predict) && predict(Truncated(s, docs)).Some? ==>
                        Evaluate(s.gate, AfterRerank(s, sigmoid, predict, docs)).passed
  }

  /** The document list is the one that a calibrated rerank gets. */
  lemma Candidates(s: Settings, docs: seq<SearchResult>)
    requires docs != [] && s.rerankerTopK >= 1
    ensures Truncated(s, docs) != [] && Min(|Truncated(s, docs)|, s.rerankerTopK) == Min(|docs|, s.rerankerTopK)
  {
  }

  /** After a successful calibrated rerank a lenient gate passes. */
  lemma DefaultGateAlwaysPasses(s: Settings, sigmoid: real -> real, predict: seq<SearchResult> -> Option<seq<real>>,
                                docs: seq<SearchResult>)
    requires Scores(predict) && Reranking.Squashes(sigmoid)
    requires s.rerankingEnabled && s.scoreMode == Reranking.Calibrated && 0.0 <= s.alpha <= 1.0 && s.rerankerTopK >= 1
    requires docs != [] && predict(Truncated(s, docs)).Some?
    requires Lenient(s.gate, s.alpha, Min(|docs|, s.rerankerTopK))
    ensures Evaluate(s.gate, AfterRerank(s, sigmoid, predict, docs)).passed
  {
    Candidates(s, docs);
    hide Reranking.Reranked, Evaluate, Lenient, Truncated;
    var logits := predict(Truncated(s, docs)).value;
    LenientPasses(s.gate, sigmoid, logits, Truncated(s, docs), s.rerankerTopK, s.alpha);
  }

  /**
   When the gate decides something after a calibrated rerank of a non-empty list: it passes whatever
   the encoder answers if and only if the top threshold is at most 1 - alpha, and no document is asked
   for, or no more than are left, each with a threshold of at most (1 - alpha) / minDocCount.
   */
  lemma CalibratedGateIff(s: Settings, sigmoid: real -> real, docs: seq<SearchResult>)
    requires s.rerankingEnabled && s.scoreMode == Reranking.Calibrated && 0.0 <= s.alpha <= 1.0 && s.rerankerTopK >= 1
    requires Reranking.Squashes(sigmoid) && Vanishes(sigmoid) && docs != []
    ensures DecidesNothing(s, sigmoid, docs) <==> Lenient(s.gate, s.alpha, Min(|docs|, s.rerankerTopK))
  {
    Candidates(s, docs);
    hide Reranking.Reranked, Evaluate, Lenient, Truncated, Vanishes, Reranking.Squashes, Same;
    if Lenient(s.gate, s.alpha, Min(|docs|, s.rerankerTopK)) {
      forall predict | Scores(predict) && predict(Truncated(s, docs)).Some?
        ensures Evaluate(s.gate, AfterRerank(s, sigmoid, predict, docs)).passed
      {
        DefaultGateAlwaysPasses(s, sigmoid, predict, docs);
      }
    } else {
      var x := StrictGateFails(s.gate, sigmoid, Truncated(s, docs), s.rerankerTopK, s.alpha);
      assert Scores(Indifferent(x)) && Indifferent(x)(Truncated(s, docs)).Some?;
      assert !Evaluate(s.gate, AfterRerank(s, sigmoid, Indifferent(x), docs)).passed;
    }
  }

  // ---------------------------------------------------------------- hybrid mode without reranking

  /** Each list an engine returns holds a chunk once. */
  ghost predicate UniqueLists(e: Engines) {
    forall q :: DistinctChunks(e.vector(q)) && DistinctChunks(e.keyword(q))
  }

  ghost predicate AtMost(docs: seq<SearchResult>, bound: real) {
    forall d :: d in docs ==> d.score <= bound
  }

  /** The greatest score that fusion can give. */
  function FusionCeiling(f: Fusion): real
    requires f.k >= 0
  {
    (f.vectorWeight + f.keywordWeight) / (f.k + 1) as real
  }

  lemma FusedAtMost(f: Fusion, vector: seq<SearchResult>, keyword: seq<SearchResult>)
    requires f.k >= 0 && f.vectorWeight >= 0.0 && f.keywordWeight >= 0.0
    requires DistinctChunks(vector) && DistinctChunks(keyword)
    ensures AtMost(Fused(f, vector, keyword), FusionCeiling(f))
  {
    hide Fused, Ids;
    forall d | d in Fused(f, vector, keyword) ensures d.score <= FusionCeiling(f) {
      FusedScoreBound(f, vector, keyword, d);
    }
  }

  lemma DedupAtMost(docs: seq<SearchResult>, bound: real)
    requires AtMost(docs, bound)
    ensures AtMost(Deduped(docs), bound)
  {
    hide Deduped;
    DedupSpec(docs);
  }

  /** How many documents the scope keeps of `n`. */
  function ScopeCount(s: Settings, n: nat): nat {
    if s.scopeEnabled then KeepCount(n, s.scopeTopN) else n
  }

  lemma ScopeKeeps(s: Settings, docs: seq<SearchResult>)
    requires Ranked(docs)
    ensures forall d :: d in Scoped(s, docs) ==> d in docs
    ensures docs != [] && ScopeCount(s, |FirstSeen(DocumentScope.DocIds(docs))|) >= 1 ==>
              Scoped(s, docs) != [] && Scoped(s, docs)[0] == docs[0]
  {
    hide FirstSeen, DocumentScope.DocIds, DocumentScope.Selected, DocumentScope.KeepIn;
    if s.scopeEnabled && docs != [] {
      DocumentScope.SelectIsFirstDocuments(docs, s.scopeTopN);
      var order := FirstSeen(DocumentScope.DocIds(docs));
      var count := KeepCount(|order|, s.scopeTopN);
      DocumentScope.KeepRanked(docs, order[..count]);
      if count >= 1 {
        FirstDocumentFirst(docs);
        assert order[..count][0] == order[0];
        KeepsFirst(docs, order[..count]);
      }
    }
  }

  lemma {:induction false} FirstDocumentFirst(docs: seq<SearchResult>)
    requires docs != []
    ensures var order := FirstSeen(DocumentScope.DocIds(docs)); order != [] && order[0] == docs[0].documentId
    decreases |docs|
  {
    if |docs| > 1 { FirstDocumentFirst(docs[..|docs| - 1]); }
  }

  lemma {:induction false} KeepsFirst(docs: seq<SearchResult>, ids: seq<Id>)
    requires docs != [] && docs[0].documentId in ids
    ensures var kept := DocumentScope.KeepIn(docs, ids); kept != [] && kept[0] == docs[0]
    decreases |docs|
  {
    if |docs| > 1 { KeepsFirst(docs[..|docs| - 1], ids); }
  }

  /** The retrieved lists for the mode `hybrid`, and for the variants in every mode, are all fused. */
  lemma HybridAtMost(s: Settings, e: Engines, query: string, searchQuery: string, queries: seq<string>)
    requires Fusable(s, e) && UniqueLists(e) && s.mode == Hybrid
    requires s.fusion.k >= 0 && s.fusion.vectorWeight >= 0.0 && s.fusion.keywordWeight >= 0.0
    ensures AtMost(Retrieved(s, e, query, searchQuery, queries), FusionCeiling(s.fusion))
  {
    hide Fused, Retrieved;
    forall d | d in Retrieved(s, e, query, searchQuery, queries) ensures d.score <= FusionCeiling(s.fusion) {
      RetrievedMembers(s, e, query, searchQuery, queries, d);
      var q :| q in queries && d in SearchOne(s, e, query, searchQuery, q);
      FusedAtMost(s.fusion, e.vector(q), e.keyword(q));
      FusedAtMost(s.fusion, e.vector(searchQuery), e.keyword(query));
    }
  }

  /** No hybrid list can meet the thresholds, or the scope keeps no document at all. */
  ghost predicate OutOfReach(s: Settings)
    requires s.fusion.k >= 0
  {
    || s.gate.minTopScore > FusionCeiling(s.fusion)
    || (s.gate.minDocCount >= 1 && s.gate.minDocScore > FusionCeiling(s.fusion))
    || (s.scopeEnabled && s.scopeTopN == 0)
  }

  /**
   With reranking off the hybrid scores stay at or below (vector_weight + keyword_weight) / (k + 1),
   so a gate that asks for more than that never passes: at the shipped defaults 1/61 against 0.3.
   */
  lemma HybridWithoutRerankNeverPasses(s: Settings, e: Engines, sigmoid: real -> real,
                                       predict: seq<SearchResult> -> Option<seq<real>>,
                                       query: string, searchQuery: string, queries: seq<string>)
    requires Fusable(s, e) && UniqueLists(e) && Scores(predict) && s.mode == Hybrid && !s.rerankingEnabled
    requires s.fusion.k >= 0 && s.fusion.vectorWeight >= 0.0 && s.fusion.keywordWeight >= 0.0
    requires OutOfReach(s)
    ensures var docs := AtGate(s, sigmoid, predict, Retrieved(s, e, query, searchQuery, queries));
            AtMost(docs, FusionCeiling(s.fusion)) && !Evaluate(s.gate, docs).passed
  {
    hide Deduped, Scoped, Retrieved, Evaluate, FusionCeiling;
    var all := Retrieved(s, e, query, searchQuery, queries);
    HybridAtMost(s, e, query, searchQuery, queries);
    DedupAtMost(all, FusionCeiling(s.fusion));
    DedupRanked(all);
    ScopeKeeps(s, Deduped(all));
    if s.scopeEnabled && s.scopeTopN == 0 {
      ScopeEmpties(s, Deduped(all));
    } else {
      LowScoresFail(s.gate, Scoped(s, Deduped(all)), FusionCeiling(s.fusion));
    }
  }

  lemma ScopeEmpties(s: Settings, docs: seq<SearchResult>)
    requires Ranked(docs) && s.scopeEnabled && s.scopeTopN == 0
    ensures !Evaluate(s.gate, Scoped(s, docs)).passed
  {
    hide FirstSeen, DocumentScope.DocIds, DocumentScope.Selected, DocumentScope.KeepIn;
    if docs != [] {
      DocumentScope.SelectIsFirstDocuments(docs, 0);
      var order := FirstSeen(DocumentScope.DocIds(docs));
      DocumentScope.KeepRanked(docs, order[..0]);
      assert forall d :: d !in Scoped(s, docs);
    }
  }

  lemma LowScoresFail(g: Gate, docs: seq<SearchResult>, bound: real)
    requires AtMost(docs, bound)
    requires bound < g.minTopScore || (g.minDocCount >= 1 && bound < g.minDocScore)
    ensures !Evaluate(g, docs).passed
  {
    if docs != [] { assert docs[0] in docs; }
  }

  /** `n` documents of one chunk each. */
  function Ladder(n: nat): (docs: seq<SearchResult>)
    ensures |docs| == n && forall i :: 0 <= i < n ==> docs[i] == SearchResult(i, i, "", 0.0)
  {
    seq(n, i requires 0 <= i < n => SearchResult(i, i, "", 0.0))
  }

  /** Engines that agree on everything. */
  function Agreeing(n: nat): Engines {
    Engines((q: string) => Ladder(n), (q: string) => Ladder(n), (q: string) => q)
  }

  lemma AgreeingUnique(n: nat)
    ensures UniqueLists(Agreeing(n))
  {
    forall q: string
      ensures DistinctChunks(Agreeing(n).vector(q)) && DistinctChunks(Agreeing(n).keyword(q))
    {
      hide Ladder;
    }
  }

  /** The chunk both engines put first reaches the ceiling, and every document is there. */
  lemma LadderFused(f: Fusion, n: nat)
    requires f.k >= 0 && n >= 1
    ensures Score(f, Ids(Ladder(n)), Ids(Ladder(n)), 0) == FusionCeiling(f)
  {
    hide Ladder;
    var ids := Ids(Ladder(n));
    assert NoDuplicates(ids) && ids[0] == 0;
    ShareAtRank(ids, f.vectorWeight, f.k, 0, n);
    ShareAtRank(ids, f.keywordWeight, f.k, 0, n);
    QuotientAdds(f.vectorWeight, f.keywordWeight, (f.k + 1) as real);
  }

  lemma LadderMember(f: Fusion, n: nat, i: nat) returns (d: SearchResult)
    requires f.k >= 0 && i < n
    ensures d in Fused(f, Ladder(n), Ladder(n)) && d.chunkId == i && d.documentId == i
    ensures i == 0 ==> d.score == FusionCeiling(f)
  {
    hide Ladder, Fused, Ids;
    var r := Fused(f, Ladder(n), Ladder(n));
    FusedSpec(f, Ladder(n), Ladder(n));
    assert Ids(Ladder(n))[i] == i;
    assert i in Ids(r);
    var j := IdPosition(r, i);
    d := r[j];
    assert d in r;
    var p :| p in Ladder(n) + Ladder(n) && d == p.(score := d.score);
    LadderDocument(n, p);
    LadderFused(f, n);
  }

  lemma LadderDocument(n: nat, p: SearchResult)
    requires p in Ladder(n) + Ladder(n)
    ensures p.documentId == p.chunkId
  {
  }

  /** A list that contains the first `n` numbers has at least `n` elements. */
  lemma {:induction false} Pigeons(s: seq<Id>, n: nat)
    requires forall i: nat :: i < n ==> i in s
    ensures |s| >= n
    decreases n
  {
    if n > 0 {
      assert n - 1 in s;
      var j :| 0 <= j < |s| && s[j] == n - 1;
      var rest := s[..j] + s[j + 1..];
      forall i: nat | i < n - 1 ensures i in rest {
        assert i in s;
        var k :| 0 <= k < |s| && s[k] == i;
        assert k < j ==> rest[k] == i;
        assert k > j ==> rest[k - 1] == i;
      }
      Pigeons(rest, n - 1);
    }
  }

  /** How many documents it takes for the scope to keep one. */
  function EnoughFor(s: Settings): nat {
    if s.scopeEnabled && s.scopeTopN < 0 then 1 - s.scopeTopN else 1
  }

  lemma AgreeingSearch(s: Settings, n: nat, query: string, searchQuery: string, q: string)
    requires s.mode == Hybrid && Fusable(s, Agreeing(n))
    ensures Divides(s.fusion.k, |Ladder(n)|)
    ensures SearchOne(s, Agreeing(n), query, searchQuery, q) == Fused(s.fusion, Ladder(n), Ladder(n))
  {
    hide Fused, Ladder;
    assert Agreeing(n).vector(q) == Ladder(n) && Agreeing(n).keyword(q) == Ladder(n);
    assert Agreeing(n).vector(searchQuery) == Ladder(n) && Agreeing(n).keyword(query) == Ladder(n);
  }

  lemma AgreeingFusable(s: Settings, n: nat)
    requires s.fallback.k == s.fusion.k >= 0
    ensures Fusable(s, Agreeing(n))
  {
  }

  lemma AgreeingRetrieves(s: Settings, n: nat, query: string, searchQuery: string, queries: seq<string>,
                          d: SearchResult)
    requires s.mode == Hybrid && query in queries && Fusable(s, Agreeing(n)) && s.fusion.k >= 0
    ensures d in Retrieved(s, Agreeing(n), query, searchQuery, queries) <==> d in Fused(s.fusion, Ladder(n), Ladder(n))
  {
    hide Retrieved, SearchOne, Fusable, Fused, Ladder, Agreeing;
    RetrievedMembers(s, Agreeing(n), query, searchQuery, queries, d);
    AgreeingSearch(s, n, query, searchQuery, query);
    if q :| q in queries && d in SearchOne(s, Agreeing(n), query, searchQuery, q) {
      AgreeingSearch(s, n, query, searchQuery, q);
    }
  }

  lemma LadderDocuments(f: Fusion, n: nat, d: SearchResult)
    requires f.k >= 0 && d in Fused(f, Ladder(n), Ladder(n))
    ensures d.documentId == d.chunkId
  {
    hide Ladder, Fused, Ids;
    FusedSpec(f, Ladder(n), Ladder(n));
    var p :| p in Ladder(n) + Ladder(n) && d == p.(score := d.score);
    LadderDocument(n, p);
  }

  lemma DocumentListed(docs: seq<SearchResult>, d: SearchResult)
    requires d in docs
    ensures d.documentId in DocumentScope.DocIds(docs)
  {
    hide DocumentScope.DocIds;
    var i :| 0 <= i < |docs| && docs[i] == d;
    assert DocumentScope.DocIds(docs)[i] == d.documentId;
  }

  lemma SurvivorListed(all: seq<SearchResult>, r: seq<SearchResult>, d: SearchResult)
    requires d in all && forall b :: b in all ==> b.documentId == b.chunkId
    requires forall b :: b in r ==> b in all
    requires exists b :: b in r && b.chunkId == d.chunkId && d.score <= b.score
    ensures d.documentId in DocumentScope.DocIds(r)
  {
    hide DocumentScope.DocIds;
    var b :| b in r && b.chunkId == d.chunkId && d.score <= b.score;
    DocumentListed(r, b);
  }

  /** Deduplication keeps every document when each chunk has its own. */
  lemma DocumentSurvives(all: seq<SearchResult>, d: SearchResult)
    requires d in all && forall b :: b in all ==> b.documentId == b.chunkId
    ensures d.documentId in DocumentScope.DocIds(Deduped(all))
  {
    hide *;
    DedupSpec(all);
    SurvivorListed(all, Deduped(all), d);
  }

  /** All `n` documents are still there after deduplication. */
  lemma AgreeingDocuments(s: Settings, n: nat, query: string, searchQuery: string, queries: seq<string>)
    requires s.mode == Hybrid && query in queries && Fusable(s, Agreeing(n)) && s.fusion.k >= 0
    ensures |FirstSeen(DocumentScope.DocIds(Deduped(Retrieved(s, Agreeing(n), query, searchQuery, queries))))| >= n
  {
    hide Deduped, Retrieved, Fused, Ladder, FirstSeen, DocumentScope.DocIds, Fusable, Agreeing;
    var all := Retrieved(s, Agreeing(n), query, searchQuery, queries);
    forall b | b in all ensures b.documentId == b.chunkId {
      AgreeingRetrieves(s, n, query, searchQuery, queries, b);
      LadderDocuments(s.fusion, n, b);
    }
    forall i: nat | i < n ensures i in DocumentScope.DocIds(Deduped(all)) {
      var d := LadderMember(s.fusion, n, i);
      AgreeingRetrieves(s, n, query, searchQuery, queries, d);
      DocumentSurvives(all, d);
    }
    FirstSeenSpec(DocumentScope.DocIds(Deduped(all)));
    Pigeons(FirstSeen(DocumentScope.DocIds(Deduped(all))), n);
  }

  lemma EnoughIsOne(s: Settings)
    ensures EnoughFor(s) >= 1
  {
  }

  lemma EnoughIsKept(s: Settings, n: nat)
    requires n >= EnoughFor(s) && !(s.scopeEnabled && s.scopeTopN == 0)
    ensures ScopeCount(s, n) >= 1
  {
  }

  /** With thresholds in reach, two engines that agree get through. */
  lemma AgreeingPasses(s: Settings, query: string, searchQuery: string, queries: seq<string>)
    requires s.mode == Hybrid && query in queries && s.fallback.k == s.fusion.k
    requires s.fusion.k >= 0 && !OutOfReach(s) && s.gate.minDocCount <= 1
    requires Fusable(s, Agreeing(EnoughFor(s)))
    ensures var all := Retrieved(s, Agreeing(EnoughFor(s)), query, searchQuery, queries);
            Evaluate(s.gate, Scoped(s, Deduped(all))).passed
  {
    hide Deduped, Scoped, Retrieved, Evaluate, Fused, Ladder, FusionCeiling, FirstSeen, DocumentScope.DocIds, Fusable,
         Agreeing, ScopeCount, EnoughFor;
    var n := EnoughFor(s);
    EnoughIsOne(s);
    var all := Retrieved(s, Agreeing(n), query, searchQuery, queries);
    var top := LadderMember(s.fusion, n, 0);
    AgreeingRetrieves(s, n, query, searchQuery, queries, top);
    AgreeingDocuments(s, n, query, searchQuery, queries);
    EnoughIsKept(s, |FirstSeen(DocumentScope.DocIds(Deduped(all)))|);
    GoodDocumentPasses(s, all, top);
  }

  /** No engines, however well they agree, get a list through the gate. */
  ghost predicate NothingPasses(s: Settings, sigmoid: real -> real, predict: seq<SearchResult> -> Option<seq<real>>,
                                query: string, searchQuery: string, queries: seq<string>)
    requires Scores(predict)
  {
    forall e: Engines :: Fusable(s, e) && UniqueLists(e) ==>
      !Evaluate(s.gate, AtGate(s, sigmoid, predict, Retrieved(s, e, query, searchQuery, queries))).passed
  }

  /**
   When the gate decides something in hybrid mode without reranking, for a gate that asks for at most
   one document: nothing passes if and only if a threshold is above the ceiling of fusion, or the
   scope keeps no document.
   */
  lemma HybridGateIff(s: Settings, sigmoid: real -> real, predict: seq<SearchResult> -> Option<seq<real>>,
                      query: string, searchQuery: string, queries: seq<string>)
    requires Scores(predict) && s.mode == Hybrid && !s.rerankingEnabled && query in queries
    requires s.fallback.k == s.fusion.k >= 0 && s.fusion.vectorWeight >= 0.0 && s.fusion.keywordWeight >= 0.0
    requires s.gate.minDocCount <= 1
    ensures NothingPasses(s, sigmoid, predict, query, searchQuery, queries) <==> OutOfReach(s)
  {
    hide Deduped, Scoped, Retrieved, Evaluate, FusionCeiling, OutOfReach, Fusable, UniqueLists, Agreeing;
    if OutOfReach(s) {
      forall e: Engines | Fusable(s, e) && UniqueLists(e)
        ensures !Evaluate(s.gate, AtGate(s, sigmoid, predict, Retrieved(s, e, query, searchQuery, queries))).passed
      {
        HybridWithoutRerankNeverPasses(s, e, sigmoid, predict, query, searchQuery, queries);
      }
    } else {
      AgreeingFusable(s, EnoughFor(s));
      AgreeingPasses(s, query, searchQuery, queries);
      AgreeingUnique(EnoughFor(s));
    }
  }

  // ---------------------------------------------------------------- the cascade and the gate

  /** The gate asks for no more than the cascade's own quality test, and for more than fusion can give. */
  ghost predicate GateBetween(s: Settings) {
    && s.fusion.k >= 0 && s.fallback.k == s.fusion.k
    && s.fusion.vectorWeight >= 0.0 && s.fusion.keywordWeight >= 0.0
    && s.fallback.vectorWeight >= 0.0 && s.fallback.keywordWeight >= 0.0
    && FusionCeiling(s.fusion) < s.gate.minTopScore && FusionCeiling(s.fallback) < s.gate.minTopScore
    && s.gate.minTopScore <= s.cascade.threshold
    && s.gate.minDocScore <= s.cascade.threshold && s.gate.minDocCount <= 1
  }

  /** A document with a high enough score, anywhere in the union, carries the gate through dedup and scope. */
  lemma GoodDocumentPasses(s: Settings, all: seq<SearchResult>, d: SearchResult)
    requires d in all && d.score >= s.gate.minTopScore
    requires s.gate.minDocCount <= 0 || (s.gate.minDocCount == 1 && d.score >= s.gate.minDocScore)
    requires ScopeCount(s, |FirstSeen(DocumentScope.DocIds(Deduped(all)))|) >= 1
    ensures Evaluate(s.gate, Scoped(s, Deduped(all))).passed
  {
    hide Deduped, Scoped, Evaluate, FirstSeen, DocumentScope.DocIds;
    var docs := Deduped(all);
    DedupTop(all, d);
    DedupRanked(all);
    ScopeKeeps(s, docs);
    if !s.scopeEnabled { ScopeOff(s, docs); }
    FirstPasses(s.gate, Scoped(s, docs));
  }

  lemma ScopeKeepsOne(s: Settings, docs: seq<SearchResult>)
    requires docs != [] && (!s.scopeEnabled || s.scopeTopN >= 1)
    ensures ScopeCount(s, |FirstSeen(DocumentScope.DocIds(docs))|) >= 1
  {
    FirstDocumentFirst(docs);
    hide FirstSeen, DocumentScope.DocIds;
  }

  lemma DedupTop(all: seq<SearchResult>, d: SearchResult)
    requires d in all
    ensures Deduped(all) != [] && Deduped(all)[0].score >= d.score
  {
    hide *;
    DedupSpec(all);
    TopBeats(Deduped(all), d);
  }

  lemma TopBeats(docs: seq<SearchResult>, d: SearchResult)
    requires Ranked(docs) && exists b :: b in docs && b.chunkId == d.chunkId && d.score <= b.score
    ensures docs != [] && docs[0].score >= d.score
  {
    hide *;
    var b :| b in docs && b.chunkId == d.chunkId && d.score <= b.score;
    TopIsGreatest(docs, b);
  }

  lemma ScopeOff(s: Settings, docs: seq<SearchResult>)
    requires !s.scopeEnabled
    ensures Scoped(s, docs) == docs
  {
  }

  lemma FirstPasses(g: Gate, docs: seq<SearchResult>)
    requires docs != [] && docs[0].score >= g.minTopScore
    requires g.minDocCount <= 0 || (g.minDocCount == 1 && docs[0].score >= g.minDocScore)
    ensures Evaluate(g, docs).passed
  {
    assert docs[0] in docs;
  }

  lemma TopIsGreatest(docs: seq<SearchResult>, d: SearchResult)
    requires Ranked(docs) && d in docs
    ensures docs[0].score >= d.score
  {
    var i :| 0 <= i < |docs| && docs[i] == d;
    if i > 0 { assert ByScore(docs[0]) >= ByScore(docs[i]); }
  }

  /**
   In cascading mode with reranking off, the gate passes exactly when the cascade stopped on a BM25
   list: falling back to fusion makes it fail, whatever was retrieved and however many variants ran.
   */
  lemma CascadeDecidesGate(s: Settings, e: Engines, sigmoid: real -> real,
                           predict: seq<SearchResult> -> Option<seq<real>>,
                           query: string, searchQuery: string, queries: seq<string>)
    requires Fusable(s, e) && UniqueLists(e) && Scores(predict) && s.mode == Cascading && !s.rerankingEnabled
    requires GateBetween(s) && query in queries && (!s.scopeEnabled || s.scopeTopN >= 1)
    ensures Evaluate(s.gate, AtGate(s, sigmoid, predict, Retrieved(s, e, query, searchQuery, queries))).passed <==>
              CascadeStage(s, e, query) != VectorFallback
  {
    hide Deduped, Scoped, Retrieved, Evaluate, FusionCeiling, Fused;
    var all := Retrieved(s, e, query, searchQuery, queries);
    if CascadeStage(s, e, query) != VectorFallback {
      var list := Cascaded(s, e, query);
      var d := list[0];
      RetrievedMembers(s, e, query, searchQuery, queries, d);
      assert d in SearchOne(s, e, query, searchQuery, query);
      DedupTop(all, d);
      ScopeKeepsOne(s, Deduped(all));
      GoodDocumentPasses(s, all, d);
    } else {
      var bound := if FusionCeiling(s.fusion) >= FusionCeiling(s.fallback) then FusionCeiling(s.fusion)
                   else FusionCeiling(s.fallback);
      forall d | d in all ensures d.score <= bound {
        RetrievedMembers(s, e, query, searchQuery, queries, d);
        var q :| q in queries && d in SearchOne(s, e, query, searchQuery, q);
        FusedAtMost(s.fusion, e.vector(q), e.keyword(q));
        FusedAtMost(s.fallback, e.vector(query), e.keyword(query));
      }
      DedupAtMost(all, bound);
      DedupRanked(all);
      ScopeKeeps(s, Deduped(all));
      LowScoresFail(s.gate, Scoped(s, Deduped(all)), bound);
    }
  }

  function DefaultInt(k: string): int {
    if k in Defaults() && Defaults()[k].Int? then Defaults()[k].i else 0
  }

  function DefaultReal(k: string): real {
    if k in Defaults() && Defaults()[k].Real? then Defaults()[k].r else 0.0
  }

  predicate DefaultIs(k: string, v: Json) { k in Defaults() && Defaults()[k] == v }

  /** The gate's sub-model as it is shipped (RetrievalGateSettings). */
  const SHIPPED_GATE := Gate(0.3, 1, 0.2, true)

  /** The default settings, in the given mode and with the reranker on or off. */
  function Shipped(mode: Mode, reranking: bool): Settings {
    var k := DefaultInt("rrf_constant");
    Settings(mode, Fusion(k, DefaultReal("vector_weight"), DefaultReal("keyword_weight")),
             Fusion(k, DefaultReal("cascading_fallback_vector_weight"),
                 DefaultReal("cascading_fallback_keyword_weight")),
             Cascade(DefaultReal("cascading_bm25_threshold"), DefaultInt("cascading_min_qualifying_docs"),
                     DefaultReal("cascading_min_doc_score")),
             DefaultIs("query_expansion_enabled", Bool(true)),
             DefaultIs("document_scope_enabled", Bool(true)), DefaultInt("document_scope_top_n"),
             reranking, DefaultInt("reranker_top_k"),
             if DefaultIs("reranker_score_mode", Str("replace")) then Reranking.Replace else Reranking.Calibrated,
             DefaultReal("reranker_alpha"), DEFAULT_SUB.enabled, SHIPPED_GATE, DEFAULT_SUB.enabled)
  }

  lemma DefaultConstant()
    ensures DefaultInt("rrf_constant") == 60
  {
  }

  lemma DefaultWeights()
    ensures DefaultReal("vector_weight") == 0.5 && DefaultReal("keyword_weight") == 0.5
  {
  }

  lemma DefaultFallback()
    ensures DefaultReal("cascading_fallback_vector_weight") == 0.3
    ensures DefaultReal("cascading_fallback_keyword_weight") == 0.7
  {
  }

  lemma DefaultCascade()
    ensures DefaultReal("cascading_bm25_threshold") == 3.0 && DefaultInt("cascading_min_qualifying_docs") == 3
    ensures DefaultReal("cascading_min_doc_score") == 1.0
  {
  }

  lemma DefaultScope()
    ensures DefaultIs("query_expansion_enabled", Bool(true))
    ensures DefaultIs("document_scope_enabled", Bool(true)) && DefaultInt("document_scope_top_n") == 3
  {
  }

  lemma DefaultRerank()
    ensures DefaultInt("reranker_top_k") == 8 && DefaultReal("reranker_alpha") == 0.7
    ensures !DefaultIs("reranker_score_mode", Str("replace"))
  {
  }

  lemma ShippedValues(mode: Mode, reranking: bool)
    ensures Shipped(mode, reranking) ==
            Settings(mode, Fusion(60, 0.5, 0.5), Fusion(60, 0.3, 0.7), Cascade(3.0, 3, 1.0), true, true, 3,
                     reranking, 8, Reranking.Calibrated, 0.7, true, SHIPPED_GATE, true)
  {
    hide DefaultInt, DefaultReal, DefaultIs, Defaults;
    DefaultConstant();
    DefaultWeights();
    DefaultFallback();
    DefaultCascade();
    DefaultScope();
    DefaultRerank();
  }

  /** The top threshold 0.3 is exactly the floor 1 - 0.7. */
  lemma ShippedIsLenient(mode: Mode, n: nat)
    requires n >= 1
    ensures var s := Shipped(mode, true);
            Lenient(s.gate, s.alpha, Min(n, s.rerankerTopK)) && s.gate.minTopScore == 1.0 - s.alpha
  {
    ShippedValues(mode, true);
    hide Shipped, RankFloor;
    FirstFloor(0.7);
  }

  lemma ShippedSoft(docs: seq<SearchResult>)
    ensures var s := Shipped(Hybrid, false);
            !Evaluate(s.gate, docs).passed ==>
              Decide(s, docs) == if docs == [] then Blocked([]) else Continue(docs, true)
  {
    ShippedValues(Hybrid, false);
    hide Shipped, Qualifying;
  }

  /**
   What the default gate decides: everything passes when the reranker answers; without it nothing
   passes in hybrid mode -- a non-empty list goes on as a soft failure -- and in cascading mode exactly
   the lists that BM25 alone was content with.
   */
  lemma ShippedDefaults(e: Engines, sigmoid: real -> real, predict: seq<SearchResult> -> Option<seq<real>>,
                        query: string, searchQuery: string, queries: seq<string>, docs: seq<SearchResult>)
    requires UniqueLists(e) && Scores(predict) && Reranking.Squashes(sigmoid) && query in queries
    ensures forall mode :: docs != [] && predict(Truncated(Shipped(mode, true), docs)).Some? ==>
              Evaluate(Shipped(mode, true).gate, AfterRerank(Shipped(mode, true), sigmoid, predict, docs)).passed
    ensures Fusable(Shipped(Hybrid, false), e) && Fusable(Shipped(Cascading, false), e)
    ensures var s := Shipped(Hybrid, false);
            var docs := AtGate(s, sigmoid, predict, Retrieved(s, e, query, searchQuery, queries));
            && !Evaluate(s.gate, docs).passed
            && Decide(s, docs) == if docs == [] then Blocked([]) else Continue(docs, true)
    ensures var s := Shipped(Cascading, false);
            Evaluate(s.gate, AtGate(s, sigmoid, predict, Retrieved(s, e, query, searchQuery, queries))).passed <==>
              CascadeStage(s, e, query) != VectorFallback
  {
    hide Evaluate, AtGate, AfterRerank, Retrieved, CascadeStage, Truncated, UniqueLists, Scores, Shipped;
    forall mode, reranking
      ensures Shipped(mode, reranking) ==
              Settings(mode, Fusion(60, 0.5, 0.5), Fusion(60, 0.3, 0.7), Cascade(3.0, 3, 1.0), true, true, 3,
                       reranking, 8, Reranking.Calibrated, 0.7, true, SHIPPED_GATE, true)
    {
      ShippedValues(mode, reranking);
    }
    forall mode | docs != [] && predict(Truncated(Shipped(mode, true), docs)).Some?
      ensures Evaluate(Shipped(mode, true).gate, AfterRerank(Shipped(mode, true), sigmoid, predict, docs)).passed
    {
      ShippedIsLenient(mode, |docs|);
      DefaultGateAlwaysPasses(Shipped(mode, true), sigmoid, predict, docs);
    }
    ShippedSoft(AtGate(Shipped(Hybrid, false), sigmoid, predict,
                       Retrieved(Shipped(Hybrid, false), e, query, searchQuery, queries)));
    HybridWithoutRerankNeverPasses(Shipped(Hybrid, false), e, sigmoid, predict, query, searchQuery, queries);
    CascadeDecidesGate(Shipped(Cascading, false), e, sigmoid, predict, query, searchQuery, queries);
  }
}
