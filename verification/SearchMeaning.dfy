/**
 What the document flow of search/hybrid.py retrieves, keeps and decides, said about the engines' answers
 and without the functions that compute it.
 */
module SearchMeaning {
  import opened Prelude
  import opened StableSort
  import opened Results
  import opened Rrf
  import opened RetrievalGate
  import opened HybridSearch
  import DocumentScope
  import Reranking

  // ---------------------------------------------------------------- deduplication

  /** `d` is the first of the best results with its id. */
  ghost predicate FirstBest(all: seq<SearchResult>, d: SearchResult) {
    exists i :: 0 <= i < |all| && all[i] == d && IsFirstBest(all, i)
  }

  ghost predicate IsFirstBest(all: seq<SearchResult>, i: nat)
    requires i < |all|
  {
    && (forall j :: 0 <= j < i && all[j].chunkId == all[i].chunkId ==> all[j].score < all[i].score)
    && (forall j :: i < j < |all| && all[j].chunkId == all[i].chunkId ==> all[j].score <= all[i].score)
  }

  lemma {:induction false} BestIsFirst(all: seq<SearchResult>, id: Id)
    requires Best(all, id).Some?
    ensures FirstBest(all, Best(all, id).value)
  {
    var n := |all| - 1;
    var front, last := all[..n], all[n];
    var before, b := Best(front, id), Best(all, id).value;
    TakeSnoc(all, n);
    if last.chunkId == id && (before.None? || last.score > before.value.score) {
      assert forall j :: 0 <= j < n && all[j].chunkId == id ==> all[j] in front;
      assert all[n] == b && IsFirstBest(all, n);
    } else {
      BestIsFirst(front, id);
      var i :| 0 <= i < |front| && front[i] == b && IsFirstBest(front, i);
      assert forall j :: 0 <= j < n ==> all[j] == front[j];
      assert all[i] == b && IsFirstBest(all, i);
    }
  }

  lemma DedupInOrder(all: seq<SearchResult>)
    ensures RankedByPlace(Ids(all), Deduped(all))
  {
    hide *;
    DedupIsSorted(all);
    FirstSeenOrder(Ids(all));
    var order := FirstSeen(Ids(all));
    var bests := Bests(all, order);
    forall i, j | 0 <= i < j < |bests|
      ensures FirstPlace(Ids(all), bests[i].chunkId) < FirstPlace(Ids(all), bests[j].chunkId)
    {
      assert Best(all, order[i]) == Some(bests[i]) && Best(all, order[j]) == Some(bests[j]);
    }
    SortByPlace(Ids(all), bests);
  }

  lemma DedupMember(all: seq<SearchResult>, d: SearchResult)
    requires d in Deduped(all)
    ensures FirstBest(all, d)
  {
    hide *;
    DedupMembers(all, d);
    BestIsFirst(all, d.chunkId);
  }

  lemma ListedId(docs: seq<SearchResult>, d: SearchResult)
    requires d in docs
    ensures d.chunkId in Ids(docs)
  {
    var i :| 0 <= i < |docs| && docs[i] == d;
    assert Ids(docs)[i] == d.chunkId;
  }

  lemma DedupIds(all: seq<SearchResult>, id: Id)
    ensures id in Ids(Deduped(all)) <==> id in Ids(all)
  {
    hide *;
    DedupSpec(all);
    var r := Deduped(all);
    if id in Ids(r) {
      var i := IdPosition(r, id);
      assert r[i] in r;
      ListedId(all, r[i]);
    }
    if id in Ids(all) {
      var i := IdPosition(all, id);
      assert all[i] in all;
      var b :| b in r && b.chunkId == id;
      ListedId(r, b);
    }
  }

  /** The union without duplicates: each id once, as its first best result; ties in order of first appearance. */
  lemma DedupMeaning(all: seq<SearchResult>)
    ensures forall d :: d in Deduped(all) ==> FirstBest(all, d)
    ensures forall id :: id in Ids(Deduped(all)) <==> id in Ids(all)
    ensures RankedByPlace(Ids(all), Deduped(all))
  {
    hide *;
    DedupInOrder(all);
    forall d | d in Deduped(all) ensures FirstBest(all, d) { DedupMember(all, d); }
    forall id ensures id in Ids(Deduped(all)) <==> id in Ids(all) { DedupIds(all, id); }
  }

  // ---------------------------------------------------------------- who is asked what

  /** The list holds the chunk with this score. */
  ghost predicate Lists(docs: seq<SearchResult>, id: Id, x: real) {
    exists i :: 0 <= i < |docs| && docs[i].chunkId == id && docs[i].score == x
  }

  /** One of the two lists holds the chunk, and `x` is what their ranks award it. */
  ghost predicate Fuses(k: int, v: real, w: real, vector: seq<SearchResult>, keyword: seq<SearchResult>, id: Id,
                        x: real)
    requires Divides(k, |vector|) && Divides(k, |keyword|)
  {
    && (id in Ids(vector) || id in Ids(keyword))
    && x == Awarded(vector, v, k, id) + Awarded(keyword, w, k, id)
  }

  /** A BM25 list is good enough: a high first score, and enough documents that reach the lower one. */
  ghost predicate GoodEnough(c: Cascade, docs: seq<SearchResult>) {
    docs != [] && docs[0].score >= c.threshold && |Reaching(docs, c.minDocScore)| >= c.minQualifying
  }

  /**
   The search for the query string `q` offers the chunk with the score `x`. The user's own question goes
   by the mode, and only there does the vector engine get the hypothetical answer; a variant always goes
   to both engines.
   */
  ghost predicate Offers(s: Settings, e: Engines, query: string, hypothetical: string, q: string, id: Id, x: real)
    requires Fusable(s, e)
  {
    var k, v, w := s.fusion.k, s.fusion.vectorWeight, s.fusion.keywordWeight;
    if q != query then Fuses(k, v, w, e.vector(q), e.keyword(q), id, x)
    else
      match s.mode
      case VectorOnly => Lists(e.vector(hypothetical), id, x)
      case KeywordOnly => Lists(e.keyword(query), id, x)
      case Hybrid => Fuses(k, v, w, e.vector(hypothetical), e.keyword(query), id, x)
      case Cascading =>
        if GoodEnough(s.cascade, e.keyword(query)) then Lists(e.keyword(query), id, x)
        else if s.expansionEnabled && GoodEnough(s.cascade, e.keyword(e.expand(query))) then
          Lists(e.keyword(e.expand(query)), id, x)
        else
          Fuses(k, s.fallback.vectorWeight, s.fallback.keywordWeight, e.vector(query), e.keyword(query), id, x)
  }

  lemma FusedLists(f: Fusion, vector: seq<SearchResult>, keyword: seq<SearchResult>, id: Id, x: real)
    requires Divides(f.k, |vector|) && Divides(f.k, |keyword|)
    ensures Lists(Fused(f, vector, keyword), id, x) <==>
            Fuses(f.k, f.vectorWeight, f.keywordWeight, vector, keyword, id, x)
  {
    hide *;
    if Lists(Fused(f, vector, keyword), id, x) { ListedFuses(f, vector, keyword, id, x); }
    if Fuses(f.k, f.vectorWeight, f.keywordWeight, vector, keyword, id, x) { FusesListed(f, vector, keyword, id, x); }
  }

  lemma FusesParts(k: int, v: real, w: real, vector: seq<SearchResult>, keyword: seq<SearchResult>, id: Id, x: real)
    requires Divides(k, |vector|) && Divides(k, |keyword|)
    ensures Fuses(k, v, w, vector, keyword, id, x) <==>
              && (id in Ids(vector) || id in Ids(keyword))
              && x == Awarded(vector, v, k, id) + Awarded(keyword, w, k, id)
  {
  }

  lemma ListedFuses(f: Fusion, vector: seq<SearchResult>, keyword: seq<SearchResult>, id: Id, x: real)
    requires Divides(f.k, |vector|) && Divides(f.k, |keyword|) && Lists(Fused(f, vector, keyword), id, x)
    ensures Fuses(f.k, f.vectorWeight, f.keywordWeight, vector, keyword, id, x)
  {
    hide *;
    var r := Fused(f, vector, keyword);
    FusesParts(f.k, f.vectorWeight, f.keywordWeight, vector, keyword, id, x);
    FusedIds(f, vector, keyword, id);
    var i := ListsAt(r, id, x);
    assert r[i] in r;
    ListedId(r, r[i]);
    FusedMeaning(f, vector, keyword);
  }

  lemma FusesListed(f: Fusion, vector: seq<SearchResult>, keyword: seq<SearchResult>, id: Id, x: real)
    requires Divides(f.k, |vector|) && Divides(f.k, |keyword|)
    requires Fuses(f.k, f.vectorWeight, f.keywordWeight, vector, keyword, id, x)
    ensures Lists(Fused(f, vector, keyword), id, x)
  {
    hide *;
    var r := Fused(f, vector, keyword);
    FusesParts(f.k, f.vectorWeight, f.keywordWeight, vector, keyword, id, x);
    FusedIds(f, vector, keyword, id);
    var i := IdPosition(r, id);
    assert r[i] in r;
    FusedMeaning(f, vector, keyword);
    ListsThere(r, i);
  }

  lemma FusedIds(f: Fusion, vector: seq<SearchResult>, keyword: seq<SearchResult>, id: Id)
    requires Divides(f.k, |vector|) && Divides(f.k, |keyword|)
    ensures id in Ids(Fused(f, vector, keyword)) <==> id in Ids(vector) || id in Ids(keyword)
  {
    hide *;
    FusedSpec(f, vector, keyword);
  }

  lemma ListsAt(docs: seq<SearchResult>, id: Id, x: real) returns (i: nat)
    requires Lists(docs, id, x)
    ensures i < |docs| && docs[i].chunkId == id && docs[i].score == x
  {
    i :| 0 <= i < |docs| && docs[i].chunkId == id && docs[i].score == x;
  }

  lemma ListsThere(docs: seq<SearchResult>, i: nat)
    requires i < |docs|
    ensures Lists(docs, docs[i].chunkId, docs[i].score)
  {
  }

  lemma GoodIsSufficient(c: Cascade, docs: seq<SearchResult>)
    ensures Sufficient(c, docs) <==> GoodEnough(c, docs)
  {
    QualifyingCounts(docs, c.minDocScore);
    hide Qualifying, Reaching;
  }

  lemma SearchOffers(s: Settings, e: Engines, query: string, hypothetical: string, q: string, id: Id, x: real)
    requires Fusable(s, e)
    ensures Lists(SearchOne(s, e, query, hypothetical, q), id, x) <==> Offers(s, e, query, hypothetical, q, id, x)
  {
    GoodIsSufficient(s.cascade, e.keyword(query));
    GoodIsSufficient(s.cascade, e.keyword(e.expand(query)));
    hide Lists, Fuses, Fused, Sufficient, GoodEnough;
    if q != query {
      FusedLists(s.fusion, e.vector(q), e.keyword(q), id, x);
    } else {
      FusedLists(s.fusion, e.vector(hypothetical), e.keyword(query), id, x);
      FusedLists(s.fallback, e.vector(query), e.keyword(query), id, x);
    }
  }

  /**
   What is retrieved: every document is offered by the search for one of the query strings with exactly its
   score, and each offer of each search is met by a document with that id and at least that score.
   */
  lemma RetrievalMeaning(s: Settings, e: Engines, query: string, hypothetical: string, queries: seq<string>)
    requires Fusable(s, e)
    ensures var r := Deduped(Retrieved(s, e, query, hypothetical, queries));
            && (forall d :: d in r ==>
                  exists q :: q in queries && Offers(s, e, query, hypothetical, q, d.chunkId, d.score))
            && (forall q, id, x :: q in queries && Offers(s, e, query, hypothetical, q, id, x) ==>
                  exists d :: d in r && d.chunkId == id && d.score >= x)
  {
    var all := Retrieved(s, e, query, hypothetical, queries);
    var r := Deduped(all);
    DedupSpec(all);
    hide Deduped, Retrieved, Offers, SearchOne, DistinctChunks, Ranked;
    forall d | d in r
      ensures exists q :: q in queries && Offers(s, e, query, hypothetical, q, d.chunkId, d.score)
    {
      RetrievedMembers(s, e, query, hypothetical, queries, d);
      var q :| q in queries && d in SearchOne(s, e, query, hypothetical, q);
      SearchOffers(s, e, query, hypothetical, q, d.chunkId, d.score);
    }
    forall q, id, x | q in queries && Offers(s, e, query, hypothetical, q, id, x)
      ensures exists d :: d in r && d.chunkId == id && d.score >= x
    {
      SearchOffers(s, e, query, hypothetical, q, id, x);
      var one := SearchOne(s, e, query, hypothetical, q);
      var i :| 0 <= i < |one| && one[i].chunkId == id && one[i].score == x;
      RetrievedMembers(s, e, query, hypothetical, queries, one[i]);
    }
  }

  /** The user's question alone: which chunks come back in each mode but the cascade. */
  lemma SoleQueryIds(s: Settings, e: Engines, query: string, hypothetical: string, id: Id)
    requires Fusable(s, e) && s.mode != Cascading
    ensures id in Ids(Deduped(Retrieved(s, e, query, hypothetical, [query]))) <==>
              || (s.mode != KeywordOnly && id in Ids(e.vector(hypothetical)))
              || (s.mode != VectorOnly && id in Ids(e.keyword(query)))
  {
    var all := Retrieved(s, e, query, hypothetical, [query]);
    OneSearch(s, e, query, hypothetical);
    assert Divides(s.fusion.k, |e.vector(hypothetical)|) && Divides(s.fusion.k, |e.keyword(query)|);
    SearchByMode(s, e, query, hypothetical);
    hide *;
    DedupIds(all, id);
    FusedIds(s.fusion, e.vector(hypothetical), e.keyword(query), id);
  }

  lemma SearchByMode(s: Settings, e: Engines, query: string, hypothetical: string)
    requires Fusable(s, e) && s.mode != Cascading
    ensures SearchOne(s, e, query, hypothetical, query) ==
            if s.mode == VectorOnly then e.vector(hypothetical)
            else if s.mode == KeywordOnly then e.keyword(query)
            else Fused(s.fusion, e.vector(hypothetical), e.keyword(query))
  {
  }

  lemma OneSearch(s: Settings, e: Engines, query: string, hypothetical: string)
    requires Fusable(s, e)
    ensures Retrieved(s, e, query, hypothetical, [query]) == SearchOne(s, e, query, hypothetical, query)
  {
    hide SearchOne;
    Unit(SearchOne(s, e, query, hypothetical, query));
    assert [query][1..] == [];
  }

  // ---------------------------------------------------------------- from the union to the decision

  /** The documents that scope selection leaves of the union. */
  ghost predicate InScope(s: Settings, united: seq<SearchResult>, kept: seq<SearchResult>) {
    if s.scopeEnabled then s.scopeTopN >= 0 ==> DocumentScope.IsFirst(united, s.scopeTopN, kept) else kept == united
  }

  /** The documents after the reranking step: at most four times top_k candidates are sent to the encoder. */
  ghost predicate AreReranked(s: Settings, sigmoid: real -> real, predict: seq<SearchResult> -> Option<seq<real>>,
                              kept: seq<SearchResult>, docs: seq<SearchResult>)
    requires Scores(predict)
  {
    var candidates := kept[..KeepCount(|kept|, s.rerankerTopK * 4)];
    if !s.rerankingEnabled then docs == kept
    else if candidates == [] || predict(candidates).None? then docs == candidates
    else
      var logits := predict(candidates).value;
      && |docs| == KeepCount(|candidates|, s.rerankerTopK)
      && exists idx :: Reranking.Takes(sigmoid, logits, candidates, s.scoreMode, s.alpha, idx, docs)
  }

  /** The gate lets the documents pass, or lets them through as a soft failure, or ends the search. */
  ghost predicate IsDecided(s: Settings, docs: seq<SearchResult>, outcome: Outcome) {
    var passes := docs != [] && docs[0].score >= s.gate.minTopScore
                  && |Reaching(docs, s.gate.minDocScore)| >= s.gate.minDocCount;
    if !s.gateEnabled || passes then outcome == Continue(docs, false)
    else if s.gate.softMode && docs != [] then outcome == Continue(docs, true)
    else outcome == Blocked(docs)
  }

  lemma TruncatedIsPrefix(s: Settings, docs: seq<SearchResult>)
    ensures Truncated(s, docs) == docs[..KeepCount(|docs|, s.rerankerTopK * 4)]
  {
    assert docs[..|docs|] == docs;
  }

  lemma ScopedInScope(s: Settings, united: seq<SearchResult>)
    requires Ranked(united)
    ensures InScope(s, united, Scoped(s, united))
  {
    if s.scopeEnabled && s.scopeTopN >= 0 { DocumentScope.SelectKeepsFirst(united, s.scopeTopN); }
    hide DocumentScope.IsFirst, FirstSeen, DocumentScope.DocIds;
  }

  lemma RerankedAre(s: Settings, sigmoid: real -> real, predict: seq<SearchResult> -> Option<seq<real>>,
                    kept: seq<SearchResult>)
    requires Scores(predict) && Reranking.Squashes(sigmoid) && 0.0 <= s.alpha <= 1.0
    ensures AreReranked(s, sigmoid, predict, kept, AfterRerank(s, sigmoid, predict, kept))
  {
    TruncatedIsPrefix(s, kept);
    var candidates := Truncated(s, kept);
    hide Truncated, Reranking.Reranked, Reranking.Takes, Reranking.Squashes, KeepCount;
    if candidates != [] && predict(candidates).Some? {
      Reranking.KeepsTheBest(sigmoid, predict(candidates).value, candidates, s.rerankerTopK, s.scoreMode, s.alpha);
    }
  }

  lemma DecisionMeaning(s: Settings, docs: seq<SearchResult>)
    ensures IsDecided(s, docs, Decide(s, docs))
  {
    VerdictMeaning(s.gate, docs);
    hide Evaluate, Reaching;
  }

  /** The flow from the union of the searches to the outcome, each stage said for itself. */
  lemma FlowMeaning(s: Settings, sigmoid: real -> real, predict: seq<SearchResult> -> Option<seq<real>>,
                    all: seq<SearchResult>)
    requires Scores(predict) && Reranking.Squashes(sigmoid) && 0.0 <= s.alpha <= 1.0
    ensures exists kept, docs ::
              && InScope(s, Deduped(all), kept)
              && AreReranked(s, sigmoid, predict, kept, docs)
              && IsDecided(s, docs, Decide(s, AtGate(s, sigmoid, predict, all)))
  {
    DedupSpec(all);
    var kept := Scoped(s, Deduped(all));
    var docs := AfterRerank(s, sigmoid, predict, kept);
    assert AtGate(s, sigmoid, predict, all) == docs;
    hide *;
    ScopedInScope(s, Deduped(all));
    RerankedAre(s, sigmoid, predict, kept);
    DecisionMeaning(s, docs);
  }
}
