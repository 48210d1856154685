/**
 The document flow of the search orchestrator (backend/app/services/search/hybrid.py): retrieval
 by mode, deduplication, document scope, reranking, the quality gate and masking.
 */
module HybridSearch {
  import opened Prelude
  import opened StableSort
  import opened Results
  import opened Rrf
  import opened RetrievalGate
  import DocumentScope
  import Reranking
  import Regex
  import Pii

  // ---------------------------------------------------------------- deduplication

  /** The first document of greatest score among those with this chunk id. */
  function Best(docs: seq<SearchResult>, id: Id): (r: Option<SearchResult>)
    ensures r.Some? ==> r.value in docs && r.value.chunkId == id
    ensures forall d :: d in docs && d.chunkId == id ==> r.Some? && d.score <= r.value.score
  {
    if docs == [] then None
    else
      var front, last := Best(docs[..|docs| - 1], id), docs[|docs| - 1];
      TakeSnoc(docs, |docs| - 1);
      assert forall d :: d in docs <==> d in docs[..|docs| - 1] || d == last;
      if last.chunkId == id && (front.None? || last.score > front.value.score) then Some(last) else front
  }

  function Bests(docs: seq<SearchResult>, ids: seq<Id>): (r: seq<SearchResult>)
    requires forall id :: id in ids ==> Best(docs, id).Some?
    ensures |r| == |ids| && forall i :: 0 <= i < |ids| ==> Best(docs, ids[i]) == Some(r[i])
  {
    if ids == [] then []
    else
      var last := ids[|ids| - 1];
      assert last in ids;
      Bests(docs, ids[..|ids| - 1]) + [Best(docs, last).value]
  }

  lemma SeenHaveBest(docs: seq<SearchResult>)
    ensures forall id :: id in FirstSeen(Ids(docs)) <==> Best(docs, id).Some?
  {
    FirstSeenSpec(Ids(docs));
    hide FirstSeen, Ids, Best;
    forall id: Id ensures id in FirstSeen(Ids(docs)) <==> Best(docs, id).Some? {
      if id in Ids(docs) {
        var i := IdPosition(docs, id);
        assert docs[i] in docs;
      }
      if Best(docs, id).Some? {
        var i :| 0 <= i < |docs| && docs[i] == Best(docs, id).value;
        assert Ids(docs)[i] == id;
      }
    }
  }

  function Deduped(docs: seq<SearchResult>): seq<SearchResult> {
    SeenHaveBest(docs);
    SortDesc(ByScore, Bests(docs, FirstSeen(Ids(docs))))
  }

  ghost predicate SeenIs(docs: seq<SearchResult>, order: seq<Id>, seen: map<Id, SearchResult>) {
    && order == FirstSeen(Ids(docs))
    && (forall id :: id in seen <==> id in order)
    && (forall id :: id in seen ==> Best(docs, id) == Some(seen[id]))
  }

  lemma IdsSnoc(docs: seq<SearchResult>, d: SearchResult)
    ensures Ids(docs + [d]) == Ids(docs) + [d.chunkId]
  {
  }

  lemma BestSnoc(docs: seq<SearchResult>, d: SearchResult, id: Id)
    ensures var front := Best(docs, id);
            Best(docs + [d], id) ==
            if d.chunkId == id && (front.None? || d.score > front.value.score) then Some(d) else front
  {
    assert (docs + [d])[..|docs + [d]| - 1] == docs;
  }

  lemma SeenStep(docs: seq<SearchResult>, d: SearchResult, order: seq<Id>, seen: map<Id, SearchResult>)
    requires SeenIs(docs, order, seen)
    ensures var take := d.chunkId !in seen || d.score > seen[d.chunkId].score;
            SeenIs(docs + [d], if d.chunkId in seen then order else order + [d.chunkId],
                   if take then seen[d.chunkId := d] else seen)
  {
    IdsSnoc(docs, d);
    FirstSeenSnoc(Ids(docs), d.chunkId);
    SeenHaveBest(docs);
    hide FirstSeen, Ids, Best;
    forall id: Id
      ensures Best(docs + [d], id) ==
              if d.chunkId == id && (Best(docs, id).None? || d.score > Best(docs, id).value.score) then Some(d)
              else Best(docs, id)
    {
      BestSnoc(docs, d, id);
    }
  }

  /** `seen.values()` in insertion order. */
  method Values(ghost docs: seq<SearchResult>, order: seq<Id>,
                seen: map<Id, SearchResult>) returns (r: seq<SearchResult>)
    requires SeenIs(docs, order, seen)
    ensures forall id :: id in order ==> Best(docs, id).Some?
    ensures r == Bests(docs, order)
  {
    SeenLookup(docs, order, seen);
    hide *;
    r := [];
    for i := 0 to |order|
      invariant r == Bests(docs, order[..i])
    {
      assert order[i] in order;
      BestsSnoc(docs, order, i);
      r := r + [seen[order[i]]];
    }
    assert order[..|order|] == order;
  }

  lemma SeenLookup(docs: seq<SearchResult>, order: seq<Id>, seen: map<Id, SearchResult>)
    requires SeenIs(docs, order, seen)
    ensures forall id :: id in order ==> id in seen && Best(docs, id) == Some(seen[id])
  {
    hide Best, FirstSeen, Ids;
  }

  lemma BestsSnoc(docs: seq<SearchResult>, order: seq<Id>, i: nat)
    requires i < |order| && forall id :: id in order ==> Best(docs, id).Some?
    ensures Best(docs, order[i]).Some?
    ensures Bests(docs, order[..i + 1]) == Bests(docs, order[..i]) + [Best(docs, order[i]).value]
  {
    hide Best;
    assert order[i] in order;
    assert order[..i + 1][..i] == order[..i];
  }

  method Deduplicate(docs: seq<SearchResult>) returns (r: seq<SearchResult>)
    ensures r == Deduped(docs)
  {
    var order: seq<Id>, seen: map<Id, SearchResult> := [], map[];
    assert SeenIs(docs[..0], order, seen);
    hide SeenIs, FirstSeen, Bests, SortDesc;
    for i := 0 to |docs|
      invariant SeenIs(docs[..i], order, seen)
    {
      var d := docs[i];
      SeenStep(docs[..i], d, order, seen);
      TakeSnoc(docs, i);
      var take := d.chunkId !in seen || d.score > seen[d.chunkId].score;
      if d.chunkId !in seen { order := order + [d.chunkId]; }
      if take { seen := seen[d.chunkId := d]; }
    }
    assert docs[..|docs|] == docs;
    r := Values(docs, order, seen);
    OrderIs(docs, order, seen);
    r := SortDesc(ByScore, r);
  }

  lemma OrderIs(docs: seq<SearchResult>, order: seq<Id>, seen: map<Id, SearchResult>)
    requires SeenIs(docs, order, seen)
    ensures order == FirstSeen(Ids(docs))
  {
  }

  lemma BestsDistinct(docs: seq<SearchResult>, order: seq<Id>)
    requires NoDuplicates(order) && forall id :: id in order ==> Best(docs, id).Some?
    ensures DistinctChunks(Bests(docs, order))
    ensures forall d :: d in Bests(docs, order) ==> d in docs
    ensures forall id :: id in order ==> Best(docs, id).value in Bests(docs, order)
  {
    hide Best, Bests;
    var bests := Bests(docs, order);
    forall i, j | 0 <= i < j < |bests| ensures bests[i].chunkId != bests[j].chunkId {
      assert Best(docs, order[i]) == Some(bests[i]) && Best(docs, order[j]) == Some(bests[j]);
    }
    forall d | d in bests ensures d in docs {
      var i :| 0 <= i < |bests| && bests[i] == d;
      assert Best(docs, order[i]) == Some(d);
    }
    forall id | id in order ensures Best(docs, id).value in bests {
      var i :| 0 <= i < |order| && order[i] == id;
      assert Best(docs, order[i]) == Some(bests[i]);
    }
  }

  lemma DedupIsSorted(docs: seq<SearchResult>)
    ensures forall id :: id in FirstSeen(Ids(docs)) <==> Best(docs, id).Some?
    ensures Deduped(docs) == SortDesc(ByScore, Bests(docs, FirstSeen(Ids(docs))))
  {
    SeenHaveBest(docs);
    hide Best, Bests, FirstSeen, Ids, SortDesc;
  }

  lemma DedupRanked(docs: seq<SearchResult>)
    ensures DistinctChunks(Deduped(docs)) && Ranked(Deduped(docs))
  {
    hide *;
    DedupIsSorted(docs);
    FirstSeenSpec(Ids(docs));
    BestsDistinct(docs, FirstSeen(Ids(docs)));
    SortDistinct(Bests(docs, FirstSeen(Ids(docs))));
  }

  /** The results are the best ones of the ids. */
  lemma DedupMembers(docs: seq<SearchResult>, d: SearchResult)
    ensures d in Deduped(docs) <==> Best(docs, d.chunkId) == Some(d)
  {
    hide *;
    DedupIsSorted(docs);
    var order := FirstSeen(Ids(docs));
    var bests := Bests(docs, order);
    SortMember(ByScore, bests, d);
    if d in bests {
      var i :| 0 <= i < |bests| && bests[i] == d;
      assert Best(docs, order[i]) == Some(d);
    }
    if Best(docs, d.chunkId) == Some(d) {
      var i :| 0 <= i < |order| && order[i] == d.chunkId;
      assert bests[i] == d;
    }
  }

  /**
   Deduplication: distinct and ranked, every result one of the inputs, and every input beaten by a
   result with its id.
   */
  lemma DedupSpec(docs: seq<SearchResult>)
    ensures var r := Deduped(docs);
            && DistinctChunks(r) && Ranked(r)
            && (forall d :: d in r ==> d in docs)
            && (forall d :: d in docs ==> exists b :: b in r && b.chunkId == d.chunkId && d.score <= b.score)
  {
    hide *;
    DedupRanked(docs);
    forall d | d in Deduped(docs) ensures d in docs { DedupMembers(docs, d); }
    forall d | d in docs ensures exists b :: b in Deduped(docs) && b.chunkId == d.chunkId && d.score <= b.score {
      DedupMembers(docs, Best(docs, d.chunkId).value);
    }
  }

  // ---------------------------------------------------------------- retrieval

  /** The two engines as they answer now; the query embedding is part of the vector engine. */
  datatype Engines = Engines(
    vector: string -> seq<SearchResult>,
    keyword: string -> seq<SearchResult>,
    expand: string -> string)

  datatype Mode = VectorOnly | KeywordOnly | Cascading | Hybrid

  datatype Cascade = Cascade(threshold: real, minQualifying: int, minDocScore: real)

  datatype Settings = Settings(
    mode: Mode, fusion: Fusion, fallback: Fusion, cascade: Cascade, expansionEnabled: bool,
    scopeEnabled: bool, scopeTopN: int,
    rerankingEnabled: bool, rerankerTopK: int, scoreMode: Reranking.ScoreMode, alpha: real,
    gateEnabled: bool, gate: Gate, piiEnabled: bool)

  /** No fusion of the engines' lists divides by zero. */
  ghost predicate Fusable(s: Settings, e: Engines) {
    && s.fallback.k == s.fusion.k
    && forall q :: Divides(s.fusion.k, |e.vector(q)|) && Divides(s.fusion.k, |e.keyword(q)|)
  }

  /** The quality test between the stages of the cascade. */
  predicate Sufficient(c: Cascade, docs: seq<SearchResult>) {
    docs != [] && docs[0].score >= c.threshold && Qualifying(docs, c.minDocScore) >= c.minQualifying
  }

  datatype Stage = Bm25 | Expanded | VectorFallback

  function CascadeStage(s: Settings, e: Engines, query: string): Stage {
    if Sufficient(s.cascade, e.keyword(query)) then Bm25
    else if s.expansionEnabled && Sufficient(s.cascade, e.keyword(e.expand(query))) then Expanded
    else VectorFallback
  }

  function Cascaded(s: Settings, e: Engines, query: string): seq<SearchResult>
    requires Fusable(s, e)
  {
    match CascadeStage(s, e, query)
    case Bm25 => e.keyword(query)
    case Expanded => e.keyword(e.expand(query))
    case VectorFallback => Fused(s.fallback, e.vector(query), e.keyword(query))
  }

  method CascadingSearch(s: Settings, e: Engines, query: string) returns (docs: seq<SearchResult>, stage: Stage)
    requires Fusable(s, e)
    ensures docs == Cascaded(s, e, query) && stage == CascadeStage(s, e, query)
  {
    hide Fused, Qualifying;
    docs := e.keyword(query);
    if Sufficient(s.cascade, docs) { return docs, Bm25; }
    if s.expansionEnabled {
      docs := e.keyword(e.expand(query));
      if Sufficient(s.cascade, docs) { return docs, Expanded; }
    }
    docs := Rrf.Combine(e.vector(query), e.keyword(query), s.fusion.k, s.fallback.vectorWeight,
                        s.fallback.keywordWeight);
    stage := VectorFallback;
  }

  /** `_search_single` on the original query, `_search_variant` on the others. */
  function SearchOne(s: Settings, e: Engines, query: string, searchQuery: string, q: string): seq<SearchResult>
    requires Fusable(s, e)
  {
    if q != query then Fused(s.fusion, e.vector(q), e.keyword(q))
    else
      match s.mode
      case VectorOnly => e.vector(searchQuery)
      case KeywordOnly => e.keyword(query)
      case Cascading => Cascaded(s, e, query)
      case Hybrid => Fused(s.fusion, e.vector(searchQuery), e.keyword(query))
  }

  function Retrieved(s: Settings, e: Engines, query: string, searchQuery: string,
                     queries: seq<string>): seq<SearchResult>
    requires Fusable(s, e)
  {
    if queries == [] then []
    else SearchOne(s, e, query, searchQuery, queries[0]) + Retrieved(s, e, query, searchQuery, queries[1..])
  }

  lemma {:induction false} RetrievedMembers(s: Settings, e: Engines, query: string, searchQuery: string,
                                            queries: seq<string>, d: SearchResult)
    requires Fusable(s, e)
    ensures d in Retrieved(s, e, query, searchQuery, queries) <==>
              exists q :: q in queries && d in SearchOne(s, e, query, searchQuery, q)
  {
    hide SearchOne;
    if queries != [] {
      RetrievedMembers(s, e, query, searchQuery, queries[1..], d);
      if q :| q in queries && d in SearchOne(s, e, query, searchQuery, q) {
        assert q == queries[0] || q in queries[1..];
      }
    }
  }

  // ---------------------------------------------------------------- from retrieval to the gate

  /** The cross encoder on the query: one logit per document, or None when it raises. */
  ghost predicate Scores(predict: seq<SearchResult> -> Option<seq<real>>) {
    forall docs :: predict(docs).Some? ==> |predict(docs).value| == |docs|
  }

  function Scoped(s: Settings, docs: seq<SearchResult>): seq<SearchResult> {
    if s.scopeEnabled && |docs| > 0 then DocumentScope.Selected(docs, s.scopeTopN) else docs
  }

  /** At most four candidates per requested result go to the cross encoder. */
  function Truncated(s: Settings, docs: seq<SearchResult>): seq<SearchResult> {
    if |docs| > s.rerankerTopK * 4 then SliceTo(docs, s.rerankerTopK * 4) else docs
  }

  /** The reranking step; a failing encoder leaves the truncated candidates as they are. */
  function AfterRerank(s: Settings, sigmoid: real -> real, predict: seq<SearchResult> -> Option<seq<real>>,
                       docs: seq<SearchResult>): seq<SearchResult>
    requires Scores(predict)
  {
    if !s.rerankingEnabled then docs
    else
      var candidates := Truncated(s, docs);
      if candidates == [] then []
      else
        match predict(candidates)
        case None => candidates
        case Some(logits) => Reranking.Reranked(sigmoid, logits, candidates, s.rerankerTopK, s.scoreMode, s.alpha)
  }

  /** The documents that reach the gate. */
  function AtGate(s: Settings, sigmoid: real -> real, predict: seq<SearchResult> -> Option<seq<real>>,
                  all: seq<SearchResult>): seq<SearchResult>
    requires Scores(predict)
  {
    AfterRerank(s, sigmoid, predict, Scoped(s, Deduped(all)))
  }

  datatype Outcome = Blocked(docs: seq<SearchResult>) | Continue(docs: seq<SearchResult>, softFailed: bool)

  function Decide(s: Settings, docs: seq<SearchResult>): Outcome {
    if !s.gateEnabled then Continue(docs, false)
    else
      var v := Evaluate(s.gate, docs);
      if v.passed then Continue(docs, false)
      else if v.softFail && docs != [] then Continue(docs, true)
      else Blocked(docs)
  }

  method SearchDocuments(s: Settings, e: Engines, sigmoid: real -> real,
                         predict: seq<SearchResult> -> Option<seq<real>>,
                         query: string, searchQuery: string, queries: seq<string>)
    returns (outcome: Outcome)
    requires Fusable(s, e) && Scores(predict)
    ensures outcome == Decide(s, AtGate(s, sigmoid, predict, Retrieved(s, e, query, searchQuery, queries)))
  {
    hide Deduped, SearchOne, DocumentScope.Selected, Reranking.Reranked, Evaluate;
    var all: seq<SearchResult> := [];
    for i := 0 to |queries|
      invariant all + Retrieved(s, e, query, searchQuery, queries[i..]) == Retrieved(s, e, query, searchQuery, queries)
    {
      assert queries[i..][0] == queries[i] && queries[i..][1..] == queries[i + 1..];
      var one := SearchOne(s, e, query, searchQuery, queries[i]);
      Assoc(all, one, Retrieved(s, e, query, searchQuery, queries[i + 1..]));
      all := all + one;
    }
    Unit(all);
    var documents := Deduplicate(all);
    if s.scopeEnabled && |documents| > 0 {
      documents := DocumentScope.Select(documents, s.scopeTopN);
    }
    if s.rerankingEnabled {
      if |documents| > s.rerankerTopK * 4 { documents := SliceTo(documents, s.rerankerTopK * 4); }
      if documents != [] {
        var logits := predict(documents);
        if logits.Some? {
          documents := Reranking.Rerank(sigmoid, logits.value, documents, s.rerankerTopK, s.scoreMode, s.alpha);
        }
      }
    }
    if s.gateEnabled {
      var v := Evaluate(s.gate, documents);
      if !v.passed {
        if v.softFail && documents != [] { return Continue(documents, true); }
        return Blocked(documents);
      }
    }
    outcome := Continue(documents, false);
  }

  // ---------------------------------------------------------------- what reaches the gate

  /** Distinct chunks, best first, each one of `pool` up to its score. */
  ghost predicate Sound(docs: seq<SearchResult>, pool: seq<SearchResult>) {
    DistinctChunks(docs) && Ranked(docs) && DrawnFrom(docs, pool)
  }

  lemma SoundSlice(docs: seq<SearchResult>, pool: seq<SearchResult>, n: int)
    requires Sound(docs, pool)
    ensures Sound(SliceTo(docs, n), pool)
  {
    var r := SliceTo(docs, n);
    assert forall i :: 0 <= i < |r| ==> r[i] == docs[i];
    forall i, j | 0 <= i < j < |r| ensures ByScore(r[i]) >= ByScore(r[j]) && r[i].chunkId != r[j].chunkId {
      assert ByScore(docs[i]) >= ByScore(docs[j]);
    }
  }

  lemma {:induction false} KeepDistinct(docs: seq<SearchResult>, ids: seq<Id>)
    requires DistinctChunks(docs)
    ensures DistinctChunks(DocumentScope.KeepIn(docs, ids))
    ensures forall d :: d in DocumentScope.KeepIn(docs, ids) ==> d in docs
  {
    if docs != [] {
      var front, last := docs[..|docs| - 1], docs[|docs| - 1];
      KeepDistinct(front, ids);
      var kept := DocumentScope.KeepIn(front, ids);
      forall d | d in kept ensures d in docs && d.chunkId != last.chunkId {
        assert d in front;
        var i :| 0 <= i < |front| && front[i] == d;
        assert docs[i].chunkId != docs[|docs| - 1].chunkId;
      }
    }
  }

  lemma SoundScope(s: Settings, docs: seq<SearchResult>, pool: seq<SearchResult>)
    requires Sound(docs, pool)
    ensures Sound(Scoped(s, docs), pool)
  {
    hide FirstSeen, DocumentScope.DocIds, DocumentScope.Selected, DocumentScope.KeepIn;
    DocumentScope.SelectIsFirstDocuments(docs, s.scopeTopN);
    var order := FirstSeen(DocumentScope.DocIds(docs));
    var ids := order[..KeepCount(|order|, s.scopeTopN)];
    DocumentScope.KeepRanked(docs, ids);
    KeepDistinct(docs, ids);
  }

  const ChunkOf: Reranking.Scored -> int := (x: Reranking.Scored) => x.doc.chunkId

  lemma RescoreSound(sorted: seq<Reranking.Scored>, n: int, docs: seq<SearchResult>, pool: seq<SearchResult>)
    requires SortedDesc(Reranking.ByKey, sorted) && DistinctBy(ChunkOf, sorted)
    requires forall x :: x in sorted ==> x.doc in docs
    requires DrawnFrom(docs, pool)
    ensures Sound(Reranking.Rescore(SliceTo(sorted, n)), pool)
  {
    var cut := SliceTo(sorted, n);
    var r := Reranking.Rescore(cut);
    assert forall i :: 0 <= i < |cut| ==> cut[i] == sorted[i];
    forall i, j | 0 <= i < j < |r| ensures ByScore(r[i]) >= ByScore(r[j]) && r[i].chunkId != r[j].chunkId {
      assert Reranking.ByKey(sorted[i]) >= Reranking.ByKey(sorted[j]);
      assert ChunkOf(sorted[i]) != ChunkOf(sorted[j]);
    }
    forall d | d in r ensures exists p :: p in pool && d == p.(score := d.score) {
      var i :| 0 <= i < |r| && r[i] == d;
      assert sorted[i] in sorted;
      assert sorted[i].doc in docs;
      var p :| p in pool && sorted[i].doc == p.(score := sorted[i].doc.score);
      assert d == p.(score := d.score);
    }
  }

  lemma SortedPairs(pairs: seq<Reranking.Scored>, docs: seq<SearchResult>)
    requires DistinctBy(ChunkOf, pairs) && forall x :: x in pairs ==> x.doc in docs
    ensures var sorted := SortDesc(Reranking.ByKey, pairs);
            && SortedDesc(Reranking.ByKey, sorted) && DistinctBy(ChunkOf, sorted) && |sorted| == |pairs|
            && forall x :: x in sorted ==> x.doc in docs
  {
    hide SortDesc;
    SortDescSpec(Reranking.ByKey, pairs);
    PermutationKeepsDistinct(ChunkOf, pairs, SortDesc(Reranking.ByKey, pairs));
    forall x | x in SortDesc(Reranking.ByKey, pairs) ensures x.doc in docs { SortMember(Reranking.ByKey, pairs, x); }
  }

  lemma BlendPairs(sigmoid: real -> real, alpha: real, sorted: seq<Reranking.Scored>, docs: seq<SearchResult>)
    requires DistinctBy(ChunkOf, sorted) && forall x :: x in sorted ==> x.doc in docs
    ensures var b := Reranking.Blend(sigmoid, alpha, sorted);
            DistinctBy(ChunkOf, b) && forall x :: x in b ==> x.doc in docs
  {
    hide Reranking.Combine;
    var b := Reranking.Blend(sigmoid, alpha, sorted);
    forall i, j | 0 <= i < j < |b| ensures ChunkOf(b[i]) != ChunkOf(b[j]) {
      assert ChunkOf(sorted[i]) != ChunkOf(sorted[j]);
    }
    forall x | x in b ensures x.doc in docs {
      var i :| 0 <= i < |b| && b[i] == x;
      assert sorted[i] in sorted;
    }
  }

  lemma SoundRerank(sigmoid: real -> real, logits: seq<real>, docs: seq<SearchResult>, topK: int,
                    mode: Reranking.ScoreMode, alpha: real, pool: seq<SearchResult>)
    requires |logits| == |docs| && Sound(docs, pool)
    ensures Sound(Reranking.Reranked(sigmoid, logits, docs, topK, mode, alpha), pool)
  {
    hide Reranking.Rescore, Reranking.Zip, Reranking.Blend, SortDesc;
    var pairs := Reranking.Zip(logits, docs);
    forall i, j | 0 <= i < j < |pairs| ensures ChunkOf(pairs[i]) != ChunkOf(pairs[j]) {}
    SortedPairs(pairs, docs);
    var sorted := Reranking.ByLogit(logits, docs);
    RescoreSound(sorted, topK, docs, pool);
    BlendPairs(sigmoid, alpha, sorted, docs);
    var blended := Reranking.Blend(sigmoid, alpha, sorted);
    SortedPairs(blended, docs);
    RescoreSound(SortDesc(Reranking.ByKey, blended), topK, docs, pool);
  }

  /**
   Pipeline invariant: on every path -- scope on or off, reranking on, off or failed, either score
   mode, any top_k -- the documents at the gate have distinct chunk ids, all come from the retrieved
   union, and are ranked, so the first score that the gate reads is the greatest.
   */
  lemma GateInvariant(s: Settings, sigmoid: real -> real, predict: seq<SearchResult> -> Option<seq<real>>,
                      all: seq<SearchResult>)
    requires Scores(predict)
    ensures var docs := AtGate(s, sigmoid, predict, all);
            && Sound(docs, all)
            && (docs != [] ==> forall d :: d in docs ==> d.score <= Evaluate(s.gate, docs).topScore)
  {
    hide Deduped, Scoped, Reranking.Reranked, SliceTo, Sound, Evaluate;
    var deduped := Deduped(all);
    DedupSound(all);
    SoundScope(s, deduped, all);
    var scoped := Scoped(s, deduped);
    SoundSlice(scoped, all, s.rerankerTopK * 4);
    var candidates := Truncated(s, scoped);
    if s.rerankingEnabled && candidates != [] && predict(candidates).Some? {
      SoundRerank(sigmoid, predict(candidates).value, candidates, s.rerankerTopK, s.scoreMode, s.alpha, all);
    }
    var docs := AtGate(s, sigmoid, predict, all);
    assert Sound(docs, all);
    SoundRanked(docs, all);
    GateOnRanked(s.gate, docs);
  }

  lemma SoundRanked(docs: seq<SearchResult>, pool: seq<SearchResult>)
    requires Sound(docs, pool)
    ensures Ranked(docs)
  {
  }

  lemma DedupSound(all: seq<SearchResult>)
    ensures Sound(Deduped(all), all)
  {
    hide Deduped;
    DedupSpec(all);
    forall d | d in Deduped(all) ensures exists p :: p in all && d == p.(score := d.score) {
      assert d in all && d == d.(score := d.score);
    }
  }

  // ---------------------------------------------------------------- masking what passed

  /** The masking loop after the gate: the first document whose masking raises ends the request. */
  function MaskDocuments(u: Regex.Alphabet, docs: seq<SearchResult>): Result<seq<SearchResult>, Pii.MaskError> {
    if docs == [] then Ok([])
    else
      var found := Pii.Scan(u, docs[0].content);
      var masked := if found == [] then Ok(docs[0].content)
          else Pii.Splice(docs[0].content, SortDesc(Pii.ByStart, found));
      match masked
      case Err(e) => Err(e)
      case Ok(text) =>
        match MaskDocuments(u, docs[1..])
        case Err(e) => Err(e)
        case Ok(rest) => Ok([docs[0].(content := text)] + rest)
  }

  function Prepend(front: seq<SearchResult>, r: Result<seq<SearchResult>, Pii.MaskError>)
    : Result<seq<SearchResult>, Pii.MaskError>
  {
    match r
    case Err(e) => Err(e)
    case Ok(rest) => Ok(front + rest)
  }

  method MaskResults(u: Regex.Alphabet, s: Settings, documents: seq<SearchResult>)
    returns (r: Result<seq<SearchResult>, Pii.MaskError>)
    ensures r == if s.piiEnabled then MaskDocuments(u, documents) else Ok(documents)
  {
    if !s.piiEnabled { return Ok(documents); }
    hide Pii.Scan, Pii.Splice, SortDesc;
    var done: seq<SearchResult> := [];
    MaskStart(u, documents);
    for i := 0 to |documents|
      invariant MaskDocuments(u, documents) == Prepend(done, MaskDocuments(u, documents[i..]))
    {
      var content := documents[i].content;
      MaskStep(u, documents[i..], done);
      assert documents[i..][1..] == documents[i + 1..];
      var matches := Pii.RegexScan(u, content);
      if matches != [] {
        var masked := Pii.Mask(content, matches);
        if masked.Err? { return Err(masked.error); }
        content := masked.value;
      }
      done := done + [documents[i].(content := content)];
    }
    Unit(done);
    r := Ok(done);
  }

  lemma MaskStart(u: Regex.Alphabet, docs: seq<SearchResult>)
    ensures docs[0..] == docs && MaskDocuments(u, docs) == Prepend([], MaskDocuments(u, docs))
  {
    hide MaskDocuments;
    var r := MaskDocuments(u, docs);
    if r.Ok? { Unit(r.value); }
  }

  lemma MaskStep(u: Regex.Alphabet, docs: seq<SearchResult>, done: seq<SearchResult>)
    requires docs != []
    ensures var found := Pii.Scan(u, docs[0].content);
            var masked := if found == [] then Ok(docs[0].content)
                else Pii.Splice(docs[0].content, SortDesc(Pii.ByStart, found));
            Prepend(done, MaskDocuments(u, docs)) ==
            match masked
            case Err(e) => Err(e)
            case Ok(text) => Prepend(done + [docs[0].(content := text)], MaskDocuments(u, docs[1..]))
  {
    hide Pii.Scan, Pii.Splice, SortDesc;
    var rest := MaskDocuments(u, docs[1..]);
    if rest.Ok? {
      forall text: string { Assoc(done, [docs[0].(content := text)], rest.value); }
    }
  }

  /** The document holds a selected one-hyphen mobile number. */
  ghost predicate Unmaskable(u: Regex.Alphabet, d: SearchResult) {
    exists m :: m in Pii.Scan(u, d.content) && Pii.OneHyphenMobile(m)
  }

  /** The text with every selected span replaced at once. */
  ghost function MaskedText(u: Regex.Alphabet, text: string): string
    requires Pii.WellPlaced(text, Pii.Scan(u, text))
  {
    Pii.Replaced(Pii.Masked, text, Pii.Scan(u, text), 0)
  }

  lemma ScanPlaced(u: Regex.Alphabet, text: string)
    requires Regex.Sane(u)
    ensures Pii.WellPlaced(text, Pii.Scan(u, text))
  {
    Pii.ScanSound(u, text);
    hide Pii.Scan, Pii.Shaped;
  }

  lemma MaskOne(u: Regex.Alphabet, text: string)
    requires Regex.Sane(u)
    ensures Pii.WellPlaced(text, Pii.Scan(u, text))
    ensures var found := Pii.Scan(u, text);
            var r := if found == [] then Ok(text) else Pii.Splice(text, SortDesc(Pii.ByStart, found));
            if exists m :: m in found && Pii.OneHyphenMobile(m) then r.Err? else r == Ok(MaskedText(u, text))
  {
    ScanPlaced(u, text);
    Pii.MaskedScan(u, text);
    hide Pii.Scan, Pii.OneHyphenMobile, Pii.Replaced, Pii.MaskValue;
  }

  /**
   The whole request raises exactly when some document is unmaskable; otherwise each document keeps
   everything but its content, in which every selected span is replaced at once.
   */
  lemma {:induction false} MaskDocumentsSpec(u: Regex.Alphabet, docs: seq<SearchResult>)
    requires Regex.Sane(u)
    ensures forall d :: d in docs ==> Pii.WellPlaced(d.content, Pii.Scan(u, d.content))
    ensures var r := MaskDocuments(u, docs);
            && (r.Err? <==> exists d :: d in docs && Unmaskable(u, d))
            && (r.Ok? ==>
                  && |r.value| == |docs|
                  && forall i :: 0 <= i < |docs| ==> r.value[i] == docs[i].(content := MaskedText(u, docs[i].content)))
  {
    hide Pii.Scan, Pii.Splice, Pii.OneHyphenMobile, Pii.WellPlaced, MaskedText;
    if docs != [] {
      MaskOne(u, docs[0].content);
      MaskDocumentsSpec(u, docs[1..]);
      assert Unmaskable(u, docs[0]) ==> docs[0] in docs;
      forall d ensures d in docs <==> d == docs[0] || d in docs[1..] {}
    }
  }
}
