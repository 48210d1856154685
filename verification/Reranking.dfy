/** Rescoring with a cross encoder (backend/app/services/reranking/korean.py). */
module Reranking {
  import opened Prelude
  import opened StableSort
  import opened Results

  /** Any other mode string than "replace" behaves as calibrated. */
  datatype ScoreMode = Replace | Calibrated

  /** All that is used of the sigmoid: it never decreases and stays strictly between 0 and 1. */
  ghost predicate Squashes(sigmoid: real -> real) {
    && (forall x :: 0.0 < sigmoid(x) < 1.0)
    && (forall x, y :: x <= y ==> sigmoid(x) <= sigmoid(y))
  }

  datatype Scored = Scored(key: real, doc: SearchResult)

  const ByKey: Scored -> real := (s: Scored) => s.key

  function Zip(logits: seq<real>, docs: seq<SearchResult>): (r: seq<Scored>)
    requires |logits| == |docs|
    ensures |r| == |docs| && forall i :: 0 <= i < |docs| ==> r[i] == Scored(logits[i], docs[i])
  {
    seq(|docs|, i requires 0 <= i < |docs| => Scored(logits[i], docs[i]))
  }

  /** `doc.model_copy(update={"score": score})` on each pair. */
  function Rescore(s: seq<Scored>): (r: seq<SearchResult>)
    ensures |r| == |s| && forall i :: 0 <= i < |s| ==> r[i] == s[i].doc.(score := s[i].key)
  {
    if s == [] then [] else [s[0].doc.(score := s[0].key)] + Rescore(s[1..])
  }

  function RankScore(rank: nat): real { 1.0 / (rank + 1) as real }

  function Mix(alpha: real, p: real, x: real): real { Scale(alpha, p) + Scale(1.0 - alpha, x) }

  /** The calibrated score of the document ranked `rank` by logit. */
  function Combine(alpha: real, p: real, rank: nat): real { Mix(alpha, p, RankScore(rank)) }

  function Blend(sigmoid: real -> real, alpha: real, sorted: seq<Scored>): (r: seq<Scored>)
    ensures |r| == |sorted|
    ensures forall i :: 0 <= i < |sorted| ==> r[i] == Scored(Combine(alpha, sigmoid(sorted[i].key), i), sorted[i].doc)
  {
    seq(|sorted|, i requires 0 <= i < |sorted| => Scored(Combine(alpha, sigmoid(sorted[i].key), i), sorted[i].doc))
  }

  /** The documents by descending logit, each with its logit. */
  function ByLogit(logits: seq<real>, docs: seq<SearchResult>): seq<Scored>
    requires |logits| == |docs|
  {
    SortDesc(ByKey, Zip(logits, docs))
  }

  function Reranked(sigmoid: real -> real, logits: seq<real>, docs: seq<SearchResult>, topK: int, mode: ScoreMode,
                    alpha: real): seq<SearchResult>
    requires |logits| == |docs|
  {
    var sorted := ByLogit(logits, docs);
    match mode
    case Replace => Rescore(SliceTo(sorted, topK))
    case Calibrated => Rescore(SliceTo(SortDesc(ByKey, Blend(sigmoid, alpha, sorted)), topK))
  }

  // ---------------------------------------------------------------- the code

  datatype Indexed = Indexed(origIdx: nat, logit: real)

  const ByIndexedLogit: Indexed -> real := (x: Indexed) => x.logit

  function Fetch(s: seq<Indexed>, docs: seq<SearchResult>): (r: seq<Scored>)
    requires forall x :: x in s ==> x.origIdx < |docs|
    ensures |r| == |s| && forall i :: 0 <= i < |s| ==> r[i] == Scored(s[i].logit, docs[s[i].origIdx])
  {
    if s == [] then []
    else
      assert s[0] in s;
      [Scored(s[0].logit, docs[s[0].origIdx])] + Fetch(s[1..], docs)
  }

  lemma {:induction false} FetchInsert(x: Indexed, s: seq<Indexed>, docs: seq<SearchResult>)
    requires x.origIdx < |docs| && forall y :: y in s ==> y.origIdx < |docs|
    ensures forall y :: y in Insert(ByIndexedLogit, x, s) ==> y.origIdx < |docs|
    ensures Fetch(Insert(ByIndexedLogit, x, s), docs) == Insert(ByKey, Scored(x.logit, docs[x.origIdx]), Fetch(s, docs))
  {
    if s != [] {
      assert s[0] in s;
      FetchInsert(x, s[1..], docs);
      assert Fetch(s, docs)[1..] == Fetch(s[1..], docs);
    }
  }

  /** Sorting index-logit pairs and then fetching the documents is sorting logit-document pairs. */
  lemma {:induction false} FetchSort(s: seq<Indexed>, docs: seq<SearchResult>)
    requires forall y :: y in s ==> y.origIdx < |docs|
    ensures forall y :: y in SortDesc(ByIndexedLogit, s) ==> y.origIdx < |docs|
    ensures Fetch(SortDesc(ByIndexedLogit, s), docs) == SortDesc(ByKey, Fetch(s, docs))
  {
    if s != [] {
      assert s[0] in s;
      FetchSort(s[1..], docs);
      FetchInsert(s[0], SortDesc(ByIndexedLogit, s[1..]), docs);
      assert Fetch(s, docs)[1..] == Fetch(s[1..], docs);
    }
  }

  method Rerank(sigmoid: real -> real, rawScores: seq<real>, documents: seq<SearchResult>, topK: int, mode: ScoreMode,
                alpha: real)
    returns (r: seq<SearchResult>)
    requires |rawScores| == |documents|
    ensures r == Reranked(sigmoid, rawScores, documents, topK, mode, alpha)
  {
    if mode == Replace {
      return Rescore(SliceTo(SortDesc(ByKey, Zip(rawScores, documents)), topK));
    }
    var indexed := seq(|rawScores|, i requires 0 <= i < |rawScores| => Indexed(i, rawScores[i]));
    FetchSort(indexed, documents);
    assert Fetch(indexed, documents) == Zip(rawScores, documents);
    indexed := SortDesc(ByIndexedLogit, indexed);
    var results := BlendLoop(sigmoid, indexed, documents, alpha);
    results := SortDesc(ByKey, results);
    r := Rescore(SliceTo(results, topK));
  }

  /** The loop that ranks by logit and blends the two signals. */
  method BlendLoop(sigmoid: real -> real, indexed: seq<Indexed>, documents: seq<SearchResult>,
                   alpha: real) returns (results: seq<Scored>)
    requires forall x :: x in indexed ==> x.origIdx < |documents|
    ensures results == Blend(sigmoid, alpha, Fetch(indexed, documents))
  {
    hide Fetch, Combine;
    results := [];
    for rank := 0 to |indexed|
      invariant |results| == rank
      invariant forall i :: 0 <= i < rank ==> results[i] == Blend(sigmoid, alpha, Fetch(indexed, documents))[i]
    {
      var x := indexed[rank];
      assert x in indexed;
      var combined := Combine(alpha, sigmoid(x.logit), rank);
      results := results + [Scored(combined, documents[x.origIdx])];
    }
  }

  // ---------------------------------------------------------------- calibration keeps the order

  lemma MixMonotone(alpha: real, p: real, q: real, x: real, y: real)
    requires 0.0 <= alpha <= 1.0 && q <= p && y <= x
    ensures Mix(alpha, q, y) <= Mix(alpha, p, x)
  {
    hide Scale;
    ScaleUp(alpha, q, p);
    ScaleUp(1.0 - alpha, y, x);
  }

  lemma MixSame(alpha: real, m: real)
    ensures Mix(alpha, m, m) == m && Mix(alpha, 0.0, 1.0) == 1.0 - alpha
  {
    hide Scale;
    ScaleInto(alpha, m);
    ScaleInto(alpha, 0.0);
    ScaleInto(1.0 - alpha, 1.0);
  }

  lemma RankScores(i: nat, j: nat)
    requires i <= j
    ensures 0.0 < RankScore(j) <= RankScore(i) <= 1.0 && RankScore(0) == 1.0
  {
    Reciprocals(1.0, (i + 1) as real);
    Reciprocals((i + 1) as real, (j + 1) as real);
  }

  lemma Reciprocals(x: real, y: real)
    requires 1.0 <= x <= y
    ensures 0.0 < 1.0 / y <= 1.0 / x <= 1.0
  {
  }

  lemma CombineDescends(alpha: real, p: real, q: real, i: nat, j: nat)
    requires 0.0 <= alpha <= 1.0 && 0.0 < q <= p < 1.0 && i <= j
    ensures Combine(alpha, p, i) >= Combine(alpha, q, j)
    ensures 0.0 < Combine(alpha, p, i) <= 1.0
    ensures Combine(alpha, p, 0) >= 1.0 - alpha
  {
    hide Mix, RankScore;
    RankScores(i, j);
    var x, y := RankScore(i), RankScore(j);
    var m := MinReal(p, x);
    MixMonotone(alpha, p, q, x, y);
    MixMonotone(alpha, p, m, x, m);
    MixMonotone(alpha, 1.0, p, 1.0, x);
    MixMonotone(alpha, p, 0.0, 1.0, 1.0);
    MixSame(alpha, m);
    MixSame(alpha, 1.0);
  }

  /** The blended scores already descend in the order of the logits, so the second sort changes nothing. */
  lemma BlendDescends(sigmoid: real -> real, alpha: real, sorted: seq<Scored>)
    requires Squashes(sigmoid) && 0.0 <= alpha <= 1.0 && SortedDesc(ByKey, sorted)
    ensures SortedDesc(ByKey, Blend(sigmoid, alpha, sorted))
    ensures forall i :: 0 <= i < |sorted| ==> 0.0 < Blend(sigmoid, alpha, sorted)[i].key <= 1.0
    ensures sorted != [] ==> Blend(sigmoid, alpha, sorted)[0].key >= 1.0 - alpha
  {
    hide Combine;
    var r := Blend(sigmoid, alpha, sorted);
    forall i, j | 0 <= i <= j < |r| ensures ByKey(r[i]) >= ByKey(r[j]) && 0.0 < r[i].key <= 1.0 {
      if i < j { assert ByKey(sorted[i]) >= ByKey(sorted[j]); }
      assert sigmoid(sorted[j].key) <= sigmoid(sorted[i].key);
      CombineDescends(alpha, sigmoid(sorted[i].key), sigmoid(sorted[j].key), i, j);
    }
    if sorted != [] { CombineDescends(alpha, sigmoid(sorted[0].key), sigmoid(sorted[0].key), 0, 0); }
  }

  /** The same documents in the same order, whatever their scores. */
  ghost predicate SameOrder(a: seq<SearchResult>, b: seq<SearchResult>) {
    |a| == |b| && forall i :: 0 <= i < |a| ==> a[i].(score := 0.0) == b[i].(score := 0.0)
  }

  /**
   Calibrated mode returns the documents of replace mode in the same order for every top_k; document
   number i scores alpha * sigmoid(logit) + (1 - alpha) / (i + 1), which lies in (0, 1].
   */
  lemma CalibrationKeepsOrder(sigmoid: real -> real, logits: seq<real>, docs: seq<SearchResult>, topK: int, alpha: real)
    requires |logits| == |docs| && Squashes(sigmoid) && 0.0 <= alpha <= 1.0
    ensures var c := Reranked(sigmoid, logits, docs, topK, Calibrated, alpha);
            var r := Reranked(sigmoid, logits, docs, topK, Replace, alpha);
            && SameOrder(c, r)
            && forall i :: 0 <= i < |c| ==>
                 c[i].score == Combine(alpha, sigmoid(r[i].score), i) && 0.0 < c[i].score <= 1.0
  {
    hide Combine, SortDesc, Zip, Rescore, Blend;
    var sorted := ByLogit(logits, docs);
    SortDescSpec(ByKey, Zip(logits, docs));
    BlendDescends(sigmoid, alpha, sorted);
    var blended := Blend(sigmoid, alpha, sorted);
    SortedIsFixed(ByKey, blended);
    var a, b := SliceTo(blended, topK), SliceTo(sorted, topK);
    assert |a| == |b| && forall i :: 0 <= i < |a| ==> a[i] == blended[i] && b[i] == sorted[i];
  }

  // ---------------------------------------------------------------- which documents are kept

  /** Input `a` is preferred to input `b`: its logit is greater, or equal and it comes first. */
  ghost predicate Preferred(logits: seq<real>, a: nat, b: nat)
    requires a < |logits| && b < |logits|
  {
    logits[a] > logits[b] || (logits[a] == logits[b] && a < b)
  }

  /** `idx` lists inputs, each preferred to the inputs listed after it and to all that are not listed. */
  ghost predicate TheBest(logits: seq<real>, idx: seq<nat>) {
    && (forall i :: 0 <= i < |idx| ==> idx[i] < |logits|)
    && (forall i, j :: 0 <= i < j < |idx| ==> Preferred(logits, idx[i], idx[j]))
    && (forall i, p: nat :: 0 <= i < |idx| && p < |logits| && p !in idx ==> Preferred(logits, idx[i], p))
  }

  /** The score of the document that comes number `i`. */
  function FinalScore(sigmoid: real -> real, mode: ScoreMode, alpha: real, logit: real, i: nat): real {
    if mode == Replace then logit else alpha * sigmoid(logit) + (1.0 - alpha) * (1.0 / (i + 1) as real)
  }

  /** `r` is the documents at `idx`, in that order, each with its final score. */
  ghost predicate Takes(sigmoid: real -> real, logits: seq<real>, docs: seq<SearchResult>, mode: ScoreMode, alpha: real,
                        idx: seq<nat>, r: seq<SearchResult>)
    requires |logits| == |docs|
  {
    && |r| == |idx| && TheBest(logits, idx)
    && forall i :: 0 <= i < |r| ==>
         r[i] == docs[idx[i]].(score := FinalScore(sigmoid, mode, alpha, logits[idx[i]], i))
  }

  const ByOrigIdx: Indexed -> int := (x: Indexed) => x.origIdx

  function Pairs(logits: seq<real>): (r: seq<Indexed>)
    ensures |r| == |logits| && forall i :: 0 <= i < |r| ==> r[i] == Indexed(i, logits[i])
  {
    seq(|logits|, i requires 0 <= i < |logits| => Indexed(i, logits[i]))
  }

  function Indexes(s: seq<Indexed>): (r: seq<nat>)
    ensures |r| == |s| && forall i :: 0 <= i < |s| ==> r[i] == s[i].origIdx
  {
    seq(|s|, i requires 0 <= i < |s| => s[i].origIdx)
  }

  /** All inputs in order of preference. */
  lemma SortedPairs(logits: seq<real>)
    ensures var s := SortDesc(ByIndexedLogit, Pairs(logits));
            && |s| == |logits|
            && (forall i :: 0 <= i < |s| ==> s[i].origIdx < |logits| && s[i].logit == logits[s[i].origIdx])
            && (forall i, j :: 0 <= i < j < |s| ==> Preferred(logits, s[i].origIdx, s[j].origIdx))
            && (forall p: nat :: p < |logits| ==> Indexed(p, logits[p]) in s)
  {
    var pairs := Pairs(logits);
    var s := SortDesc(ByIndexedLogit, pairs);
    SortPlaced(ByIndexedLogit, ByOrigIdx, pairs);
    SortDescSpec(ByIndexedLogit, pairs);
    hide SortDesc, SortedDesc, AtKey;
    forall i | 0 <= i < |s| ensures s[i].origIdx < |logits| && s[i].logit == logits[s[i].origIdx] {
      assert s[i] in pairs;
    }
    forall p: nat | p < |logits| ensures Indexed(p, logits[p]) in s { assert pairs[p] in s; }
  }

  /** A prefix of all inputs in order of preference is the best of them. */
  lemma PrefixIsBest(logits: seq<real>, n: nat)
    requires n <= |logits|
    ensures var s := SortDesc(ByIndexedLogit, Pairs(logits));
            |s| == |logits| && TheBest(logits, Indexes(s)[..n])
            && forall i :: 0 <= i < |s| ==> s[i].origIdx < |logits| && s[i].logit == logits[s[i].origIdx]
  {
    var s := SortDesc(ByIndexedLogit, Pairs(logits));
    SortedPairs(logits);
    hide SortDesc, Pairs, Preferred;
    var idx := Indexes(s)[..n];
    forall i, p: nat | 0 <= i < n && p < |logits| && p !in idx ensures Preferred(logits, idx[i], p) {
      var j :| 0 <= j < |s| && s[j] == Indexed(p, logits[p]);
      assert forall k :: 0 <= k < n ==> s[k].origIdx in idx by {
        assert forall k :: 0 <= k < n ==> idx[k] == s[k].origIdx;
      }
    }
  }

  /** The sorted zip of the first mode is the sorted enumeration of the second. */
  lemma FetchedPairs(logits: seq<real>, docs: seq<SearchResult>)
    requires |logits| == |docs|
    ensures var s := SortDesc(ByIndexedLogit, Pairs(logits));
            && |s| == |docs| && |ByLogit(logits, docs)| == |docs|
            && forall i :: 0 <= i < |s| ==>
                 s[i].origIdx < |docs| && ByLogit(logits, docs)[i] == Scored(s[i].logit, docs[s[i].origIdx])
  {
    var pairs := Pairs(logits);
    forall x | x in pairs ensures x.origIdx < |docs| {
      var i :| 0 <= i < |pairs| && pairs[i] == x;
    }
    FetchSort(pairs, docs);
    assert Fetch(pairs, docs) == Zip(logits, docs);
    SortDescSpec(ByKey, Zip(logits, docs));
    var s := SortDesc(ByIndexedLogit, pairs);
    SortDescSpec(ByIndexedLogit, pairs);
    hide SortDesc, Zip, Fetch;
    forall i | 0 <= i < |s| ensures s[i].origIdx < |docs| { assert s[i] in s; }
  }

  lemma SliceScores(all: seq<Scored>, topK: int)
    ensures var r := Rescore(SliceTo(all, topK));
            && |r| == KeepCount(|all|, topK)
            && forall i :: 0 <= i < |r| ==> r[i] == all[i].doc.(score := all[i].key)
  {
    hide Rescore;
  }

  lemma BlendedScore(sigmoid: real -> real, alpha: real, logit: real, i: nat)
    ensures Combine(alpha, sigmoid(logit), i) == FinalScore(sigmoid, Calibrated, alpha, logit, i)
  {
  }

  /** The inputs by logit, each with its final score. */
  lemma SortedScores(sigmoid: real -> real, sorted: seq<Scored>, topK: int, mode: ScoreMode, alpha: real)
    requires SortedDesc(ByKey, sorted) && (mode == Calibrated ==> Squashes(sigmoid) && 0.0 <= alpha <= 1.0)
    ensures var all := if mode == Replace then sorted else SortDesc(ByKey, Blend(sigmoid, alpha, sorted));
            var r := Rescore(SliceTo(all, topK));
            && |r| == KeepCount(|sorted|, topK)
            && forall i :: 0 <= i < |r| ==>
                 r[i] == sorted[i].doc.(score := FinalScore(sigmoid, mode, alpha, sorted[i].key, i))
  {
    if mode == Replace {
      SliceScores(sorted, topK);
      hide SortedDesc, SliceTo, Rescore, KeepCount;
    } else {
      var blended := Blend(sigmoid, alpha, sorted);
      BlendDescends(sigmoid, alpha, sorted);
      SortedIsFixed(ByKey, blended);
      SliceScores(blended, topK);
      hide SortDesc, SortedDesc, Squashes, Combine, FinalScore, SliceTo, Rescore, KeepCount;
      forall i | 0 <= i < |sorted| { BlendedScore(sigmoid, alpha, sorted[i].key, i); }
    }
  }

  /** In both modes the results are the inputs in order of preference, cut to top_k. */
  lemma RankedInputs(sigmoid: real -> real, logits: seq<real>, docs: seq<SearchResult>, topK: int, mode: ScoreMode,
                     alpha: real)
    requires |logits| == |docs| && (mode == Calibrated ==> Squashes(sigmoid) && 0.0 <= alpha <= 1.0)
    ensures var s := SortDesc(ByIndexedLogit, Pairs(logits));
            var r := Reranked(sigmoid, logits, docs, topK, mode, alpha);
            && |s| == |docs| && |r| == KeepCount(|docs|, topK)
            && forall i :: 0 <= i < |r| ==>
                 && s[i].origIdx < |docs|
                 && r[i] == docs[s[i].origIdx].(score := FinalScore(sigmoid, mode, alpha, s[i].logit, i))
  {
    FetchedPairs(logits, docs);
    SortDescSpec(ByKey, Zip(logits, docs));
    SortedScores(sigmoid, ByLogit(logits, docs), topK, mode, alpha);
    assert Reranked(sigmoid, logits, docs, topK, mode, alpha) ==
           Rescore(SliceTo(if mode == Replace then ByLogit(logits, docs)
                           else SortDesc(ByKey, Blend(sigmoid, alpha, ByLogit(logits, docs))), topK));
    hide *;
  }

  /**
   What reranking keeps: the inputs with the greatest logits, ties to the earlier input, in that order,
   as many as the slice `[:top_k]` keeps, each with its own final score.
   */
  lemma KeepsTheBest(sigmoid: real -> real, logits: seq<real>, docs: seq<SearchResult>, topK: int, mode: ScoreMode,
                     alpha: real)
    requires |logits| == |docs| && (mode == Calibrated ==> Squashes(sigmoid) && 0.0 <= alpha <= 1.0)
    ensures var r := Reranked(sigmoid, logits, docs, topK, mode, alpha);
            |r| == KeepCount(|docs|, topK) && exists idx :: Takes(sigmoid, logits, docs, mode, alpha, idx, r)
  {
    RankedInputs(sigmoid, logits, docs, topK, mode, alpha);
    PrefixIsBest(logits, KeepCount(|docs|, topK));
    hide Reranked, SortDesc, FinalScore, TheBest;
    var s := SortDesc(ByIndexedLogit, Pairs(logits));
    var r := Reranked(sigmoid, logits, docs, topK, mode, alpha);
    assert Takes(sigmoid, logits, docs, mode, alpha, Indexes(s)[..|r|], r);
  }
}
