/** Reciprocal rank fusion of the vector and the keyword list (backend/app/services/search/rrf.py). */
module Rrf {
  import opened Prelude
  import opened StableSort
  import opened Results

  /** The rank constant and the two weights. */
  datatype Fusion = Fusion(k: int, vectorWeight: real, keywordWeight: real)

  /** No rank below `n` makes the denominator zero; otherwise Python raises ZeroDivisionError. */
  predicate Divides(k: int, n: nat) {
    k >= 0 || k + n < 0
  }

  function Term(weight: real, k: int, rank: nat): real
    requires k + rank + 1 != 0
  {
    weight / (k + rank + 1) as real
  }

  /** What the first `n` ranks of one list add to the score of `id`. */
  function Share(ids: seq<Id>, weight: real, k: int, id: Id, n: nat): real
    requires n <= |ids| && Divides(k, |ids|)
  {
    if n == 0 then 0.0
    else Share(ids, weight, k, id, n - 1) + if ids[n - 1] == id then Term(weight, k, n - 1) else 0.0
  }

  function Score(f: Fusion, vector: seq<Id>, keyword: seq<Id>, id: Id): real
    requires Divides(f.k, |vector|) && Divides(f.k, |keyword|)
  {
    Share(vector, f.vectorWeight, f.k, id, |vector|) + Share(keyword, f.keywordWeight, f.k, id, |keyword|)
  }

  /** The last document of the first `n` with this chunk id. */
  function LastWith(docs: seq<SearchResult>, id: Id, n: nat): (r: Option<SearchResult>)
    requires n <= |docs|
    ensures r.Some? ==> r.value in docs && r.value.chunkId == id
    ensures r.None? ==> forall i :: 0 <= i < n ==> docs[i].chunkId != id
  {
    if n == 0 then None else if docs[n - 1].chunkId == id then Some(docs[n - 1]) else LastWith(docs, id, n - 1)
  }

  /** The first document of the first `n` with this chunk id. */
  function FirstWith(docs: seq<SearchResult>, id: Id, n: nat): (r: Option<SearchResult>)
    requires n <= |docs|
    ensures r.Some? ==> r.value in docs && r.value.chunkId == id
    ensures r.None? ==> forall i :: 0 <= i < n ==> docs[i].chunkId != id
  {
    if n == 0 then None
    else
      var r := FirstWith(docs, id, n - 1);
      if r.Some? then r else if docs[n - 1].chunkId == id then Some(docs[n - 1]) else None
  }

  /** Whose content a fused chunk carries: the last vector hit, or else the first keyword hit. */
  function Original(vector: seq<SearchResult>, keyword: seq<SearchResult>, id: Id, n: nat, m: nat): Option<SearchResult>
    requires n <= |vector| && m <= |keyword|
  {
    var v := LastWith(vector, id, n);
    if v.Some? then v else FirstWith(keyword, id, m)
  }

  /** Every retrieved id has an original among the retrieved documents. */
  lemma OriginalSpec(vector: seq<SearchResult>, keyword: seq<SearchResult>, id: Id)
    requires id in Ids(vector) + Ids(keyword)
    ensures var o := Original(vector, keyword, id, |vector|, |keyword|);
            o.Some? && o.value.chunkId == id && (o.value in vector || o.value in keyword)
  {
    hide Ids, LastWith, FirstWith;
    if id in Ids(vector) {
      var i := IdPosition(vector, id);
      assert LastWith(vector, id, |vector|).Some?;
    } else {
      var i := IdPosition(keyword, id);
      assert FirstWith(keyword, id, |keyword|).Some?;
    }
  }

  /** One fused result per id, in the order given. */
  function Entries(f: Fusion, vector: seq<SearchResult>, keyword: seq<SearchResult>,
                   ids: seq<Id>): (r: seq<SearchResult>)
    requires Divides(f.k, |vector|) && Divides(f.k, |keyword|)
    requires forall id :: id in ids ==> id in Ids(vector) + Ids(keyword)
    ensures |r| == |ids|
    ensures forall i :: 0 <= i < |ids| ==>
              r[i].chunkId == ids[i] && r[i].score == Score(f, Ids(vector), Ids(keyword), ids[i])
    ensures DrawnFrom(r, vector + keyword)
  {
    if ids == [] then []
    else
      OriginalSpec(vector, keyword, ids[0]);
      var o := Original(vector, keyword, ids[0], |vector|, |keyword|).value;
      [o.(score := Score(f, Ids(vector), Ids(keyword), ids[0]))] + Entries(f, vector, keyword, ids[1..])
  }

  /** The fused list: distinct ids in first-seen order, stably sorted by score. */
  function Fused(f: Fusion, vector: seq<SearchResult>, keyword: seq<SearchResult>): seq<SearchResult>
    requires Divides(f.k, |vector|) && Divides(f.k, |keyword|)
  {
    FirstSeenSpec(Ids(vector) + Ids(keyword));
    SortDesc(ByScore, Entries(f, vector, keyword, FirstSeen(Ids(vector) + Ids(keyword))))
  }

  // ---------------------------------------------------------------- the loops

  /** The dicts `scores` and `doc_map`, and the insertion order of their keys. */
  datatype Table = Table(order: seq<Id>, scores: map<Id, real>, docMap: map<Id, SearchResult>)

  function Upsert(t: Table, result: SearchResult, amount: real, overwrite: bool): Table {
    var id := result.chunkId;
    Table(if id in t.scores then t.order else t.order + [id],
          t.scores[id := (if id in t.scores then t.scores[id] else 0.0) + amount],
          if overwrite || id !in t.docMap then t.docMap[id := result] else t.docMap)
  }

  ghost predicate Entry(f: Fusion, vector: seq<SearchResult>, keyword: seq<SearchResult>, n: nat, m: nat, t: Table,
                        id: Id)
    requires Divides(f.k, |vector|) && Divides(f.k, |keyword|) && n <= |vector| && m <= |keyword|
    requires id in t.scores <==> id in t.docMap
  {
    var score := Share(Ids(vector), f.vectorWeight, f.k, id, n) + Share(Ids(keyword), f.keywordWeight, f.k, id, m);
    var original := Original(vector, keyword, id, n, m);
    if id in t.scores then t.scores[id] == score && Some(t.docMap[id]) == original
    else score == 0.0 && original == None
  }

  /** The table after `n` vector hits and `m` keyword hits. */
  ghost predicate Tabulates(f: Fusion, vector: seq<SearchResult>, keyword: seq<SearchResult>, n: nat, m: nat, t: Table)
    requires Divides(f.k, |vector|) && Divides(f.k, |keyword|) && n <= |vector| && m <= |keyword|
  {
    && t.order == FirstSeen(Ids(vector)[..n] + Ids(keyword)[..m])
    && (forall id :: id in t.scores <==> id in t.order)
    && (forall id :: id in t.docMap <==> id in t.order)
    && (forall id :: Entry(f, vector, keyword, n, m, t, id))
  }

  lemma VectorEntry(f: Fusion, vector: seq<SearchResult>, keyword: seq<SearchResult>, n: nat, t: Table, x: Id)
    requires Divides(f.k, |vector|) && Divides(f.k, |keyword|) && n < |vector|
    requires forall id :: id in t.scores <==> id in t.docMap
    requires Entry(f, vector, keyword, n, 0, t, x)
    ensures Entry(f, vector, keyword, n + 1, 0, Upsert(t, vector[n], Term(f.vectorWeight, f.k, n), true), x)
  {
    hide Ids, Term;
  }

  lemma KeywordEntry(f: Fusion, vector: seq<SearchResult>, keyword: seq<SearchResult>, m: nat, t: Table, x: Id)
    requires Divides(f.k, |vector|) && Divides(f.k, |keyword|) && m < |keyword|
    requires forall id :: id in t.scores <==> id in t.docMap
    requires Entry(f, vector, keyword, |vector|, m, t, x)
    ensures Entry(f, vector, keyword, |vector|, m + 1, Upsert(t, keyword[m], Term(f.keywordWeight, f.k, m), false), x)
  {
    hide Ids, Term, LastWith;
  }

  lemma VectorOrder(vector: seq<Id>, n: nat)
    requires n < |vector|
    ensures var before := FirstSeen(vector[..n] + []);
            FirstSeen(vector[..n + 1] + []) == if vector[n] in before then before else before + [vector[n]]
  {
    TakeSnoc(vector, n);
    Unit(vector[..n]);
    Unit(vector[..n + 1]);
    FirstSeenSnoc(vector[..n], vector[n]);
  }

  lemma KeywordOrder(vector: seq<Id>, keyword: seq<Id>, m: nat)
    requires m < |keyword|
    ensures var before := FirstSeen(vector + keyword[..m]);
            FirstSeen(vector + keyword[..m + 1]) == if keyword[m] in before then before else before + [keyword[m]]
  {
    TakeSnoc(keyword, m);
    Assoc(vector, keyword[..m], [keyword[m]]);
    FirstSeenSnoc(vector + keyword[..m], keyword[m]);
  }

  lemma VectorHit(f: Fusion, vector: seq<SearchResult>, keyword: seq<SearchResult>, n: nat, t: Table)
    requires Divides(f.k, |vector|) && Divides(f.k, |keyword|) && n < |vector|
    requires Tabulates(f, vector, keyword, n, 0, t)
    ensures Tabulates(f, vector, keyword, n + 1, 0, Upsert(t, vector[n], Term(f.vectorWeight, f.k, n), true))
  {
    hide FirstSeen, Ids, Term, Entry;
    VectorOrder(Ids(vector), n);
    assert Ids(keyword)[..0] == [];
    var next, n' := Upsert(t, vector[n], Term(f.vectorWeight, f.k, n), true), n + 1;
    forall x: Id ensures Entry(f, vector, keyword, n', 0, next, x) {
      VectorEntry(f, vector, keyword, n, t, x);
    }
  }

  lemma KeywordHit(f: Fusion, vector: seq<SearchResult>, keyword: seq<SearchResult>, m: nat, t: Table)
    requires Divides(f.k, |vector|) && Divides(f.k, |keyword|) && m < |keyword|
    requires Tabulates(f, vector, keyword, |vector|, m, t)
    ensures Tabulates(f, vector, keyword, |vector|, m + 1, Upsert(t, keyword[m], Term(f.keywordWeight, f.k, m), false))
  {
    hide FirstSeen, Ids, Term, Entry;
    KeywordOrder(Ids(vector)[..|vector|], Ids(keyword), m);
    var next, m' := Upsert(t, keyword[m], Term(f.keywordWeight, f.k, m), false), m + 1;
    forall x: Id ensures Entry(f, vector, keyword, |vector|, m', next, x) {
      KeywordEntry(f, vector, keyword, m, t, x);
    }
  }

  /** The third loop: one entry per key, with the original's fields and the accumulated score. */
  method BuildEntries(ghost f: Fusion, ghost vector: seq<SearchResult>, ghost keyword: seq<SearchResult>, t: Table)
    returns (combined: seq<SearchResult>)
    requires Divides(f.k, |vector|) && Divides(f.k, |keyword|)
    requires Tabulates(f, vector, keyword, |vector|, |keyword|, t)
    ensures t.order == FirstSeen(Ids(vector) + Ids(keyword))
    ensures forall id :: id in t.order ==> id in Ids(vector) + Ids(keyword)
    ensures combined == Entries(f, vector, keyword, t.order)
  {
    TabulatedAll(f, vector, keyword, t);
    hide *;
    combined := [];
    for i := 0 to |t.order|
      invariant combined + Entries(f, vector, keyword, t.order[i..]) == Entries(f, vector, keyword, t.order)
    {
      var id := t.order[i];
      assert id in t.order;
      var entry := t.docMap[id].(score := t.scores[id]);
      EntriesStep(f, vector, keyword, t.order, i);
      Assoc(combined, [entry], Entries(f, vector, keyword, t.order[i + 1..]));
      combined := combined + [entry];
    }
    EntriesNil(f, vector, keyword, t.order[|t.order|..]);
    Unit(combined);
  }

  lemma EntriesNil(f: Fusion, vector: seq<SearchResult>, keyword: seq<SearchResult>, ids: seq<Id>)
    requires Divides(f.k, |vector|) && Divides(f.k, |keyword|) && ids == []
    ensures Entries(f, vector, keyword, ids) == []
  {
  }

  method Combine(vector: seq<SearchResult>, keyword: seq<SearchResult>, k: int, vectorWeight: real, keywordWeight: real)
    returns (combined: seq<SearchResult>)
    requires Divides(k, |vector|) && Divides(k, |keyword|)
    ensures combined == Fused(Fusion(k, vectorWeight, keywordWeight), vector, keyword)
  {
    ghost var f := Fusion(k, vectorWeight, keywordWeight);
    var t := Table([], map[], map[]);
    EmptyTable(f, vector, keyword);
    hide Tabulates, Upsert, Entries, SortDesc, FirstSeen, Ids;
    for rank := 0 to |vector|
      invariant Tabulates(f, vector, keyword, rank, 0, t)
    {
      VectorHit(f, vector, keyword, rank, t);
      t := Upsert(t, vector[rank], Term(vectorWeight, k, rank), true);
    }
    for rank := 0 to |keyword|
      invariant Tabulates(f, vector, keyword, |vector|, rank, t)
    {
      KeywordHit(f, vector, keyword, rank, t);
      t := Upsert(t, keyword[rank], Term(keywordWeight, k, rank), false);
    }
    combined := BuildEntries(f, vector, keyword, t);
    combined := SortDesc(ByScore, combined);
  }

  lemma EmptyTable(f: Fusion, vector: seq<SearchResult>, keyword: seq<SearchResult>)
    requires Divides(f.k, |vector|) && Divides(f.k, |keyword|)
    ensures Tabulates(f, vector, keyword, 0, 0, Table([], map[], map[]))
  {
  }

  lemma TabulatedAll(f: Fusion, vector: seq<SearchResult>, keyword: seq<SearchResult>, t: Table)
    requires Divides(f.k, |vector|) && Divides(f.k, |keyword|)
    requires Tabulates(f, vector, keyword, |vector|, |keyword|, t)
    ensures t.order == FirstSeen(Ids(vector) + Ids(keyword))
    ensures forall id :: id in t.order ==> id in Ids(vector) + Ids(keyword)
    ensures forall id :: id in t.order ==>
              && id in t.scores && t.scores[id] == Score(f, Ids(vector), Ids(keyword), id)
              && id in t.docMap && Some(t.docMap[id]) == Original(vector, keyword, id, |vector|, |keyword|)
  {
    assert Ids(vector)[..|vector|] == Ids(vector) && Ids(keyword)[..|keyword|] == Ids(keyword);
    FirstSeenSpec(Ids(vector) + Ids(keyword));
    hide FirstSeen, Ids;
    forall id | id in t.order
      ensures t.scores[id] == Score(f, Ids(vector), Ids(keyword), id)
      ensures Some(t.docMap[id]) == Original(vector, keyword, id, |vector|, |keyword|)
    {
      assert Entry(f, vector, keyword, |vector|, |keyword|, t, id);
    }
  }

  lemma EntriesStep(f: Fusion, vector: seq<SearchResult>, keyword: seq<SearchResult>, ids: seq<Id>, i: nat)
    requires Divides(f.k, |vector|) && Divides(f.k, |keyword|) && i < |ids|
    requires forall id :: id in ids ==> id in Ids(vector) + Ids(keyword)
    ensures Original(vector, keyword, ids[i], |vector|, |keyword|).Some?
    ensures Entries(f, vector, keyword, ids[i..]) ==
            [Original(vector, keyword, ids[i], |vector|, |keyword|).value
              .(score := Score(f, Ids(vector), Ids(keyword), ids[i]))]
              + Entries(f, vector, keyword, ids[i + 1..])
  {
    OriginalSpec(vector, keyword, ids[i]);
    hide Original, Score, Ids;
    assert ids[i..][0] == ids[i] && ids[i..][1..] == ids[i + 1..];
  }

  // ---------------------------------------------------------------- conservation

  /** The weight that a list of `n` ranks hands out. */
  function Weights(weight: real, k: int, n: nat): real
    requires Divides(k, n)
  {
    WeightsUpTo(weight, k, n, n)
  }

  function WeightsUpTo(weight: real, k: int, n: nat, i: nat): real
    requires i <= n && Divides(k, n)
  {
    if i == 0 then 0.0 else WeightsUpTo(weight, k, n, i - 1) + Term(weight, k, i - 1)
  }

  function SumShares(keys: seq<Id>, ids: seq<Id>, weight: real, k: int, n: nat): real
    requires n <= |ids| && Divides(k, |ids|)
    decreases |keys|
  {
    if keys == [] then 0.0 else Share(ids, weight, k, keys[0], n) + SumShares(keys[1..], ids, weight, k, n)
  }

  lemma {:induction false} SharesStep(keys: seq<Id>, ids: seq<Id>, weight: real, k: int, n: nat)
    requires 0 < n <= |ids| && Divides(k, |ids|) && NoDuplicates(keys)
    ensures SumShares(keys, ids, weight, k, n) ==
            SumShares(keys, ids, weight, k, n - 1) + if ids[n - 1] in keys then Term(weight, k, n - 1) else 0.0
    decreases |keys|
  {
    hide Term;
    if keys != [] {
      SharesStep(keys[1..], ids, weight, k, n);
      assert ids[n - 1] in keys <==> ids[n - 1] == keys[0] || ids[n - 1] in keys[1..];
    }
  }

  lemma {:induction false} SharesAddUp(keys: seq<Id>, ids: seq<Id>, weight: real, k: int, n: nat)
    requires n <= |ids| && Divides(k, |ids|) && NoDuplicates(keys)
    requires forall id :: id in ids ==> id in keys
    ensures SumShares(keys, ids, weight, k, n) == WeightsUpTo(weight, k, |ids|, n)
    decreases n
  {
    if n == 0 {
      SharesEmpty(keys, ids, weight, k);
    } else {
      SharesAddUp(keys, ids, weight, k, n - 1);
      SharesStep(keys, ids, weight, k, n);
      assert ids[n - 1] in ids;
    }
  }

  lemma {:induction false} SharesEmpty(keys: seq<Id>, ids: seq<Id>, weight: real, k: int)
    requires Divides(k, |ids|)
    ensures SumShares(keys, ids, weight, k, 0) == 0.0
    decreases |keys|
  {
    if keys != [] { SharesEmpty(keys[1..], ids, weight, k); }
  }

  lemma {:induction false} EntriesSum(f: Fusion, vector: seq<SearchResult>, keyword: seq<SearchResult>, ids: seq<Id>)
    requires Divides(f.k, |vector|) && Divides(f.k, |keyword|)
    requires forall id :: id in ids ==> id in Ids(vector) + Ids(keyword)
    ensures Sum(Entries(f, vector, keyword, ids)) ==
            SumShares(ids, Ids(vector), f.vectorWeight, f.k, |vector|)
                + SumShares(ids, Ids(keyword), f.keywordWeight, f.k, |keyword|)
    decreases |ids|
  {
    if ids != [] {
      EntriesSum(f, vector, keyword, ids[1..]);
      EntriesStep(f, vector, keyword, ids, 0);
      assert ids[0..] == ids;
      hide Entries, Original, Share;
      ConcatTail([Original(vector, keyword, ids[0], |vector|, |keyword|).value
                    .(score := Score(f, Ids(vector), Ids(keyword), ids[0]))],
                 Entries(f, vector, keyword, ids[1..]));
    }
  }

  /** Conservation: the fused scores add up to the weights handed out by the two lists, repeated ids or not. */
  lemma ScoresAreConserved(f: Fusion, vector: seq<SearchResult>, keyword: seq<SearchResult>)
    requires Divides(f.k, |vector|) && Divides(f.k, |keyword|)
    ensures Sum(Fused(f, vector, keyword)) ==
            Weights(f.vectorWeight, f.k, |vector|) + Weights(f.keywordWeight, f.k, |keyword|)
  {
    var all := Ids(vector) + Ids(keyword);
    var keys := FirstSeen(all);
    FirstSeenSpec(all);
    hide Ids, FirstSeen, Entries, SumShares, SortDesc, Sum;
    SortSum(Entries(f, vector, keyword, keys));
    EntriesSum(f, vector, keyword, keys);
    SharesAddUp(keys, Ids(vector), f.vectorWeight, f.k, |vector|);
    SharesAddUp(keys, Ids(keyword), f.keywordWeight, f.k, |keyword|);
  }

  // ---------------------------------------------------------------- dominance and bounds

  /** The fused list: distinct chunks, ranked, drawn from the two lists, each id with its score. */
  lemma FusedSpec(f: Fusion, vector: seq<SearchResult>, keyword: seq<SearchResult>)
    requires Divides(f.k, |vector|) && Divides(f.k, |keyword|)
    ensures var r := Fused(f, vector, keyword);
            && DistinctChunks(r) && Ranked(r) && DrawnFrom(r, vector + keyword)
            && (forall d :: d in r ==> d.score == Score(f, Ids(vector), Ids(keyword), d.chunkId))
            && (forall id :: id in Ids(vector) || id in Ids(keyword) <==> id in Ids(r))
  {
    var all := Ids(vector) + Ids(keyword);
    var keys := FirstSeen(all);
    FirstSeenSpec(all);
    hide FirstSeen, Entries, SortDesc, Ids, Score;
    var entries := Entries(f, vector, keyword, keys);
    SortDistinct(entries);
    forall d ensures d in SortDesc(ByScore, entries) <==> d in entries { SortMember(ByScore, entries, d); }
    forall id ensures id in Ids(vector) || id in Ids(keyword) <==> id in Ids(Fused(f, vector, keyword)) {
      SameIdMembers(entries, SortDesc(ByScore, entries), id);
      if id in keys {
        var i :| 0 <= i < |keys| && keys[i] == id;
        assert entries[i].chunkId == id && Ids(entries)[i] == id;
      }
      if id in Ids(entries) {
        var i :| 0 <= i < |entries| && Ids(entries)[i] == id;
        assert keys[i] == id;
      }
    }
  }

  lemma SameIdMembers(a: seq<SearchResult>, b: seq<SearchResult>, id: Id)
    requires forall d :: d in a <==> d in b
    ensures id in Ids(a) <==> id in Ids(b)
  {
    hide Ids;
    if id in Ids(a) {
      var i :| 0 <= i < |a| && Ids(a)[i] == id;
      assert a[i] in b;
      var j :| 0 <= j < |b| && b[j] == a[i];
      assert Ids(b)[j] == id;
    }
    if id in Ids(b) {
      var i :| 0 <= i < |b| && Ids(b)[i] == id;
      assert b[i] in a;
      var j :| 0 <= j < |a| && a[j] == b[i];
      assert Ids(a)[j] == id;
    }
  }

  /** An id that a list holds once, at rank `r`, gets exactly that rank's term; one it does not hold gets nothing. */
  lemma {:induction false} ShareAtRank(ids: seq<Id>, weight: real, k: int, id: Id, n: nat)
    requires n <= |ids| && Divides(k, |ids|) && NoDuplicates(ids)
    ensures id !in ids[..n] ==> Share(ids, weight, k, id, n) == 0.0
    ensures forall r: nat :: r < n && ids[r] == id ==> Share(ids, weight, k, id, n) == Term(weight, k, r)
    decreases n
  {
    hide Term;
    if n > 0 {
      ShareAtRank(ids, weight, k, id, n - 1);
      TakeSnoc(ids, n - 1);
    }
  }

  lemma TermOrder(weight: real, k: int, a: nat, b: nat)
    requires k >= 0 && weight > 0.0 && a < b
    ensures Term(weight, k, a) > Term(weight, k, b) > 0.0
  {
    var x, y := (k + a + 1) as real, (k + b + 1) as real;
    assert 0.0 < x < y;
    assert Term(weight, k, a) * x == weight && Term(weight, k, b) * y == weight;
    QuotientOrder(weight, x, y);
  }

  lemma QuotientOrder(w: real, x: real, y: real)
    requires w > 0.0 && 0.0 < x < y
    ensures w / x > w / y > 0.0
  {
  }

  /** `a` is ranked above `b` in `ids`. */
  ghost predicate Above(ids: seq<Id>, a: Id, b: Id) {
    exists i, j :: 0 <= i < j < |ids| && ids[i] == a && ids[j] == b
  }

  lemma ShareDominates(ids: seq<Id>, weight: real, k: int, a: Id, b: Id)
    requires k >= 0 && weight > 0.0 && NoDuplicates(ids) && a != b
    requires b in ids ==> Above(ids, a, b)
    ensures var n := |ids|;
            && Share(ids, weight, k, a, n) >= Share(ids, weight, k, b, n) >= 0.0
            && (b in ids ==> Share(ids, weight, k, a, n) > Share(ids, weight, k, b, n))
  {
    hide Share, Term;
    ShareAtRank(ids, weight, k, a, |ids|);
    ShareAtRank(ids, weight, k, b, |ids|);
    assert ids[..|ids|] == ids;
    if b in ids {
      var i, j :| 0 <= i < j < |ids| && ids[i] == a && ids[j] == b;
      TermOrder(weight, k, i, j);
    } else if a in ids {
      var i :| 0 <= i < |ids| && ids[i] == a;
      TermOrder(weight, k, i, i + 1);
    }
  }

  /**
   Dominance: with unique ids and positive weights, a chunk ranked above another in every list that
   holds the other comes before it in the fused list, with a strictly greater score.
   */
  lemma Dominance(f: Fusion, vector: seq<SearchResult>, keyword: seq<SearchResult>, a: Id, b: Id)
    requires f.k >= 0 && f.vectorWeight > 0.0 && f.keywordWeight > 0.0
    requires DistinctChunks(vector) && DistinctChunks(keyword) && a != b
    requires b in Ids(vector) || b in Ids(keyword)
    requires b in Ids(vector) ==> Above(Ids(vector), a, b)
    requires b in Ids(keyword) ==> Above(Ids(keyword), a, b)
    ensures Score(f, Ids(vector), Ids(keyword), a) > Score(f, Ids(vector), Ids(keyword), b)
    ensures Above(Ids(Fused(f, vector, keyword)), a, b)
  {
    var vs, ks, r := Ids(vector), Ids(keyword), Fused(f, vector, keyword);
    hide Ids, Share, Fused;
    DistinctIds(vector);
    DistinctIds(keyword);
    ShareDominates(vs, f.vectorWeight, f.k, a, b);
    ShareDominates(ks, f.keywordWeight, f.k, a, b);
    FusedSpec(f, vector, keyword);
    assert a in Ids(r) && b in Ids(r);
    var i :| 0 <= i < |r| && Ids(r)[i] == a;
    var j :| 0 <= j < |r| && Ids(r)[j] == b;
    assert r[i] in r && r[j] in r;
    assert r[i].score > r[j].score;
    RankedOrder(r, i, j);
  }

  lemma TermBound(weight: real, k: int, r: nat)
    requires k >= 0 && weight >= 0.0
    ensures 0.0 <= Term(weight, k, r) <= Term(weight, k, 0)
  {
    if weight > 0.0 && r > 0 { TermOrder(weight, k, 0, r); }
    if weight > 0.0 { TermOrder(weight, k, 0, 1); }
  }

  lemma ShareBound(ids: seq<Id>, weight: real, k: int, id: Id)
    requires k >= 0 && weight >= 0.0 && NoDuplicates(ids)
    ensures 0.0 <= Share(ids, weight, k, id, |ids|) <= Term(weight, k, 0)
  {
    hide Term, Share;
    ShareAtRank(ids, weight, k, id, |ids|);
    TermBound(weight, k, 0);
    assert ids[..|ids|] == ids;
    if id in ids {
      var i :| 0 <= i < |ids| && ids[i] == id;
      TermBound(weight, k, i);
    }
  }

  /** With unique ids in each list no fused score exceeds the two weights at the first rank. */
  lemma FusedScoreBound(f: Fusion, vector: seq<SearchResult>, keyword: seq<SearchResult>, d: SearchResult)
    requires f.k >= 0 && f.vectorWeight >= 0.0 && f.keywordWeight >= 0.0
    requires DistinctChunks(vector) && DistinctChunks(keyword) && d in Fused(f, vector, keyword)
    ensures 0.0 <= d.score <= (f.vectorWeight + f.keywordWeight) / (f.k + 1) as real
  {
    hide Ids, Share, Fused;
    DistinctIds(vector);
    DistinctIds(keyword);
    FusedSpec(f, vector, keyword);
    ShareBound(Ids(vector), f.vectorWeight, f.k, d.chunkId);
    ShareBound(Ids(keyword), f.keywordWeight, f.k, d.chunkId);
    QuotientAdds(f.vectorWeight, f.keywordWeight, (f.k + 1) as real);
  }

  lemma QuotientAdds(a: real, b: real, x: real)
    requires x > 0.0
    ensures a / x + b / x == (a + b) / x
  {
  }

  // ---------------------------------------------------------------- the fused list, said without the tables

  /** What a list whose ranks start at `k` awards to `id`: weight / (k + 1) for its first hit, and so on. */
  function Awarded(docs: seq<SearchResult>, weight: real, k: int, id: Id): real
    requires Divides(k, |docs|)
  {
    if docs == [] then 0.0
    else
      (if docs[0].chunkId == id then weight / (k + 1) as real else 0.0) + Awarded(docs[1..], weight, k + 1, id)
  }

  lemma {:induction false} AwardedSnoc(docs: seq<SearchResult>, n: nat, weight: real, k: int, id: Id)
    requires n < |docs| && Divides(k, |docs|)
    ensures Divides(k, n) && Divides(k, n + 1) && k + n + 1 != 0
    ensures Awarded(docs[..n + 1], weight, k, id) ==
            Awarded(docs[..n], weight, k, id) + if docs[n].chunkId == id then weight / (k + n + 1) as real else 0.0
    decreases n
  {
    if n == 0 {
      assert docs[..1] == [docs[0]] && docs[..1][1..] == [];
    } else {
      AwardedSnoc(docs[1..], n - 1, weight, k + 1, id);
      assert docs[..n + 1][1..] == docs[1..][..n] && docs[..n][1..] == docs[1..][..n - 1];
      assert docs[1..][n - 1] == docs[n];
    }
  }

  lemma {:induction false} ShareIsAwarded(docs: seq<SearchResult>, weight: real, k: int, id: Id, n: nat)
    requires n <= |docs| && Divides(k, |docs|)
    ensures Divides(k, n) && Share(Ids(docs), weight, k, id, n) == Awarded(docs[..n], weight, k, id)
  {
    if n > 0 {
      hide Awarded;
      ShareIsAwarded(docs, weight, k, id, n - 1);
      AwardedSnoc(docs, n - 1, weight, k, id);
    } else {
      assert docs[..0] == [];
    }
  }

  lemma ScoreIsAwarded(f: Fusion, vector: seq<SearchResult>, keyword: seq<SearchResult>, id: Id)
    requires Divides(f.k, |vector|) && Divides(f.k, |keyword|)
    ensures Score(f, Ids(vector), Ids(keyword), id) ==
            Awarded(vector, f.vectorWeight, f.k, id) + Awarded(keyword, f.keywordWeight, f.k, id)
  {
    hide Awarded, Share;
    ShareIsAwarded(vector, f.vectorWeight, f.k, id, |vector|);
    ShareIsAwarded(keyword, f.keywordWeight, f.k, id, |keyword|);
    assert vector[..|vector|] == vector && keyword[..|keyword|] == keyword;
  }

  /** `d` carries what the last vector hit with its id carries, or without one the first keyword hit. */
  ghost predicate CarriedBy(vector: seq<SearchResult>, keyword: seq<SearchResult>, d: SearchResult) {
    || (exists i :: 0 <= i < |vector| && d == vector[i].(score := d.score)
          && forall j :: i < j < |vector| ==> vector[j].chunkId != d.chunkId)
    || ((forall j :: 0 <= j < |vector| ==> vector[j].chunkId != d.chunkId)
        && exists i :: 0 <= i < |keyword| && d == keyword[i].(score := d.score)
             && forall j :: 0 <= j < i ==> keyword[j].chunkId != d.chunkId)
  }

  lemma {:induction false} LastWithIs(docs: seq<SearchResult>, id: Id, n: nat)
    requires n <= |docs|
    ensures var r := LastWith(docs, id, n);
            if r.None? then forall j :: 0 <= j < n ==> docs[j].chunkId != id
            else exists i :: 0 <= i < n && docs[i] == r.value && forall j :: i < j < n ==> docs[j].chunkId != id
  {
    if n > 0 { LastWithIs(docs, id, n - 1); }
  }

  lemma {:induction false} FirstWithIs(docs: seq<SearchResult>, id: Id, n: nat)
    requires n <= |docs|
    ensures var r := FirstWith(docs, id, n);
            r.Some? ==> exists i :: 0 <= i < n && docs[i] == r.value && forall j :: 0 <= j < i ==> docs[j].chunkId != id
  {
    if n > 0 { FirstWithIs(docs, id, n - 1); }
  }

  lemma OriginalCarries(vector: seq<SearchResult>, keyword: seq<SearchResult>, id: Id, score: real)
    requires Original(vector, keyword, id, |vector|, |keyword|).Some?
    ensures var o := Original(vector, keyword, id, |vector|, |keyword|).value;
            o.chunkId == id && CarriedBy(vector, keyword, o.(score := score))
  {
    LastWithIs(vector, id, |vector|);
    FirstWithIs(keyword, id, |keyword|);
    var o := Original(vector, keyword, id, |vector|, |keyword|).value;
    var d := o.(score := score);
    if LastWith(vector, id, |vector|).Some? {
      var i :| 0 <= i < |vector| && vector[i] == o && forall j :: i < j < |vector| ==> vector[j].chunkId != id;
      assert d == vector[i].(score := d.score);
    } else {
      var i :| 0 <= i < |keyword| && keyword[i] == o && forall j :: 0 <= j < i ==> keyword[j].chunkId != id;
      assert d == keyword[i].(score := d.score);
    }
  }

  lemma {:induction false} EntriesCarry(f: Fusion, vector: seq<SearchResult>, keyword: seq<SearchResult>, ids: seq<Id>)
    requires Divides(f.k, |vector|) && Divides(f.k, |keyword|)
    requires forall id :: id in ids ==> id in Ids(vector) + Ids(keyword)
    ensures forall i :: 0 <= i < |ids| ==> CarriedBy(vector, keyword, Entries(f, vector, keyword, ids)[i])
    decreases |ids|
  {
    if ids != [] {
      OriginalSpec(vector, keyword, ids[0]);
      OriginalCarries(vector, keyword, ids[0], Score(f, Ids(vector), Ids(keyword), ids[0]));
      EntriesCarry(f, vector, keyword, ids[1..]);
      hide CarriedBy, Original, Score, Ids;
    }
  }

  lemma FusedIsSorted(f: Fusion, vector: seq<SearchResult>, keyword: seq<SearchResult>)
    requires Divides(f.k, |vector|) && Divides(f.k, |keyword|)
    ensures var all := Ids(vector) + Ids(keyword);
            && (forall id :: id in FirstSeen(all) ==> id in all)
            && Fused(f, vector, keyword) == SortDesc(ByScore, Entries(f, vector, keyword, FirstSeen(all)))
  {
    FirstSeenSpec(Ids(vector) + Ids(keyword));
    hide FirstSeen, Ids, SortDesc, Entries;
  }

  lemma FusedInOrder(f: Fusion, vector: seq<SearchResult>, keyword: seq<SearchResult>)
    requires Divides(f.k, |vector|) && Divides(f.k, |keyword|)
    ensures RankedByPlace(Ids(vector) + Ids(keyword), Fused(f, vector, keyword))
  {
    hide *;
    FusedIsSorted(f, vector, keyword);
    var all := Ids(vector) + Ids(keyword);
    FirstSeenOrder(all);
    var keys := FirstSeen(all);
    var entries := Entries(f, vector, keyword, keys);
    forall i, j | 0 <= i < j < |entries|
      ensures FirstPlace(all, entries[i].chunkId) < FirstPlace(all, entries[j].chunkId)
    {
      assert entries[i].chunkId == keys[i] && entries[j].chunkId == keys[j];
    }
    SortByPlace(all, entries);
  }

  lemma FusedIsEntry(f: Fusion, vector: seq<SearchResult>, keyword: seq<SearchResult>, d: SearchResult)
    requires Divides(f.k, |vector|) && Divides(f.k, |keyword|) && d in Fused(f, vector, keyword)
    ensures CarriedBy(vector, keyword, d)
  {
    var all := Ids(vector) + Ids(keyword);
    FirstSeenSpec(all);
    var keys := FirstSeen(all);
    var entries := Entries(f, vector, keyword, keys);
    EntriesCarry(f, vector, keyword, keys);
    SortMember(ByScore, entries, d);
    hide *;
    var i :| 0 <= i < |entries| && entries[i] == d;
  }

  /**
   The whole fused list: each retrieved id once, with the sum of weight / (k + rank + 1) over its hits,
   the content of its last vector hit or else its first keyword hit, in order of score and then of
   first appearance.
   */
  lemma FusedMeaning(f: Fusion, vector: seq<SearchResult>, keyword: seq<SearchResult>)
    requires Divides(f.k, |vector|) && Divides(f.k, |keyword|)
    ensures var r := Fused(f, vector, keyword);
            && (forall d :: d in r ==>
                  && d.score == Awarded(vector, f.vectorWeight, f.k, d.chunkId)
                                  + Awarded(keyword, f.keywordWeight, f.k, d.chunkId)
                  && CarriedBy(vector, keyword, d))
            && RankedByPlace(Ids(vector) + Ids(keyword), r)
  {
    FusedSpec(f, vector, keyword);
    FusedInOrder(f, vector, keyword);
    hide *;
    forall d | d in Fused(f, vector, keyword)
      ensures d.score == Awarded(vector, f.vectorWeight, f.k, d.chunkId)
                           + Awarded(keyword, f.keywordWeight, f.k, d.chunkId)
      ensures CarriedBy(vector, keyword, d)
    {
      FusedIsEntry(f, vector, keyword, d);
      ScoreIsAwarded(f, vector, keyword, d.chunkId);
    }
  }
}
