/** Keeping only the chunks of the best documents (backend/app/services/search/document_scope.py). */
module DocumentScope {
  import opened Prelude
  import opened StableSort
  import opened Results

  function DocIds(docs: seq<SearchResult>): (r: seq<Id>)
    ensures |r| == |docs| && forall i :: 0 <= i < |docs| ==> r[i] == docs[i].documentId
  {
    if docs == [] then [] else DocIds(docs[..|docs| - 1]) + [docs[|docs| - 1].documentId]
  }

  /** The chunks of one document, in order. */
  function Group(docs: seq<SearchResult>, id: Id): seq<SearchResult> {
    if docs == [] then []
    else Group(docs[..|docs| - 1], id) + if docs[|docs| - 1].documentId == id then [docs[|docs| - 1]] else []
  }

  function MaxScore(docs: seq<SearchResult>): (m: real)
    requires docs != []
    ensures forall d :: d in docs ==> d.score <= m
    ensures exists d :: d in docs && d.score == m
  {
    var last := docs[|docs| - 1];
    if |docs| == 1 then last.score
    else
      var front := MaxScore(docs[..|docs| - 1]);
      TakeSnoc(docs, |docs| - 1);
      assert forall d :: d in docs ==> d in docs[..|docs| - 1] || d == last;
      if front >= last.score then front else last.score
  }

  datatype DocScore = DocScore(id: Id, score: real)

  const ByDocScore: DocScore -> real := (s: DocScore) => s.score

  /** Each document's representative score, in the order given. */
  function DocScores(docs: seq<SearchResult>, order: seq<Id>): (r: seq<DocScore>)
    requires forall id :: id in order ==> Group(docs, id) != []
    ensures |r| == |order|
    ensures forall i :: 0 <= i < |order| ==> r[i] == DocScore(order[i], MaxScore(Group(docs, order[i])))
  {
    if order == [] then []
    else
      var last := order[|order| - 1];
      assert last in order;
      DocScores(docs, order[..|order| - 1]) + [DocScore(last, MaxScore(Group(docs, last)))]
  }

  function ScoreIds(s: seq<DocScore>): (r: seq<Id>)
    ensures |r| == |s| && forall i :: 0 <= i < |s| ==> r[i] == s[i].id
  {
    if s == [] then [] else [s[0].id] + ScoreIds(s[1..])
  }

  /** The chunks whose document is listed, in their original order. */
  function KeepIn(docs: seq<SearchResult>, ids: seq<Id>): seq<SearchResult> {
    if docs == [] then []
    else KeepIn(docs[..|docs| - 1], ids) + if docs[|docs| - 1].documentId in ids then [docs[|docs| - 1]] else []
  }

  lemma {:induction false} GroupMembers(docs: seq<SearchResult>, id: Id)
    ensures Group(docs, id) != [] <==> id in DocIds(docs)
    ensures forall d :: d in Group(docs, id) <==> d in docs && d.documentId == id
  {
    if docs != [] {
      var front, last := docs[..|docs| - 1], docs[|docs| - 1];
      GroupMembers(front, id);
      TakeSnoc(docs, |docs| - 1);
      assert docs == front + [last];
      assert DocIds(docs) == DocIds(front) + [last.documentId];
    }
  }

  function Selected(docs: seq<SearchResult>, topN: int): seq<SearchResult> {
    var order := FirstSeen(DocIds(docs));
    if docs == [] then []
    else if |order| <= topN then docs
    else
      OrderGrouped(docs);
      KeepIn(docs, ScoreIds(SliceTo(SortDesc(ByDocScore, DocScores(docs, order)), topN)))
  }

  lemma OrderGrouped(docs: seq<SearchResult>)
    ensures forall id :: id in FirstSeen(DocIds(docs)) ==> Group(docs, id) != []
  {
    FirstSeenSpec(DocIds(docs));
    forall id | id in FirstSeen(DocIds(docs)) ensures Group(docs, id) != [] { GroupMembers(docs, id); }
  }

  // ---------------------------------------------------------------- the loops

  ghost predicate Grouped(docs: seq<SearchResult>, order: seq<Id>, groups: map<Id, seq<SearchResult>>) {
    && order == FirstSeen(DocIds(docs))
    && (forall id :: id in groups <==> id in order)
    && (forall id :: id in groups ==> groups[id] == Group(docs, id))
  }

  lemma GroupedStep(docs: seq<SearchResult>, d: SearchResult, order: seq<Id>, groups: map<Id, seq<SearchResult>>)
    requires Grouped(docs, order, groups)
    ensures Grouped(docs + [d], if d.documentId in groups then order else order + [d.documentId],
                    groups[d.documentId := (if d.documentId in groups then groups[d.documentId] else []) + [d]])
  {
    hide FirstSeen, Group, DocIds;
    FirstSeenSnoc(DocIds(docs), d.documentId);
    FirstSeenSpec(DocIds(docs));
    DocIdsSnoc(docs, d);
    GroupMembers(docs, d.documentId);
    forall id: Id ensures Group(docs + [d], id) == Group(docs, id) + if d.documentId == id then [d] else [] {
      GroupSnoc(docs, d, id);
    }
  }

  lemma GroupSnoc(docs: seq<SearchResult>, d: SearchResult, id: Id)
    ensures Group(docs + [d], id) == Group(docs, id) + if d.documentId == id then [d] else []
  {
    assert (docs + [d])[..|docs + [d]| - 1] == docs;
  }

  method GroupByDocument(docs: seq<SearchResult>) returns (order: seq<Id>, groups: map<Id, seq<SearchResult>>)
    ensures Grouped(docs, order, groups)
  {
    order, groups := [], map[];
    assert Grouped(docs[..0], order, groups);
    hide Grouped;
    for i := 0 to |docs|
      invariant Grouped(docs[..i], order, groups)
    {
      var d := docs[i];
      GroupedStep(docs[..i], d, order, groups);
      TakeSnoc(docs, i);
      if d.documentId !in groups { order := order + [d.documentId]; }
      groups := groups[d.documentId := (if d.documentId in groups then groups[d.documentId] else []) + [d]];
    }
    assert docs[..|docs|] == docs;
  }

  method ScoreDocuments(docs: seq<SearchResult>, order: seq<Id>,
                        groups: map<Id, seq<SearchResult>>) returns (r: seq<DocScore>)
    requires Grouped(docs, order, groups)
    requires forall id :: id in order ==> Group(docs, id) != []
    ensures r == DocScores(docs, order)
  {
    hide *;
    r := [];
    for i := 0 to |order|
      invariant r == DocScores(docs, order[..i])
    {
      assert order[i] in order;
      GroupLookup(docs, order, groups, order[i]);
      r := r + [DocScore(order[i], MaxScore(groups[order[i]]))];
      DocScoresSnoc(docs, order, i);
    }
    assert order[..|order|] == order;
  }

  lemma GroupLookup(docs: seq<SearchResult>, order: seq<Id>, groups: map<Id, seq<SearchResult>>, id: Id)
    requires Grouped(docs, order, groups) && id in order
    ensures id in groups && groups[id] == Group(docs, id)
  {
  }

  lemma DocScoresSnoc(docs: seq<SearchResult>, order: seq<Id>, i: nat)
    requires i < |order| && forall id :: id in order ==> Group(docs, id) != []
    ensures Group(docs, order[i]) != []
    ensures DocScores(docs, order[..i + 1]) ==
            DocScores(docs, order[..i]) + [DocScore(order[i], MaxScore(Group(docs, order[i])))]
  {
    hide Group, MaxScore;
    assert order[i] in order;
    assert order[..i + 1][..i] == order[..i];
  }

  method Select(docs: seq<SearchResult>, topN: int) returns (r: seq<SearchResult>)
    ensures r == Selected(docs, topN)
  {
    hide Group, MaxScore, FirstSeen, DocIds, SortDesc, DocScores, ScoreIds;
    if docs == [] { return []; }
    var order, groups := GroupByDocument(docs);
    if |order| <= topN { return docs; }
    OrderGrouped(docs);
    var docScores := ScoreDocuments(docs, order, groups);
    var top := ScoreIds(SliceTo(SortDesc(ByDocScore, docScores), topN));
    r := KeepTop(docs, top);
  }

  method KeepTop(docs: seq<SearchResult>, top: seq<Id>) returns (r: seq<SearchResult>)
    ensures r == KeepIn(docs, top)
  {
    r := [];
    for i := 0 to |docs|
      invariant r == KeepIn(docs[..i], top)
    {
      assert docs[..i + 1][..i] == docs[..i];
      if docs[i].documentId in top { r := r + [docs[i]]; }
    }
    assert docs[..|docs|] == docs;
  }

  // ---------------------------------------------------------------- the simple rule

  /** A document's representative score; it has at least one chunk. */
  function Best(docs: seq<SearchResult>, id: Id): real
    requires Group(docs, id) != []
  {
    MaxScore(Group(docs, id))
  }

  /** On a ranked list every document already met is at least as good as the next chunk, and stays as good. */
  lemma BestIsFirst(front: seq<SearchResult>, d: SearchResult, id: Id)
    requires Ranked(front + [d]) && (Group(front, id) != [] || id == d.documentId)
    ensures Group(front + [d], id) != [] && Best(front + [d], id) >= d.score
    ensures Group(front, id) != [] ==> Best(front + [d], id) == Best(front, id)
  {
    var all := front + [d];
    assert all[..|all| - 1] == front;
    if Group(front, id) != [] {
      BestAtLeast(front, d, id);
      if d.documentId == id { MaxSnoc(Group(front, id), d); } else { Unit(Group(front, id)); }
    } else {
      assert Group(all, id) == [d];
    }
  }

  lemma BestAtLeast(front: seq<SearchResult>, d: SearchResult, id: Id)
    requires Ranked(front + [d]) && Group(front, id) != []
    ensures Best(front, id) >= d.score
  {
    GroupMembers(front, id);
    hide Group;
    var best :| best in Group(front, id) && best.score == MaxScore(Group(front, id));
    var all := front + [d];
    var i :| 0 <= i < |front| && front[i] == best;
    assert ByScore(all[i]) >= ByScore(all[|front|]);
  }

  lemma MaxSnoc(g: seq<SearchResult>, d: SearchResult)
    requires g != [] && MaxScore(g) >= d.score
    ensures MaxScore(g + [d]) == MaxScore(g)
  {
    assert (g + [d])[..|g + [d]| - 1] == g;
  }

  ghost predicate Descends(docs: seq<SearchResult>, order: seq<Id>) {
    && (forall id :: id in order ==> Group(docs, id) != [])
    && (forall i, j :: 0 <= i < j < |order| ==> Best(docs, order[i]) >= Best(docs, order[j]))
  }

  lemma DescendsStep(front: seq<SearchResult>, d: SearchResult, order: seq<Id>)
    requires Ranked(front + [d]) && Descends(front, order)
    ensures Descends(front + [d], order)
    ensures Group(front, d.documentId) == [] ==> Descends(front + [d], order + [d.documentId])
  {
    hide Group, Best;
    var all := front + [d];
    forall id | id in order
      ensures Group(all, id) != [] && Best(all, id) == Best(front, id) && Best(all, id) >= d.score
    {
      BestIsFirst(front, d, id);
    }
    BestIsFirst(front, d, d.documentId);
    if Group(front, d.documentId) == [] { NewBest(front, d); }
  }

  lemma NewBest(front: seq<SearchResult>, d: SearchResult)
    requires Group(front, d.documentId) == []
    ensures Group(front + [d], d.documentId) == [d] && Best(front + [d], d.documentId) == d.score
  {
    assert (front + [d])[..|front + [d]| - 1] == front;
  }

  /** So on a ranked list the documents' best scores, in order of first appearance, already descend. */
  lemma {:induction false} FirstSeenDescends(docs: seq<SearchResult>)
    requires Ranked(docs)
    ensures Descends(docs, FirstSeen(DocIds(docs)))
    decreases |docs|
  {
    hide Group, Best, MaxScore, Descends;
    if docs == [] {
      EmptyDescends();
    } else {
      var front, d := docs[..|docs| - 1], docs[|docs| - 1];
      assert docs == front + [d];
      RankedPrefix(docs);
      FirstSeenDescends(front);
      DescendsStep(front, d, FirstSeen(DocIds(front)));
      FirstSeenSnoc(DocIds(front), d.documentId);
      FirstSeenSpec(DocIds(front));
      GroupMembers(front, d.documentId);
    }
  }

  lemma EmptyDescends()
    ensures Descends([], FirstSeen(DocIds([])))
  {
  }

  lemma RankedPrefix(docs: seq<SearchResult>)
    requires Ranked(docs) && docs != []
    ensures Ranked(docs[..|docs| - 1])
  {
  }

  /** The rule: keep the chunks of the first documents, by first appearance. */
  function FirstDocuments(docs: seq<SearchResult>, topN: int): seq<SearchResult> {
    var order := FirstSeen(DocIds(docs));
    KeepIn(docs, order[..KeepCount(|order|, topN)])
  }

  lemma {:induction false} KeepAll(docs: seq<SearchResult>, ids: seq<Id>)
    requires forall d :: d in docs ==> d.documentId in ids
    ensures KeepIn(docs, ids) == docs
  {
    if docs != [] {
      TakeSnoc(docs, |docs| - 1);
      assert docs[|docs| - 1] in docs;
      KeepAll(docs[..|docs| - 1], ids);
    }
  }

  lemma SliceOfScores(docs: seq<SearchResult>, order: seq<Id>, topN: int)
    requires forall id :: id in order ==> Group(docs, id) != []
    ensures ScoreIds(SliceTo(DocScores(docs, order), topN)) == order[..KeepCount(|order|, topN)]
  {
  }

  /**
   On a ranked list the selection is exactly the rule, ties included: the sort by representative
   score never reorders the documents.
   */
  lemma SelectIsFirstDocuments(docs: seq<SearchResult>, topN: int)
    requires Ranked(docs)
    ensures Selected(docs, topN) == FirstDocuments(docs, topN)
  {
    hide Group, Best, MaxScore, KeepIn, FirstSeen, DocScores, ScoreIds, SortDesc;
    var order := FirstSeen(DocIds(docs));
    OrderGrouped(docs);
    FirstSeenSpec(DocIds(docs));
    if docs == [] {
      KeepAll(docs, order[..KeepCount(|order|, topN)]);
    } else if |order| <= topN {
      assert order[..|order|] == order;
      forall d | d in docs ensures d.documentId in order {
        var i :| 0 <= i < |docs| && docs[i] == d;
        assert DocIds(docs)[i] == d.documentId;
      }
      KeepAll(docs, order);
    } else {
      FirstSeenDescends(docs);
      ScoresDescend(docs, order);
      SortedIsFixed(ByDocScore, DocScores(docs, order));
      SliceOfScores(docs, order, topN);
    }
  }

  lemma ScoresDescend(docs: seq<SearchResult>, order: seq<Id>)
    requires Descends(docs, order)
    ensures SortedDesc(ByDocScore, DocScores(docs, order))
  {
    hide Group, MaxScore;
  }

  // ---------------------------------------------------------------- selecting twice

  lemma {:induction false} KeepTwice(docs: seq<SearchResult>, a: seq<Id>, b: seq<Id>)
    requires forall id :: id in b ==> id in a
    ensures KeepIn(KeepIn(docs, a), b) == KeepIn(docs, b)
  {
    if docs != [] {
      var front, d := docs[..|docs| - 1], docs[|docs| - 1];
      KeepTwice(front, a, b);
      if d.documentId in a { KeepSnoc(KeepIn(front, a), d, b); } else { Unit(KeepIn(front, a)); }
    }
  }

  lemma KeepSnoc(docs: seq<SearchResult>, d: SearchResult, ids: seq<Id>)
    ensures KeepIn(docs + [d], ids) == KeepIn(docs, ids) + if d.documentId in ids then [d] else []
  {
    assert (docs + [d])[..|docs + [d]| - 1] == docs;
  }

  lemma {:induction false} KeepMembers(docs: seq<SearchResult>, ids: seq<Id>)
    ensures forall d :: d in KeepIn(docs, ids) <==> d in docs && d.documentId in ids
  {
    if docs != [] {
      KeepMembers(docs[..|docs| - 1], ids);
      TakeSnoc(docs, |docs| - 1);
    }
  }

  lemma LastIsLowest(docs: seq<SearchResult>, x: SearchResult)
    requires Ranked(docs) && docs != [] && x in docs[..|docs| - 1]
    ensures x.score >= docs[|docs| - 1].score
  {
    var i :| 0 <= i < |docs| - 1 && docs[i] == x;
    assert ByScore(docs[i]) >= ByScore(docs[|docs| - 1]);
  }

  lemma {:induction false} KeepRanked(docs: seq<SearchResult>, ids: seq<Id>)
    requires Ranked(docs)
    ensures Ranked(KeepIn(docs, ids))
    ensures forall d :: d in KeepIn(docs, ids) <==> d in docs && d.documentId in ids
  {
    KeepMembers(docs, ids);
    if docs != [] {
      var front, d := docs[..|docs| - 1], docs[|docs| - 1];
      RankedPrefix(docs);
      KeepRanked(front, ids);
      hide Ranked;
      forall x | x in KeepIn(front, ids) ensures x.score >= d.score { LastIsLowest(docs, x); }
      RankedSnoc(KeepIn(front, ids), d);
      Unit(KeepIn(front, ids));
    }
  }

  lemma RankedSnoc(docs: seq<SearchResult>, d: SearchResult)
    requires Ranked(docs) && forall x :: x in docs ==> x.score >= d.score
    ensures Ranked(docs + [d])
  {
    var all := docs + [d];
    forall i, j | 0 <= i < j < |all| ensures ByScore(all[i]) >= ByScore(all[j]) {
      if j == |docs| { assert all[i] in docs; } else { assert ByScore(docs[i]) >= ByScore(docs[j]); }
    }
  }

  /** The listed elements of `s`, in order. */
  function Listed(s: seq<Id>, ids: seq<Id>): seq<Id> {
    if s == [] then [] else Listed(s[..|s| - 1], ids) + if s[|s| - 1] in ids then [s[|s| - 1]] else []
  }

  lemma {:induction false} KeptOrder(docs: seq<SearchResult>, ids: seq<Id>)
    ensures FirstSeen(DocIds(KeepIn(docs, ids))) == Listed(FirstSeen(DocIds(docs)), ids)
  {
    if docs != [] {
      var front, d := docs[..|docs| - 1], docs[|docs| - 1];
      KeptOrder(front, ids);
      var kept, order := KeepIn(front, ids), FirstSeen(DocIds(front));
      FirstSeenSnoc(DocIds(front), d.documentId);
      FirstSeenSnoc(DocIds(kept), d.documentId);
      ListedSnoc(order, d.documentId, ids);
      ListedMember(order, d.documentId, ids);
      DocIdsSnoc(kept, d);
      DocIdsSnoc(front, d);
      TakeSnoc(docs, |docs| - 1);
      hide *;
      KeepSnoc(front, d, ids);
      Unit(kept);
    }
  }

  lemma DocIdsSnoc(docs: seq<SearchResult>, d: SearchResult)
    ensures DocIds(docs + [d]) == DocIds(docs) + [d.documentId]
  {
    assert (docs + [d])[..|docs + [d]| - 1] == docs;
  }

  lemma ListedSnoc(s: seq<Id>, x: Id, ids: seq<Id>)
    ensures Listed(s + [x], ids) == Listed(s, ids) + if x in ids then [x] else []
  {
    assert (s + [x])[..|s + [x]| - 1] == s;
  }

  lemma {:induction false} ListedMember(s: seq<Id>, x: Id, ids: seq<Id>)
    ensures x in Listed(s, ids) <==> x in s && x in ids
  {
    if s != [] {
      ListedMember(s[..|s| - 1], x, ids);
      TakeSnoc(s, |s| - 1);
    }
  }

  lemma {:induction false} ListedPrefix(s: seq<Id>, c: nat, n: nat)
    requires NoDuplicates(s) && c <= |s| && n <= |s|
    ensures Listed(s[..n], s[..c]) == s[..Min(c, n)]
    decreases n
  {
    if n > 0 {
      ListedPrefix(s, c, n - 1);
      TakeSnoc(s, n - 1);
      ListedSnoc(s[..n - 1], s[n - 1], s[..c]);
      assert s[n - 1] in s[..c] <==> n - 1 < c;
      if n - 1 < c { assert s[..n] == s[..n - 1] + [s[n - 1]]; }
    }
  }

  /** What selecting keeps is ranked, and its documents are the first ones of the input. */
  lemma FirstDocumentsOrder(docs: seq<SearchResult>, topN: int)
    requires Ranked(docs)
    ensures var order := FirstSeen(DocIds(docs));
            var kept := FirstDocuments(docs, topN);
            Ranked(kept) && FirstSeen(DocIds(kept)) == order[..KeepCount(|order|, topN)]
  {
    hide FirstSeen, DocIds, KeepIn, Listed;
    var order := FirstSeen(DocIds(docs));
    FirstSeenSpec(DocIds(docs));
    var c := KeepCount(|order|, topN);
    KeepRanked(docs, order[..c]);
    KeptOrder(docs, order[..c]);
    ListedPrefix(order, c, |order|);
    assert order[..|order|] == order;
  }

  /**
   Selecting twice is selecting once exactly when top_n is not negative, or is so negative that
   nothing is kept: Python's slice with a negative bound drops documents again each time.
   */
  lemma SelectIdempotent(docs: seq<SearchResult>, topN: int)
    requires Ranked(docs)
    ensures Selected(Selected(docs, topN), topN) == Selected(docs, topN) <==>
              topN >= 0 || |FirstSeen(DocIds(docs))| + topN <= 0
  {
    hide FirstSeen, DocIds, KeepIn, Selected;
    var order := FirstSeen(DocIds(docs));
    var c := KeepCount(|order|, topN);
    var kept := FirstDocuments(docs, topN);
    SelectIsFirstDocuments(docs, topN);
    FirstDocumentsOrder(docs, topN);
    SelectIsFirstDocuments(kept, topN);
    FirstDocumentsOrder(kept, topN);
    assert order[..c][..KeepCount(c, topN)] == order[..KeepCount(c, topN)];
    if topN >= 0 || c == 0 {
      assert order[..c][..c] == order[..c];
      KeptAlready(docs, order[..c]);
    } else {
      assert |FirstSeen(DocIds(FirstDocuments(kept, topN)))| < |FirstSeen(DocIds(kept))|;
    }
  }

  lemma KeptAlready(docs: seq<SearchResult>, ids: seq<Id>)
    ensures KeepIn(KeepIn(docs, ids), ids) == KeepIn(docs, ids)
  {
    KeepTwice(docs, ids, ids);
  }

  lemma ThreeDocuments(docs: seq<SearchResult>)
    requires |docs| == 3
    requires NoDuplicates([docs[0].documentId, docs[1].documentId, docs[2].documentId])
    ensures |FirstSeen(DocIds(docs))| == 3
  {
    var a, b, c := docs[0].documentId, docs[1].documentId, docs[2].documentId;
    var ids := [a, b, c];
    assert DocIds(docs) == ids;
    assert ids[0] != ids[1] && ids[0] != ids[2] && ids[1] != ids[2];
    FirstSeenSnoc([], a);
    FirstSeenSnoc([a], b);
    FirstSeenSnoc([a, b], c);
    assert [] + [a] == [a] && [a] + [b] == [a, b] && [a, b] + [c] == [a, b, c];
  }

  /** It can fail: with top_n = -1 three ranked documents become two and then one. */
  lemma NegativeSelectsLess()
    ensures var docs := [SearchResult(1, 1, "", 3.0), SearchResult(2, 2, "", 2.0), SearchResult(3, 3, "", 1.0)];
            Ranked(docs) && Selected(Selected(docs, -1), -1) != Selected(docs, -1)
  {
    var docs := [SearchResult(1, 1, "", 3.0), SearchResult(2, 2, "", 2.0), SearchResult(3, 3, "", 1.0)];
    ThreeDocuments(docs);
    hide FirstSeen, DocIds, Selected;
    SelectIdempotent(docs, -1);
  }

  // ---------------------------------------------------------------- the selection, said without its loops

  /** The documents met before the first chunk of `id`. */
  ghost function Before(docs: seq<SearchResult>, id: Id): set<Id> {
    set x | x in DocIds(docs)[..FirstPlace(DocIds(docs), id)]
  }

  /** `idx` goes up through the chunks of the documents with fewer than `n` documents before them. */
  ghost predicate Picks(docs: seq<SearchResult>, n: int, idx: seq<nat>) {
    && (forall j :: 0 <= j < |idx| ==> idx[j] < |docs|)
    && (forall j, k :: 0 <= j < k < |idx| ==> idx[j] < idx[k])
    && (forall i: nat :: i < |docs| ==> (i in idx <==> |Before(docs, docs[i].documentId)| < n))
  }

  ghost predicate At(docs: seq<SearchResult>, idx: seq<nat>, r: seq<SearchResult>) {
    |r| == |idx| && forall j :: 0 <= j < |r| ==> idx[j] < |docs| && r[j] == docs[idx[j]]
  }

  /** `r` is all chunks of the first `n` documents, in order. */
  ghost predicate IsFirst(docs: seq<SearchResult>, n: int, r: seq<SearchResult>) {
    exists idx :: Picks(docs, n, idx) && At(docs, idx, r)
  }

  ghost predicate Listing(docs: seq<SearchResult>, ids: seq<Id>, idx: seq<nat>) {
    && (forall j :: 0 <= j < |idx| ==> idx[j] < |docs|)
    && (forall j, k :: 0 <= j < k < |idx| ==> idx[j] < idx[k])
    && (forall i: nat :: i < |docs| ==> (i in idx <==> docs[i].documentId in ids))
  }

  lemma {:induction false} KeptIndexes(docs: seq<SearchResult>, ids: seq<Id>) returns (idx: seq<nat>)
    ensures Listing(docs, ids, idx) && At(docs, idx, KeepIn(docs, ids))
  {
    if docs == [] { return []; }
    var n := |docs| - 1;
    var front := KeptIndexes(docs[..n], ids);
    var last := if docs[n].documentId in ids then [n] else [];
    idx := front + last;
    ListingSnoc(docs, ids, front);
    assert forall j :: 0 <= j < |front| ==> front[j] < n && docs[..n][front[j]] == docs[front[j]];
    hide Listing;
  }

  lemma ListingSnoc(docs: seq<SearchResult>, ids: seq<Id>, front: seq<nat>)
    requires docs != [] && Listing(docs[..|docs| - 1], ids, front)
    ensures Listing(docs, ids, front + if docs[|docs| - 1].documentId in ids then [|docs| - 1] else [])
  {
    var n := |docs| - 1;
    var idx := front + if docs[n].documentId in ids then [n] else [];
    forall i: nat | i < |docs| ensures i in idx <==> docs[i].documentId in ids {
      if i < n { assert docs[..n][i] == docs[i]; }
    }
  }

  /** How many documents come before the one that is number `p` in order of first appearance. */
  lemma BeforeCount(docs: seq<SearchResult>, p: nat)
    requires p < |FirstSeen(DocIds(docs))|
    ensures |Before(docs, FirstSeen(DocIds(docs))[p])| == p
  {
    var ids := DocIds(docs);
    var order := FirstSeen(ids);
    FirstSeenSpec(ids);
    FirstSeenOrder(ids);
    hide FirstSeen, FirstPlace, DocIds;
    var f := FirstPlace(ids, order[p]);
    forall x ensures x in ids[..f] <==> x in order[..p] {
      if x in ids[..f] {
        EarlierPlace(ids, x, f);
        assert x in ids && x in order;
        var q :| 0 <= q < |order| && order[q] == x;
      }
      if x in order[..p] {
        var q :| 0 <= q < p && order[q] == x;
        assert ids[FirstPlace(ids, x)] == x by { assert x in ids; PlaceOf(ids, x); }
      }
    }
    assert Before(docs, order[p]) == set x | x in order[..p];
    DistinctCount(order[..p]);
  }

  lemma EarlierPlace(s: seq<Id>, x: Id, f: nat)
    requires f <= |s| && x in s[..f]
    ensures FirstPlace(s, x) < f
  {
  }

  lemma PlaceOf(s: seq<Id>, x: Id)
    requires x in s
    ensures FirstPlace(s, x) < |s| && s[FirstPlace(s, x)] == x
  {
    assert s[..|s|] == s;
  }

  lemma {:induction false} DistinctCount(s: seq<Id>)
    requires NoDuplicates(s)
    ensures |set x | x in s| == |s|
  {
    if s != [] {
      var n := |s| - 1;
      DistinctCount(s[..n]);
      assert s == s[..n] + [s[n]];
      assert (set x | x in s) == (set x | x in s[..n]) + {s[n]};
    }
  }

  lemma InPrefix(docs: seq<SearchResult>, i: nat, c: nat)
    requires i < |docs| && c <= |FirstSeen(DocIds(docs))|
    ensures docs[i].documentId in FirstSeen(DocIds(docs))[..c] <==> |Before(docs, docs[i].documentId)| < c
  {
    hide *;
    var order, id := FirstSeen(DocIds(docs)), docs[i].documentId;
    var p := OrderOf(docs, i);
    BeforeCount(docs, p);
    FirstSeenSpec(DocIds(docs));
    OncePlaced(order, p, c);
  }

  lemma OrderOf(docs: seq<SearchResult>, i: nat) returns (p: nat)
    requires i < |docs|
    ensures p < |FirstSeen(DocIds(docs))| && FirstSeen(DocIds(docs))[p] == docs[i].documentId
  {
    var ids := DocIds(docs);
    var order := FirstSeen(ids);
    FirstSeenSpec(ids);
    assert ids[i] in ids && ids[i] in order;
    hide FirstSeen, DocIds;
    p :| 0 <= p < |order| && order[p] == ids[i];
  }

  lemma OncePlaced(s: seq<Id>, p: nat, c: nat)
    requires NoDuplicates(s) && p < |s| && c <= |s|
    ensures s[p] in s[..c] <==> p < c
  {
    if p < c { assert s[..c][p] == s[p]; }
  }

  /**
   On a ranked list and for a `top_n` that is not negative: exactly the chunks whose document has fewer
   than `top_n` documents before it, in their order.
   */
  lemma SelectKeepsFirst(docs: seq<SearchResult>, topN: int)
    requires Ranked(docs) && topN >= 0
    ensures IsFirst(docs, topN, Selected(docs, topN))
  {
    SelectIsFirstDocuments(docs, topN);
    var c := KeepCount(|FirstSeen(DocIds(docs))|, topN);
    var idx := KeptIndexes(docs, FirstSeen(DocIds(docs))[..c]);
    ListedPicks(docs, topN, idx);
    hide Selected, FirstSeen, KeepIn, DocIds, Listing, Picks, At;
  }

  lemma ListedPicks(docs: seq<SearchResult>, topN: int, idx: seq<nat>)
    requires topN >= 0
    requires var order := FirstSeen(DocIds(docs)); Listing(docs, order[..KeepCount(|order|, topN)], idx)
    ensures Picks(docs, topN, idx)
  {
    var c := KeepCount(|FirstSeen(DocIds(docs))|, topN);
    hide FirstSeen, DocIds, Before;
    forall i: nat | i < |docs| ensures i in idx <==> |Before(docs, docs[i].documentId)| < topN {
      InPrefix(docs, i, c);
      BelowAll(docs, i);
    }
  }

  lemma BelowAll(docs: seq<SearchResult>, i: nat)
    requires i < |docs|
    ensures |Before(docs, docs[i].documentId)| < |FirstSeen(DocIds(docs))|
  {
    InPrefix(docs, i, |FirstSeen(DocIds(docs))|);
    FirstSeenSpec(DocIds(docs));
    hide FirstSeen, Before;
    assert DocIds(docs)[i] == docs[i].documentId;
    var order := FirstSeen(DocIds(docs));
    assert order[..|order|] == order;
  }
}
