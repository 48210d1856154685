/** Search results, and the facts about lists of them that the ranking stages share. */
module Results {
  import opened Prelude
  import opened StableSort

  type Id = int

  datatype SearchResult = SearchResult(chunkId: Id, documentId: Id, content: string, score: real)

  const ByScore: SearchResult -> real := (r: SearchResult) => r.score

  function Ids(docs: seq<SearchResult>): (r: seq<Id>)
    ensures |r| == |docs| && forall i :: 0 <= i < |docs| ==> r[i] == docs[i].chunkId
  {
    if docs == [] then [] else [docs[0].chunkId] + Ids(docs[1..])
  }

  lemma {:induction false} IdPosition(docs: seq<SearchResult>, id: Id) returns (i: nat)
    requires id in Ids(docs)
    ensures i < |docs| && docs[i].chunkId == id
  {
    if docs[0].chunkId == id {
      i := 0;
    } else {
      i := IdPosition(docs[1..], id);
      i := i + 1;
    }
  }

  ghost predicate DistinctChunks(docs: seq<SearchResult>) {
    forall i, j :: 0 <= i < j < |docs| ==> docs[i].chunkId != docs[j].chunkId
  }

  ghost predicate Ranked(docs: seq<SearchResult>) {
    SortedDesc(ByScore, docs)
  }

  lemma RankedOrder(docs: seq<SearchResult>, i: nat, j: nat)
    requires Ranked(docs) && i < |docs| && j < |docs| && docs[i].score > docs[j].score
    ensures i < j
  {
  }

  /** Every document of `docs` is one of `pool`, up to its score. */
  ghost predicate DrawnFrom(docs: seq<SearchResult>, pool: seq<SearchResult>) {
    forall d :: d in docs ==> exists p :: p in pool && d == p.(score := d.score)
  }

  /** The distinct elements of `s` in order of first appearance: the keys of a Python dict filled from `s`. */
  function FirstSeen(s: seq<Id>): seq<Id> {
    if s == [] then []
    else
      var front, last := FirstSeen(s[..|s| - 1]), s[|s| - 1];
      if last in front then front else front + [last]
  }

  lemma {:induction false} FirstSeenSpec(s: seq<Id>)
    ensures NoDuplicates(FirstSeen(s))
    ensures forall x :: x in FirstSeen(s) <==> x in s
  {
    if s != [] {
      FirstSeenSpec(s[..|s| - 1]);
      var front, last := FirstSeen(s[..|s| - 1]), s[|s| - 1];
      TakeSnoc(s, |s| - 1);
      forall x ensures x in FirstSeen(s) <==> x in s {
        assert x in s <==> x in s[..|s| - 1] || x == last;
      }
    }
  }

  lemma FirstSeenSnoc(s: seq<Id>, x: Id)
    ensures FirstSeen(s + [x]) == if x in FirstSeen(s) then FirstSeen(s) else FirstSeen(s) + [x]
  {
    assert (s + [x])[..|s + [x]| - 1] == s;
  }

  /** Where `id` first occurs; the length of `s` if it does not. */
  function FirstPlace(s: seq<Id>, id: Id): (i: nat)
    ensures i <= |s| && (i < |s| ==> s[i] == id) && id !in s[..i]
  {
    if s == [] || s[0] == id then 0
    else
      var i := 1 + FirstPlace(s[1..], id);
      assert s[..i] == [s[0]] + s[1..][..i - 1];
      i
  }

  lemma {:induction false} FirstPlaceIs(s: seq<Id>, id: Id, i: nat)
    requires i <= |s| && id !in s[..i] && (i < |s| ==> s[i] == id)
    ensures FirstPlace(s, id) == i
  {
    if i > 0 {
      assert s[0] in s[..i] && s[..i][1..] == s[1..][..i - 1];
      FirstPlaceIs(s[1..], id, i - 1);
    }
  }

  lemma FirstPlaceSnoc(s: seq<Id>, last: Id, x: Id)
    requires x in s || x == last
    ensures FirstPlace(s + [last], x) == if x in s then FirstPlace(s, x) else |s|
    ensures x in s ==> FirstPlace(s, x) < |s|
  {
    var p, t := FirstPlace(s, x), s + [last];
    assert s[..|s|] == s;
    assert t[..p] == s[..p];
    hide FirstPlace;
    if x in s { FirstPlaceIs(t, x, p); } else { FirstPlaceIs(t, x, |s|); }
  }

  /** The order of first appearance. */
  lemma {:induction false} FirstSeenOrder(s: seq<Id>)
    ensures var r := FirstSeen(s);
            forall i, j :: 0 <= i < j < |r| ==> FirstPlace(s, r[i]) < FirstPlace(s, r[j])
  {
    if s != [] {
      var front, last, r := s[..|s| - 1], s[|s| - 1], FirstSeen(s);
      FirstSeenOrder(front);
      FirstSeenSpec(front);
      TakeSnoc(s, |s| - 1);
      assert s == front + [last];
      hide FirstPlace;
      forall x | x in front || x == last
        ensures FirstPlace(s, x) == (if x in front then FirstPlace(front, x) else |front|)
        ensures x in front ==> FirstPlace(front, x) < |front|
      {
        FirstPlaceSnoc(front, last, x);
      }
      forall i, j | 0 <= i < j < |r| ensures FirstPlace(s, r[i]) < FirstPlace(s, r[j]) {
        assert r[i] == FirstSeen(front)[i];
        assert r[i] in FirstSeen(front);
        if j < |FirstSeen(front)| { assert r[j] in FirstSeen(front); }
      }
    }
  }

  /** By descending score, and where scores are equal by the place of the chunk id in `all`. */
  ghost predicate RankedByPlace(all: seq<Id>, r: seq<SearchResult>) {
    forall i, j :: 0 <= i < j < |r| ==>
      || r[i].score > r[j].score
      || (r[i].score == r[j].score && FirstPlace(all, r[i].chunkId) < FirstPlace(all, r[j].chunkId))
  }

  lemma SortByPlace(all: seq<Id>, docs: seq<SearchResult>)
    requires forall i, j :: 0 <= i < j < |docs| ==> FirstPlace(all, docs[i].chunkId) < FirstPlace(all, docs[j].chunkId)
    ensures RankedByPlace(all, SortDesc(ByScore, docs))
  {
    hide FirstPlace, SortDesc;
    SortPlaced(ByScore, (d: SearchResult) => FirstPlace(all, d.chunkId), docs);
  }

  lemma DistinctIds(docs: seq<SearchResult>)
    ensures DistinctChunks(docs) <==> NoDuplicates(Ids(docs))
  {
  }

  function Sum(docs: seq<SearchResult>): real {
    if docs == [] then 0.0 else docs[0].score + Sum(docs[1..])
  }

  lemma {:induction false} InsertSum(x: SearchResult, docs: seq<SearchResult>)
    ensures Sum(Insert(ByScore, x, docs)) == x.score + Sum(docs)
  {
    if docs == [] || docs[0].score <= x.score {
      ConcatTail([x], docs);
    } else {
      InsertSum(x, docs[1..]);
      ConcatTail([docs[0]], Insert(ByScore, x, docs[1..]));
    }
  }

  lemma {:induction false} SortSum(docs: seq<SearchResult>)
    ensures Sum(SortDesc(ByScore, docs)) == Sum(docs)
  {
    if docs != [] {
      SortSum(docs[1..]);
      InsertSum(docs[0], SortDesc(ByScore, docs[1..]));
    }
  }

  const ByChunk: SearchResult -> int := (r: SearchResult) => r.chunkId

  /** Sorting keeps the chunks distinct. */
  lemma SortDistinct(docs: seq<SearchResult>)
    requires DistinctChunks(docs)
    ensures DistinctChunks(SortDesc(ByScore, docs)) && Ranked(SortDesc(ByScore, docs))
  {
    hide SortDesc;
    var sorted := SortDesc(ByScore, docs);
    SortDescSpec(ByScore, docs);
    assert DistinctBy(ByChunk, docs);
    PermutationKeepsDistinct(ByChunk, docs, sorted);
    forall i, j | 0 <= i < j < |sorted| ensures sorted[i].chunkId != sorted[j].chunkId {
      assert ByChunk(sorted[i]) != ByChunk(sorted[j]);
    }
  }
}
