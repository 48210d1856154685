/**
 Indexing a document into PostgreSQL and Elasticsearch
 (backend/app/services/document/processor.py and indexer.py).

 Any awaited operation may raise. A store operation that raises leaves arbitrary contents for its
 document in that store, so a partly executed bulk write or delete is covered.
 */
module Indexing {
  import opened Prelude

  type DocId = string
  type Chunk = string

  datatype Status = Uploaded | InProgress | Indexed | Failed

  datatype Row = Row(status: Status, chunkCount: Option<nat>)

  /** The chunks of each document; one not listed has none. */
  type Index = map<DocId, seq<Chunk>>

  function Of(index: Index, doc: DocId): seq<Chunk> {
    if doc in index then index[doc] else []
  }

  /** The awaited operations of one run, in order. */
  datatype Step = Convert | Chunking | PgDelete | EsDelete | Embed | PgWrite | EsWrite | MarkIndexed

  /** Which operation raises, and what it leaves of the document in its store. */
  datatype Fault = NoFault | At(step: Step, residue: seq<Chunk>)

  predicate Raises(f: Fault, s: Step) { f.At? && f.step == s }

  /** What the store operation `s` leaves: `done` if it succeeds. */
  function Left(f: Fault, s: Step, done: seq<Chunk>): seq<Chunk> {
    if Raises(f, s) then f.residue else done
  }

  /** The outside world of one run: the chunks of the file, how many vectors the embedder returns, and the failures. */
  datatype Attempt = Attempt(chunks: seq<Chunk>, vectors: nat, fault: Fault, failedWriteRaises: bool)

  datatype System = System(pg: Index, es: Index, rows: map<DocId, Row>)

  // ---------------------------------------------------------------- the stores

  class Store {
    var docs: Index

    constructor (initial: Index)
      ensures docs == initial
    {
      docs := initial;
    }

    method Delete(doc: DocId, f: Fault, s: Step) returns (ok: bool)
      modifies this
      ensures docs == old(docs)[doc := Left(f, s, [])] && ok == !Raises(f, s)
    {
      docs := docs[doc := Left(f, s, [])];
      ok := !Raises(f, s);
    }

    method Write(doc: DocId, chunks: seq<Chunk>, f: Fault, s: Step) returns (ok: bool)
      modifies this
      ensures docs == old(docs)[doc := Left(f, s, Of(old(docs), doc) + chunks)] && ok == !Raises(f, s)
    {
      docs := docs[doc := Left(f, s, Of(docs, doc) + chunks)];
      ok := !Raises(f, s);
    }
  }

  /** How far the stores get: both deletes, then for a non-empty list the two writes. */
  function Stored(pg: Index, es: Index, doc: DocId, a: Attempt): (Index, Index, bool) {
    var f := a.fault;
    var pg1 := pg[doc := Left(f, PgDelete, [])];
    if Raises(f, PgDelete) then (pg1, es, false)
    else
      var es1 := es[doc := Left(f, EsDelete, [])];
      if Raises(f, EsDelete) then (pg1, es1, false)
      else if a.chunks == [] then (pg1, es1, true)
      else if Raises(f, Embed) then (pg1, es1, false)
      else
        var pg2 := pg1[doc := Left(f, PgWrite, Of(pg1, doc) + Embedded(a))];
        if Raises(f, PgWrite) then (pg2, es1, false)
        else (pg2, es1[doc := Left(f, EsWrite, Of(es1, doc) + a.chunks)], !Raises(f, EsWrite))
  }

  /** `zip(chunks, embeddings)` stops at the shorter list. */
  function Embedded(a: Attempt): seq<Chunk> {
    if a.vectors <= |a.chunks| then a.chunks[..a.vectors] else a.chunks
  }

  class DocumentIndexer {
    const pg: Store
    const es: Store

    constructor (pgStore: Store, esStore: Store)
      ensures pg == pgStore && es == esStore
    {
      pg := pgStore;
      es := esStore;
    }

    method Delete(doc: DocId, f: Fault) returns (ok: bool)
      requires pg != es
      modifies pg, es
      ensures pg.docs == old(pg.docs)[doc := Left(f, PgDelete, [])]
      ensures es.docs == if Raises(f, PgDelete) then old(es.docs) else old(es.docs)[doc := Left(f, EsDelete, [])]
      ensures ok == !(Raises(f, PgDelete) || Raises(f, EsDelete))
    {
      ok := pg.Delete(doc, f, PgDelete);
      if ok { ok := es.Delete(doc, f, EsDelete); }
    }

    method Index(doc: DocId, a: Attempt) returns (ok: bool)
      requires pg != es
      modifies pg, es
      ensures a.chunks == [] ==> ok && pg.docs == old(pg.docs) && es.docs == old(es.docs)
      ensures a.chunks != [] && Raises(a.fault, Embed) ==> !ok && pg.docs == old(pg.docs) && es.docs == old(es.docs)
      ensures a.chunks != [] && !Raises(a.fault, Embed) ==>
                && pg.docs == old(pg.docs)[doc := Left(a.fault, PgWrite, Of(old(pg.docs), doc) + Embedded(a))]
                && es.docs == (if Raises(a.fault, PgWrite) then old(es.docs)
                               else old(es.docs)[doc := Left(a.fault, EsWrite, Of(old(es.docs), doc) + a.chunks)])
                && ok == !(Raises(a.fault, PgWrite) || Raises(a.fault, EsWrite))
    {
      if a.chunks == [] { return true; }
      if Raises(a.fault, Embed) { return false; }
      ok := pg.Write(doc, Embedded(a), a.fault, PgWrite);
      if ok { ok := es.Write(doc, a.chunks, a.fault, EsWrite); }
    }
  }

  // ---------------------------------------------------------------- one run

  function WithStatus(rows: map<DocId, Row>, doc: DocId, status: Status, count: Option<nat>): map<DocId, Row> {
    if doc in rows then rows[doc := Row(status, if count.Some? then count else rows[doc].chunkCount)] else rows
  }

  function Process(s: System, doc: DocId, a: Attempt): (System, bool) {
    var (pg, es, ok) := if Raises(a.fault, Convert) || Raises(a.fault, Chunking) then (s.pg, s.es, false)
                        else Stored(s.pg, s.es, doc, a);
    if ok && !Raises(a.fault, MarkIndexed) then
      (System(pg, es, WithStatus(s.rows, doc, Indexed, Some(|a.chunks|))), true)
    else
      (System(pg, es, if a.failedWriteRaises then s.rows else WithStatus(s.rows, doc, Failed, None)), false)
  }

  class DocumentProcessor {
    const indexer: DocumentIndexer
    var rows: map<DocId, Row>

    constructor (i: DocumentIndexer, initial: map<DocId, Row>)
      ensures indexer == i && rows == initial
    {
      indexer := i;
      rows := initial;
    }

    ghost function Whole(): System
      reads this, indexer.pg, indexer.es
    {
      System(indexer.pg.docs, indexer.es.docs, rows)
    }

    method UpdateStatus(doc: DocId, status: Status, count: Option<nat>)
      modifies this
      ensures rows == WithStatus(old(rows), doc, status, count)
    {
      if doc in rows { rows := rows[doc := Row(status, if count.Some? then count else rows[doc].chunkCount)]; }
    }

    /** The try block: true when nothing raised. */
    method Attempted(doc: DocId, a: Attempt) returns (ok: bool)
      requires indexer.pg != indexer.es
      modifies this, indexer.pg, indexer.es
      ensures rows == if ok then WithStatus(old(rows), doc, Indexed, Some(|a.chunks|)) else old(rows)
      ensures (indexer.pg.docs, indexer.es.docs, ok) ==
              var (pg, es, stored) := if Raises(a.fault, Convert) || Raises(a.fault, Chunking)
                                      then (old(indexer.pg.docs), old(indexer.es.docs), false)
                                      else Stored(old(indexer.pg.docs), old(indexer.es.docs), doc, a);
              (pg, es, stored && !Raises(a.fault, MarkIndexed))
    {
      if Raises(a.fault, Convert) { return false; }
      if Raises(a.fault, Chunking) { return false; }
      ok := indexer.Delete(doc, a.fault);
      if !ok { return false; }
      ok := indexer.Index(doc, a);
      if !ok { return false; }
      if Raises(a.fault, MarkIndexed) { return false; }
      UpdateStatus(doc, Indexed, Some(|a.chunks|));
    }

    method ProcessDocument(doc: DocId, a: Attempt) returns (ok: bool)
      requires indexer.pg != indexer.es
      modifies this, indexer.pg, indexer.es
      ensures (Whole(), ok) == Process(old(Whole()), doc, a)
    {
      ok := Attempted(doc, a);
      if !ok && !a.failedWriteRaises { UpdateStatus(doc, Failed, None); }
    }
  }

  // ---------------------------------------------------------------- many runs

  function Runs(s: System, doc: DocId, attempts: seq<Attempt>): System {
    if attempts == [] then s else Process(Runs(s, doc, attempts[..|attempts| - 1]), doc, attempts[|attempts| - 1]).0
  }

  /** Nothing about the other documents changes. */
  ghost predicate OnlyTouches(doc: DocId, s: System, t: System) {
    && (forall d :: d != doc ==> Of(t.pg, d) == Of(s.pg, d) && Of(t.es, d) == Of(s.es, d))
    && (forall d :: d in t.rows <==> d in s.rows)
    && (forall d :: d != doc && d in s.rows ==> t.rows[d] == s.rows[d])
  }

  lemma StoredOnlyTouches(pg: Index, es: Index, doc: DocId, a: Attempt, d: DocId)
    requires d != doc
    ensures Of(Stored(pg, es, doc, a).0, d) == Of(pg, d)
    ensures Of(Stored(pg, es, doc, a).1, d) == Of(es, d)
  {
  }

  lemma StatusOnlyTouches(rows: map<DocId, Row>, doc: DocId, status: Status, count: Option<nat>, d: DocId)
    ensures d in WithStatus(rows, doc, status, count) <==> d in rows
    ensures d != doc && d in rows ==> WithStatus(rows, doc, status, count)[d] == rows[d]
  {
  }

  lemma StepOnlyTouches(s: System, doc: DocId, a: Attempt)
    ensures OnlyTouches(doc, s, Process(s, doc, a).0)
  {
    hide Stored, WithStatus, Of;
    forall d | d != doc
      ensures Of(Process(s, doc, a).0.pg, d) == Of(s.pg, d) && Of(Process(s, doc, a).0.es, d) == Of(s.es, d)
    {
      StoredOnlyTouches(s.pg, s.es, doc, a, d);
    }
    forall d
      ensures d in Process(s, doc, a).0.rows <==> d in s.rows
      ensures d != doc && d in s.rows ==> Process(s, doc, a).0.rows[d] == s.rows[d]
    {
      StatusOnlyTouches(s.rows, doc, Indexed, Some(|a.chunks|), d);
      StatusOnlyTouches(s.rows, doc, Failed, None, d);
    }
  }

  lemma RunsSnoc(s: System, doc: DocId, attempts: seq<Attempt>, last: Attempt)
    ensures Runs(s, doc, attempts + [last]) == Process(Runs(s, doc, attempts), doc, last).0
  {
    hide Process;
    CutConcat(attempts, [last]);
  }

  lemma TouchesTwice(doc: DocId, s: System, t: System, u: System)
    requires OnlyTouches(doc, s, t) && OnlyTouches(doc, t, u)
    ensures OnlyTouches(doc, s, u)
  {
    hide Of;
  }

  lemma {:induction false} RunsOnlyTouch(s: System, doc: DocId, attempts: seq<Attempt>)
    ensures OnlyTouches(doc, s, Runs(s, doc, attempts))
    decreases |attempts|
  {
    hide Process;
    if attempts == [] {
    } else {
      hide OnlyTouches;
      var front := Runs(s, doc, attempts[..|attempts| - 1]);
      RunsOnlyTouch(s, doc, attempts[..|attempts| - 1]);
      StepOnlyTouches(front, doc, attempts[|attempts| - 1]);
      TouchesTwice(doc, s, front, Runs(s, doc, attempts));
    }
  }

  /** What a run that returns normally leaves, whatever was there before. */
  lemma SucceededRun(s: System, doc: DocId, a: Attempt)
    requires Process(s, doc, a).1
    ensures var t := Process(s, doc, a).0;
            && Of(t.pg, doc) == Embedded(a) && Of(t.es, doc) == a.chunks
            && (doc in s.rows ==> t.rows[doc] == Row(Indexed, Some(|a.chunks|)))
  {
    assert forall x: seq<Chunk> :: [] + x == x;
    if a.chunks == [] { assert Embedded(a) == []; }
  }

  lemma CompleteRun(s: System, doc: DocId, a: Attempt)
    requires a.fault == NoFault
    ensures var (t, ok) := Process(s, doc, a);
            && ok && Of(t.pg, doc) == Embedded(a) && Of(t.es, doc) == a.chunks
            && (doc in s.rows ==> t.rows[doc] == Row(Indexed, Some(|a.chunks|)))
  {
    assert Process(s, doc, a).1;
    SucceededRun(s, doc, a);
    hide Process, Embedded;
  }

  lemma SameRows(doc: DocId, s: System, t: System)
    requires OnlyTouches(doc, s, t)
    ensures t.rows.Keys == s.rows.Keys
  {
    assert forall d :: d in t.rows.Keys <==> d in s.rows.Keys;
  }

  lemma EmbeddedAll(a: Attempt)
    ensures Embedded(a) == a.chunks <==> a.vectors >= |a.chunks|
  {
    if a.vectors < |a.chunks| { assert |Embedded(a)| < |a.chunks|; }
  }

  /**
   Convergence: from any leftover contents and after any number of runs failing anywhere, a run that
   completes leaves Elasticsearch with exactly the document's chunks, the row INDEXED with their
   number, and every other document untouched -- and the two stores agree exactly when the embedder
   returned a vector for every chunk.
   */
  lemma Convergence(s: System, doc: DocId, attempts: seq<Attempt>, last: Attempt)
    requires doc in s.rows && last.fault == NoFault
    ensures var t := Runs(s, doc, attempts + [last]);
            && Of(t.es, doc) == last.chunks
            && (Of(t.pg, doc) == last.chunks <==> last.vectors >= |last.chunks|)
            && t.rows.Keys == s.rows.Keys && t.rows[doc] == Row(Indexed, Some(|last.chunks|))
            && OnlyTouches(doc, s, t)
  {
    hide *;
    var before, after := Runs(s, doc, attempts), Runs(s, doc, attempts + [last]);
    RunsOnlyTouch(s, doc, attempts);
    RunsOnlyTouch(s, doc, attempts + [last]);
    RunsSnoc(s, doc, attempts, last);
    SameRows(doc, s, before);
    SameRows(doc, s, after);
    CompleteRun(before, doc, last);
    EmbeddedAll(last);
  }

  /** A run that fails ends FAILED if the status can be written at all, and keeps the old chunk count. */
  lemma FailedRunIsMarked(s: System, doc: DocId, a: Attempt)
    requires doc in s.rows && !Process(s, doc, a).1
    ensures var t := Process(s, doc, a).0;
            && t.rows[doc].chunkCount == s.rows[doc].chunkCount
            && t.rows[doc].status == if a.failedWriteRaises then s.rows[doc].status else Failed
  {
  }

  /**
   What a failure leaves searchable: nothing changes before the first delete; from the embedding on
   the old chunks are gone from both stores; and Elasticsearch is written only after PostgreSQL holds
   the new chunks.
   */
  lemma WhatAFailureLeaves(s: System, doc: DocId, a: Attempt)
    requires a.fault.At? && a.chunks != []
    ensures var (t, ok) := Process(s, doc, a);
            && !ok
            && match a.fault.step
               case Convert => t.pg == s.pg && t.es == s.es
               case Chunking => t.pg == s.pg && t.es == s.es
               case PgDelete => t.es == s.es
               case EsDelete => Of(t.pg, doc) == []
               case Embed => Of(t.pg, doc) == [] && Of(t.es, doc) == []
               case PgWrite => Of(t.es, doc) == []
               case EsWrite => Of(t.pg, doc) == Embedded(a)
               case MarkIndexed => Of(t.pg, doc) == Embedded(a) && Of(t.es, doc) == a.chunks
  {
    assert forall x: seq<Chunk> :: [] + x == x;
  }

  // ---------------------------------------------------------------- what INDEXED promises

  /** A row that says INDEXED counts the chunks that Elasticsearch holds. */
  ghost predicate Truthful(s: System, doc: DocId) {
    doc in s.rows && (s.rows[doc].status == Indexed ==> s.rows[doc].chunkCount == Some(|Of(s.es, doc)|))
  }

  lemma RunIsTruthful(s: System, doc: DocId, a: Attempt)
    requires Truthful(s, doc) && !a.failedWriteRaises
    ensures Truthful(Process(s, doc, a).0, doc)
  {
    StepOnlyTouches(s, doc, a);
    if Process(s, doc, a).1 { SucceededRun(s, doc, a); } else { FailedRunIsMarked(s, doc, a); }
    hide Process, Of, Embedded;
  }

  /** As long as a failed run can write its status, INDEXED keeps its promise through any runs. */
  lemma {:induction false} IndexedIsTruthful(s: System, doc: DocId, attempts: seq<Attempt>)
    requires Truthful(s, doc) && forall i :: 0 <= i < |attempts| ==> !attempts[i].failedWriteRaises
    ensures Truthful(Runs(s, doc, attempts), doc)
    decreases |attempts|
  {
    hide Process, Truthful;
    if attempts != [] {
      IndexedIsTruthful(s, doc, attempts[..|attempts| - 1]);
      RunIsTruthful(Runs(s, doc, attempts[..|attempts| - 1]), doc, attempts[|attempts| - 1]);
    }
  }

  /** Otherwise it can break: reindexing that fails at the embedding leaves an INDEXED row and no chunks. */
  lemma IndexedButEmpty(s: System, doc: DocId, a: Attempt)
    requires doc in s.rows && s.rows[doc].status == Indexed && s.rows[doc].chunkCount != Some(0)
    requires a.chunks != [] && a.fault.At? && a.fault.step == Embed && a.failedWriteRaises
    ensures var t := Process(s, doc, a).0;
            && Of(t.pg, doc) == [] && Of(t.es, doc) == [] && t.rows[doc].status == Indexed && !Truthful(t, doc)
  {
    WhatAFailureLeaves(s, doc, a);
    FailedRunIsMarked(s, doc, a);
    StepOnlyTouches(s, doc, a);
    hide Process, Of;
  }
}
