/**
 The response cache with any number of settings writers: a search service with an old copy can store a
 response that outlives the copy, because the key covers only the hashed fields. How old it can be.
 */
module CacheStaleness {
  import opened Prelude
  import opened RagSettings
  import opened SettingsService
  import opened SearchCache
  import opened CacheRuns
  import opened CacheSoundness
  import AdminPatches

  /** The response under `k` was stored by the request asked at step `j`, and the cache was not emptied since. */
  ghost predicate StoredAt(env: Env, w: World, events: seq<Event>, j: nat, k: string, response: Response)
    requires j < |events|
  {
    && events[j].SearchFor?
    && (forall i :: j < i < |events| ==> !Drops(events[i]))
    && var base := ReadValue(Run(env, w, events[..j]), SEARCH);
       k == KeyOf(env, base, events[j].request) && response == Fresh(env, base, events[j].request)
  }

  ghost predicate Stored(env: Env, w: World, events: seq<Event>, k: string, response: Response) {
    exists j :: 0 <= j < |events| && StoredAt(env, w, events, j, k, response)
  }

  lemma StoredSnoc(env: Env, w: World, events: seq<Event>, k: string, response: Response)
    requires events != [] && !Drops(events[|events| - 1])
    requires Stored(env, w, events[..|events| - 1], k, response)
    ensures Stored(env, w, events, k, response)
  {
    hide Run, ReadValue, KeyOf, Fresh;
    var front := events[..|events| - 1];
    var j :| 0 <= j < |front| && StoredAt(env, w, front, j, k, response);
    assert events[..j] == front[..j];
    assert StoredAt(env, w, events, j, k, response);
  }

  lemma StoredLast(env: Env, w: World, events: seq<Event>, k: string, response: Response)
    requires events != [] && events[|events| - 1].SearchFor?
    requires var base, r := ReadValue(Run(env, w, events[..|events| - 1]), SEARCH), events[|events| - 1].request;
             k == KeyOf(env, base, r) && response == Fresh(env, base, r)
    ensures Stored(env, w, events, k, response)
  {
    hide Run, ReadValue, KeyOf, Fresh;
    assert StoredAt(env, w, events, |events| - 1, k, response);
  }

  lemma AnsweredSearch(env: Env, c: Shared, now: real, r: Request, base: RAGSettings, k: string)
    requires k in Answered(env, c, now, r, base).2.search
    ensures var search := Answered(env, c, now, r, base).2.search;
            || (k in c.search && search[k] == c.search[k])
            || (k == KeyOf(env, base, r) && search[k].value == Fresh(env, base, r))
  {
    hide SearchKey, Fresh, ApplyOverrides, Live;
  }

  lemma UpdateEmpties(w: World, id: Id, p: Data)
    requires Coherent(w)
    ensures AfterUpdate(w, id, p).shared.search == map[] && AfterPatch(w, p).shared.search == map[]
  {
    UpdateStep(ServiceOf(w, id), w.shared, w.now, p);
    UpdateStep(ServiceOf(w, ADMIN), w.shared, w.now, p);
    hide Update;
  }

  lemma SearchAdds(env: Env, w: World, r: Request, k: string)
    requires k in AfterSearch(env, w, r).shared.search
    ensures var search := AfterSearch(env, w, r).shared.search;
            || (k in w.shared.search && search[k] == w.shared.search[k])
            || (k == KeyOf(env, ReadValue(w, SEARCH), r) && search[k].value == Fresh(env, ReadValue(w, SEARCH), r))
  {
    GetKeepsCache(ServiceOf(w, SEARCH), w.shared, w.now);
    var (base, v, c) := Get(ServiceOf(w, SEARCH), w.shared, w.now);
    AnsweredSearch(env, c, w.now, r, base, k);
    hide Get, Answered, KeyOf, Fresh;
  }

  lemma ReadKeepsEntries(w: World, id: Id)
    ensures AfterRead(w, id).shared.search == w.shared.search
  {
    GetKeepsCache(ServiceOf(w, id), w.shared, w.now);
    hide Get;
  }

  /** An entry after a step was there before, or the step is the request that stored it. */
  lemma EntryAfter(env: Env, w: World, e: Event, k: string)
    requires Coherent(w) && k in Step(env, w, e).shared.search
    ensures var search := Step(env, w, e).shared.search;
            && !Drops(e)
            && (|| (k in w.shared.search && search[k] == w.shared.search[k])
                || (e.SearchFor? && k == KeyOf(env, ReadValue(w, SEARCH), e.request)
                    && search[k].value == Fresh(env, ReadValue(w, SEARCH), e.request)))
  {
    hide AfterRead, AfterUpdate, AfterPatch, AfterSearch, ReadValue, KeyOf, Fresh, Coherent;
    if e.SearchFor? { SearchAdds(env, w, e.request, k); }
    else if e.ReadBy? { ReadKeepsEntries(w, e.id); }
    else if e.UpdateBy? { UpdateEmpties(w, e.id, e.updates); }
    else if e.PatchBy? { UpdateEmpties(w, ADMIN, e.updates); }
  }

  /** Every stored response is what some request of the run was answered with, under what it read then. */
  lemma {:induction false} RunStores(env: Env, w: World, events: seq<Event>, k: string)
    requires Coherent(w) && w.shared.search == map[] && k in Run(env, w, events).shared.search
    ensures Stored(env, w, events, k, Run(env, w, events).shared.search[k].value)
    decreases |events|
  {
    hide Step, Coherent, Stored, KeyOf, Fresh, ReadValue;
    if events != [] {
      var front, e := events[..|events| - 1], events[|events| - 1];
      var before := Run(env, w, front);
      EntryFollowsRow(env, w, front);
      EntryAfter(env, before, e, k);
      var response := Run(env, w, events).shared.search[k].value;
      if k in before.shared.search && before.shared.search[k].value == response {
        RunStores(env, w, front, k);
        StoredSnoc(env, w, events, k, response);
      } else {
        StoredLast(env, w, events, k, response);
      }
    }
  }

  /** The row stood for `s` less than a minute before the end of the run. */
  ghost predicate JustHeld(env: Env, w: World, events: seq<Event>, s: RAGSettings) {
    exists t :: Run(env, w, events).now - t < 60.0 && Seen(env, w, events, t, s)
  }

  /**
   `response` answers the request asked at step `j`: for the query of `r`, under settings that agree with
   those of `r` now in every hashed field, from a row's value less than a minute old then.
   */
  ghost predicate ServedBy(env: Env, w: World, events: seq<Event>, r: Request, j: nat, response: Response)
    requires j < |events|
  {
    && events[j].SearchFor?
    && (forall i :: j < i < |events| ==> !Drops(events[i]))
    && var q, then_ := events[j].request, ReadValue(Run(env, w, events[..j]), SEARCH);
       var now_ := ReadValue(Run(env, w, events), SEARCH);
       && q.query == r.query
       && Subset(ApplyOverrides(then_, q)) == Subset(ApplyOverrides(now_, r))
       && response == Fresh(env, then_, q)
       && JustHeld(env, w, events[..j], then_)
  }

  /** The digests separate `r` from the requests whose responses may still be stored. */
  ghost predicate AllApart(env: Env, w: World, events: seq<Event>, r: Request) {
    forall j :: 0 <= j < |events| && events[j].SearchFor? ==> ApartFrom(env, w, events, r, j)
  }

  ghost predicate ApartFrom(env: Env, w: World, events: seq<Event>, r: Request, j: nat)
    requires j < |events| && events[j].SearchFor?
  {
    var q := events[j].request;
    Apart(env, q.query, ApplyOverrides(ReadValue(Run(env, w, events[..j]), SEARCH), q),
          r.query, ApplyOverrides(ReadValue(Run(env, w, events), SEARCH), r))
  }

  lemma LiveResponse(env: Env, w: World, r: Request)
    ensures var (response, hit) := SearchResult(env, w, r);
            var base := ReadValue(w, SEARCH);
            var k := KeyOf(env, base, r);
            && (hit ==> k in w.shared.search && response == w.shared.search[k].value)
            && (!hit ==> response == Fresh(env, base, r))
  {
    GetKeepsCache(ServiceOf(w, SEARCH), w.shared, w.now);
    var (base, v, c) := Get(ServiceOf(w, SEARCH), w.shared, w.now);
    hide Get, SearchKey, Fresh, ApplyOverrides;
  }

  lemma OriginServes(env: Env, w: World, events: seq<Event>, r: Request, j: nat, response: Response)
    requires Coherent(w) && ServiceOf(w, SEARCH).copy.None? && j < |events|
    requires StoredAt(env, w, events, j, KeyOf(env, ReadValue(Run(env, w, events), SEARCH), r), response)
    requires ApartFrom(env, w, events, r, j)
    ensures ServedBy(env, w, events, r, j, response)
  {
    StaleByLessThanAMinute(env, w, events[..j], SEARCH);
    var q, then_ := events[j].request, ReadValue(Run(env, w, events[..j]), SEARCH);
    var now_ := ReadValue(Run(env, w, events), SEARCH);
    KeySplits(env, q.query, ApplyOverrides(then_, q), r.query, ApplyOverrides(now_, r));
    hide Run, ReadValue, Fresh, Subset, ApplyOverrides, SearchKey, Apart, Coherent, ServiceOf, Seen, Drops;
  }

  /**
   Bounded staleness of the cache: in every run, with any number of writers, a response that is not
   the pipeline's own answers an earlier request for the same query, under the same hashed fields, and
   under settings that were the row's less than 60 seconds before it was stored.
   */
  lemma HitIsAlmostCurrent(env: Env, w: World, events: seq<Event>, r: Request)
    requires Coherent(w) && ServiceOf(w, SEARCH).copy.None? && w.shared.search == map[]
    requires AllApart(env, w, events, r)
    ensures var (response, hit) := SearchResult(env, Run(env, w, events), r);
            && (hit ==> exists j :: 0 <= j < |events| && ServedBy(env, w, events, r, j, response))
            && (!hit ==> response == Fresh(env, ReadValue(Run(env, w, events), SEARCH), r))
  {
    hide Run, Coherent, ServiceOf, SearchResult, ReadValue, KeyOf, Fresh, StoredAt, ServedBy, ApartFrom;
    var last := Run(env, w, events);
    var k := KeyOf(env, ReadValue(last, SEARCH), r);
    var (response, hit) := SearchResult(env, last, r);
    LiveResponse(env, last, r);
    if hit {
      RunStores(env, w, events, k);
      var j :| 0 <= j < |events| && StoredAt(env, w, events, j, k, response);
      assert events[j].SearchFor? by { StoredIsSearch(env, w, events, j, k, response); }
      OriginServes(env, w, events, r, j, response);
    }
  }

  lemma StoredIsSearch(env: Env, w: World, events: seq<Event>, j: nat, k: string, response: Response)
    requires j < |events| && StoredAt(env, w, events, j, k, response)
    ensures events[j].SearchFor?
  {
  }

  // ---------------------------------------------------------------- it happens

  ghost predicate AgreeAt(f: map<string, Json>, g: map<string, Json>, j: string) {
    (j in f <==> j in g) && (j in f ==> f[j] == g[j])
  }

  lemma OverrideAgrees(f: map<string, Json>, g: map<string, Json>, k: string, v: Option<Json>, j: string)
    requires AgreeAt(f, g, j)
    ensures AgreeAt(Override(f, k, v), Override(g, k, v), j)
  {
  }

  lemma OverriddenAgrees(f: map<string, Json>, g: map<string, Json>, r: Request, j: string)
    requires AgreeAt(f, g, j)
    ensures AgreeAt(Overridden(f, r), Overridden(g, r), j)
  {
    var a, b := AsStr(r.searchMode), AsBool(r.hydeEnabled);
    var c, d := AsBool(r.rerankingEnabled), AsBool(r.multiQueryEnabled);
    hide Override, AgreeAt;
    OverrideAgrees(f, g, "search_mode", a, j);
    var f1, g1 := Override(f, "search_mode", a), Override(g, "search_mode", a);
    OverrideAgrees(f1, g1, "hyde_enabled", b, j);
    var f2, g2 := Override(f1, "hyde_enabled", b), Override(g1, "hyde_enabled", b);
    OverrideAgrees(f2, g2, "reranking_enabled", c, j);
    var f3, g3 := Override(f2, "reranking_enabled", c), Override(g2, "reranking_enabled", c);
    OverrideAgrees(f3, g3, "multi_query_enabled", d, j);
    var f4, g4 := Override(f3, "multi_query_enabled", d), Override(g3, "multi_query_enabled", d);
    OverrideAgrees(f4, g4, "reranker_top_k", Some(Int(r.topK)), j);
  }

  lemma SameSubset(s: RAGSettings, t: RAGSettings)
    requires forall j :: j in HASHED ==> AgreeAt(s.fields, t.fields, j)
    ensures Subset(s) == Subset(t)
  {
    forall j ensures AgreeAt(Subset(s), Subset(t), j) {
      if j in HASHED {
        assert AgreeAt(s.fields, t.fields, j);
        SubsetAt(s, j);
        SubsetAt(t, j);
      }
    }
    hide Subset;
    assert forall j :: (j in Subset(s) <==> j in Subset(t)) && (j in Subset(s) ==> Subset(s)[j] == Subset(t)[j]) by {
      AgreeEverywhere(Subset(s), Subset(t));
    }
  }

  lemma AgreeEverywhere(f: map<string, Json>, g: map<string, Json>)
    requires forall j :: AgreeAt(f, g, j)
    ensures f == g
  {
    assert forall j :: AgreeAt(f, g, j) ==> (j in f <==> j in g);
  }

  /** The patch gives no hashed field. */
  ghost predicate Unhashed(p: Data) {
    forall j :: j in HASHED ==> j !in p.fields
  }

  lemma PatchedAgrees(s: RAGSettings, p: Data, j: string)
    requires Built(s) && j !in p.fields
    ensures AgreeAt(Patched(s, p).fields, s.fields, j)
  {
    BuildIsBuilt(Merge(Dump(s), p));
    if j in Defaults() { PatchIsFieldwise(s, p, Plain(j)); }
    hide Defaults, Patched, Built, Build, Merge, Dump;
  }

  /** Such a patch changes no cache key. */
  lemma PatchKeepsKeys(env: Env, s: RAGSettings, p: Data, r: Request)
    requires Built(s) && Unhashed(p)
    ensures KeyOf(env, Patched(s, p), r) == KeyOf(env, s, r)
  {
    hide Patched, Built, Overridden, Subset, AgreeAt;
    forall j | j in HASHED ensures AgreeAt(ApplyOverrides(Patched(s, p), r).fields, ApplyOverrides(s, r).fields, j) {
      PatchedAgrees(s, p, j);
      OverriddenAgrees(Patched(s, p).fields, s.fields, r, j);
    }
    SameSubset(ApplyOverrides(Patched(s, p), r), ApplyOverrides(s, r));
  }

  /** The search service holds the copy `s`, and caching is on for `seconds`. */
  ghost predicate Serving(w: World, s: RAGSettings, seconds: int) {
    && LocalHit(ServiceOf(w, SEARCH), w.now) && ServiceOf(w, SEARCH).copy == Some(s)
    && w.shared.enabled && s.cacheEnabled && seconds == Ttl(w.shared, s.cacheSearchTtl) > 0
  }

  /** An update by another service leaves the search service's copy and the switches alone ... */
  lemma StillServing(w: World, id: Id, p: Data, s: RAGSettings, seconds: int)
    requires id != SEARCH && Serving(w, s, seconds)
    ensures var w1 := AfterUpdate(w, id, p);
            Serving(w1, s, seconds) && w1.now == w.now && ServiceOf(w1, SEARCH) == ServiceOf(w, SEARCH)
  {
    GetKeepsCache(ServiceOf(w, id), w.shared, w.now);
    hide Get, Patched, Dump;
  }

  /** ... empties Redis and writes the row. */
  lemma UpdateWrites(w: World, id: Id, p: Data, s: RAGSettings)
    requires Coherent(w) && ReadValue(w, id) == s
    ensures var w1 := AfterUpdate(w, id, p);
            w1.shared.search == map[] && w1.shared.entry == None && Current(w1) == Patched(s, p)
  {
    UpdateStep(ServiceOf(w, id), w.shared, w.now, p);
    hide Update, Get, Load, Patched;
  }

  lemma AnswersAndStores(env: Env, c: Shared, now: real, r: Request, s: RAGSettings, seconds: int)
    requires c.search == map[] && c.enabled && s.cacheEnabled && seconds == Ttl(c, s.cacheSearchTtl) > 0
    ensures var c1 := Answered(env, c, now, r, s).2;
            && c1.search == map[KeyOf(env, s, r) := Entry(Fresh(env, s, r), now + seconds as real)]
            && c1.row == c.row && c1.entry == c.entry && c1.enabled
  {
    NoneLive(KeyOf(env, s, r), now);
    hide SearchKey, Fresh, Overridden, Live;
  }

  /** The request after the update stores under the old copy. */
  lemma StoresOld(env: Env, w: World, s: RAGSettings, seconds: int, r: Request)
    requires Serving(w, s, seconds) && w.shared.search == map[]
    ensures var w2 := AfterSearch(env, w, r);
            && w2.shared.search == map[KeyOf(env, s, r) := Entry(Fresh(env, s, r), w.now + seconds as real)]
            && w2.now == w.now && ServiceOf(w2, SEARCH) == ServiceOf(w, SEARCH)
            && Current(w2) == Current(w) && w2.shared.entry == w.shared.entry && w2.shared.enabled
  {
    AnswersAndStores(env, w.shared, w.now, r, s, seconds);
    hide Refreshed, Answered, KeyOf, Fresh, Load, Ttl;
  }

  lemma NoneLive(k: string, now: real)
    ensures Live(Lookup<Response>(map[], k), now) == None
  {
  }

  /** Once the copy is old the service reads the row, and finds the old response. */
  lemma FindsOld(env: Env, w: World, s: RAGSettings, t: RAGSettings, r: Request, until: real)
    requires Coherent(w) && !LocalHit(ServiceOf(w, SEARCH), w.now) && w.shared.enabled && w.shared.entry == None
    requires Current(w) == t && t.cacheEnabled && KeyOf(env, t, r) == KeyOf(env, s, r) && w.now < until
    requires w.shared.search == map[KeyOf(env, s, r) := Entry(Fresh(env, s, r), until)]
    ensures ReadValue(w, SEARCH) == t && SearchResult(env, w, r) == (Fresh(env, s, r), true)
  {
    ReadStep(ServiceOf(w, SEARCH), w.shared, w.now);
    GetKeepsCache(ServiceOf(w, SEARCH), w.shared, w.now);
    hide Get, Load, SearchKey, Fresh, Overridden;
  }

  /**
   The bound is needed: when another service patches an unhashed setting behind the search service's
   copy, the next request stores a response under the old settings, and once the copy has expired the
   same request is served that response although the settings read are the patched ones.
   */
  lemma OldCopyOutlivesPatch(env: Env, w: World, id: Id, p: Data, s: RAGSettings, seconds: int, r: Request, later: real)
    requires Coherent(w) && id != SEARCH && Serving(w, s, seconds) && ReadValue(w, id) == s && Built(s)
    requires Unhashed(p) && p.cacheEnabled.None?
    requires later - ServiceOf(w, SEARCH).time >= 60.0 && later < w.now + seconds as real
    ensures var x := Run(env, w, [UpdateBy(id, p), SearchFor(r), ClockTo(later)]);
            && ReadValue(x, SEARCH) == Patched(s, p)
            && SearchResult(env, x, r) == (Fresh(env, s, r), true)
  {
    var w1 := AfterUpdate(w, id, p);
    var w2 := AfterSearch(env, w1, r);
    hide *;
    TheSteps(env, w, id, p, r, later);
    AdminPatches.RunOfThree(env, w, UpdateBy(id, p), SearchFor(r), ClockTo(later));
    StillServing(w, id, p, s, seconds);
    UpdateWrites(w, id, p, s);
    StoresOld(env, w1, s, seconds, r);
    StepKeepsCoherence(env, w, UpdateBy(id, p));
    StepKeepsCoherence(env, w1, SearchFor(r));
    Waits(w2, later);
    PatchKeepsKeys(env, s, p, r);
    ServingCaches(w, s, seconds);
    StaysOn(s, p);
    FindsOld(env, w2.(now := later), s, Patched(s, p), r, w.now + seconds as real);
  }

  lemma ServingCaches(w: World, s: RAGSettings, seconds: int)
    requires Serving(w, s, seconds)
    ensures s.cacheEnabled
  {
  }

  lemma TheSteps(env: Env, w: World, id: Id, p: Data, r: Request, later: real)
    ensures Step(env, w, UpdateBy(id, p)) == AfterUpdate(w, id, p)
    ensures var w1 := AfterUpdate(w, id, p);
            && Step(env, w1, SearchFor(r)) == AfterSearch(env, w1, r)
            && Step(env, AfterSearch(env, w1, r), ClockTo(later)) == AfterSearch(env, w1, r).(now := later)
  {
    hide AfterUpdate, AfterSearch;
  }

  lemma Waits(w: World, later: real)
    requires Coherent(w)
    ensures var x := w.(now := later);
            && Coherent(x) && Current(x) == Current(w) && ServiceOf(x, SEARCH) == ServiceOf(w, SEARCH)
            && (later - ServiceOf(w, SEARCH).time >= 60.0 ==> !LocalHit(ServiceOf(x, SEARCH), x.now))
  {
  }

  lemma StaysOn(s: RAGSettings, p: Data)
    requires s.cacheEnabled && p.cacheEnabled.None?
    ensures Patched(s, p).cacheEnabled
  {
    hide Defaults;
  }
}
