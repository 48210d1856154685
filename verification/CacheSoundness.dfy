/**
 Soundness of the response cache: in runs of atomic requests and admin patches over a fixed document
 index, a cache hit is the response that would be computed now -- up to the one request field that the
 key leaves out, `generate_answer`.
 */
module CacheSoundness {
  import opened Prelude
  import opened RagSettings
  import opened SettingsService
  import opened SearchCache
  import opened CacheRuns
  import opened AdminPatches

  /** Caching is on for `r` in `w`: by the settings, by the cache service, and with a usable lifetime. */
  ghost predicate Caches(w: World, r: Request) {
    var s := ApplyOverrides(ReadValue(w, SEARCH), r);
    w.shared.enabled && s.cacheEnabled && Ttl(w.shared, s.cacheSearchTtl) > 0
  }

  // ---------------------------------------------------------------- who stored what

  /** The cache is read for `r` and holds an unexpired response under its key. */
  ghost predicate LiveEntry(env: Env, w: World, r: Request) {
    var base := ReadValue(w, SEARCH);
    && w.shared.enabled && ApplyOverrides(base, r).cacheEnabled
    && Live(Lookup(w.shared.search, KeyOf(env, base, r)), w.now).Some?
  }

  lemma GetKeepsCache(v: Local, c: Shared, now: real)
    ensures var c1 := Get(v, c, now).2;
            c1.enabled == c.enabled && c1.defaultTtl == c.defaultTtl && c1.search == c.search
  {
    hide Build, Load, Dump, Live;
  }

  lemma AnsweredHits(env: Env, c: Shared, now: real, r: Request, base: RAGSettings)
    ensures Answered(env, c, now, r, base).1 <==>
              c.enabled && ApplyOverrides(base, r).cacheEnabled &&
              Live(Lookup(c.search, KeyOf(env, base, r)), now).Some?
  {
    hide ApplyOverrides, Fresh, Live, SearchKey;
  }

  /** A request is served from the cache exactly when there is such an entry. */
  lemma HitIffLive(env: Env, w: World, r: Request)
    ensures SearchResult(env, w, r).1 <==> LiveEntry(env, w, r)
  {
    GetKeepsCache(ServiceOf(w, SEARCH), w.shared, w.now);
    var (base, v, c) := Get(ServiceOf(w, SEARCH), w.shared, w.now);
    AnsweredHits(env, c, w.now, r, base);
    hide Get, Answered, ApplyOverrides, KeyOf, Live;
  }

  /** The request is answered by the pipeline and its response is stored. */
  ghost predicate Stores(env: Env, w: World, r: Request) {
    !LiveEntry(env, w, r) && Caches(w, r)
  }

  predicate Drops(e: Event) { e.PatchBy? || e.UpdateBy? || e.FlushSearch? || e.FlushAll? }

  /** For each key, the last request that stored a response under it since the cache was last emptied. */
  ghost function Storers(env: Env, w: World, events: seq<Event>): map<string, Request> {
    if events == [] then map[]
    else
      var front, e := events[..|events| - 1], events[|events| - 1];
      NextStorers(env, Run(env, w, front), Storers(env, w, front), e)
  }

  ghost function NextStorers(env: Env, w: World, storers: map<string, Request>, e: Event): map<string, Request> {
    if Drops(e) then map[]
    else if e.SearchFor? && Stores(env, w, e.request) then storers[KeyOf(env, Current(w), e.request) := e.request]
    else storers
  }

  /** `q` was asked at some point of the run, and the cache has not been emptied since. */
  ghost predicate Recent(events: seq<Event>, q: Request) {
    exists i :: 0 <= i < |events| && AskedAt(events, i, q)
  }

  ghost predicate AskedAt(events: seq<Event>, i: nat, q: Request)
    requires i < |events|
  {
    events[i] == SearchFor(q) && forall j :: i < j < |events| ==> !Drops(events[j])
  }

  lemma RecentSnoc(events: seq<Event>, q: Request)
    requires events != [] && !Drops(events[|events| - 1])
    ensures Recent(events[..|events| - 1], q) ==> Recent(events, q)
    ensures events[|events| - 1] == SearchFor(q) ==> Recent(events, q)
  {
    var front := events[..|events| - 1];
    if i :| 0 <= i < |front| && AskedAt(front, i, q) { assert AskedAt(events, i, q); }
    if events[|events| - 1] == SearchFor(q) { assert AskedAt(events, |events| - 1, q); }
  }

  lemma {:induction false} StorersAreRecent(env: Env, w: World, events: seq<Event>, k: string)
    requires k in Storers(env, w, events)
    ensures Recent(events, Storers(env, w, events)[k])
    decreases |events|
  {
    hide Recent, Run, Stores, KeyOf, Current;
    var front := events[..|events| - 1];
    RecentSnoc(events, Storers(env, w, events)[k]);
    if k in Storers(env, w, front) { StorersAreRecent(env, w, front, k); }
  }

  // ---------------------------------------------------------------- every stored response is current

  /** Every stored response was computed for its storer under the settings `base`. */
  ghost predicate Sound(env: Env, base: RAGSettings, search: map<string, Entry<Response>>,
                        storers: map<string, Request>) {
    forall k :: k in search ==>
      k in storers && KeyOf(env, base, storers[k]) == k && search[k].value == Fresh(env, base, storers[k])
  }

  lemma StoreIsSound(env: Env, base: RAGSettings, search: map<string, Entry<Response>>, storers: map<string, Request>,
                     r: Request, until: real)
    requires Sound(env, base, search, storers)
    ensures Sound(env, base, search[KeyOf(env, base, r) := Entry(Fresh(env, base, r), until)],
                  storers[KeyOf(env, base, r) := r])
  {
    hide KeyOf, Fresh;
  }

  /** A request that is answered under `base` stores exactly when it misses and caching is on. */
  lemma AnsweredIsSound(env: Env, c: Shared, now: real, r: Request, base: RAGSettings, storers: map<string, Request>)
    requires Sound(env, base, c.search, storers)
    ensures var (_, hit, c1) := Answered(env, c, now, r, base);
            var s := ApplyOverrides(base, r);
            var stored := !hit && c.enabled && s.cacheEnabled && Ttl(c, s.cacheSearchTtl) > 0;
            Sound(env, base, c1.search, if stored then storers[KeyOf(env, base, r) := r] else storers)
  {
    StoreIsSound(env, base, c.search, storers, r, now + Ttl(c, ApplyOverrides(base, r).cacheSearchTtl) as real);
    hide Sound, SearchKey, Fresh, ApplyOverrides, Live;
  }

  /** The search service reads the current settings and leaves the cached responses and the switches alone. */
  lemma SearchReads(w: World)
    requires Steady(w)
    ensures var (base, _, c) := Get(ServiceOf(w, SEARCH), w.shared, w.now);
            && base == Current(w) && ReadValue(w, SEARCH) == Current(w) && c.search == w.shared.search
            && c.enabled == w.shared.enabled && c.defaultTtl == w.shared.defaultTtl
  {
    SteadyRead(w, SEARCH);
    ReadStep(ServiceOf(w, SEARCH), w.shared, w.now);
    GetKeepsCache(ServiceOf(w, SEARCH), w.shared, w.now);
    hide Get, Load;
  }

  lemma AnswerParts(env: Env, w: World, r: Request)
    ensures var (base, _, c) := Get(ServiceOf(w, SEARCH), w.shared, w.now);
            var (response, hit, c1) := Answered(env, c, w.now, r, base);
            SearchResult(env, w, r) == (response, hit) && AfterSearch(env, w, r).shared == c1
  {
    hide Get, Answered;
  }

  /** A search step in terms of what the service reads. */
  lemma SearchAnswers(env: Env, w: World, r: Request)
    requires Steady(w)
    ensures var (base, _, c) := Get(ServiceOf(w, SEARCH), w.shared, w.now);
            var (response, hit, c1) := Answered(env, c, w.now, r, base);
            && SearchResult(env, w, r) == (response, hit) && AfterSearch(env, w, r).shared == c1
            && var s := ApplyOverrides(base, r);
               Stores(env, w, r) <==> !hit && c.enabled && s.cacheEnabled && Ttl(c, s.cacheSearchTtl) > 0
  {
    SearchReads(w);
    HitIffLive(env, w, r);
    AnswerParts(env, w, r);
    hide Get, Answered, ApplyOverrides, Steady, Current, ReadValue, LiveEntry, SearchResult, AfterSearch;
  }

  lemma SearchKeepsSound(env: Env, w: World, r: Request, storers: map<string, Request>)
    requires Steady(w) && Sound(env, Current(w), w.shared.search, storers)
    ensures Sound(env, Current(w), AfterSearch(env, w, r).shared.search, NextStorers(env, w, storers, SearchFor(r)))
  {
    SearchReads(w);
    SearchAnswers(env, w, r);
    var (base, v, c) := Get(ServiceOf(w, SEARCH), w.shared, w.now);
    AnsweredIsSound(env, c, w.now, r, base, storers);
    hide *;
    SearchStores(env, w, storers, r);
  }

  lemma SearchStores(env: Env, w: World, storers: map<string, Request>, r: Request)
    ensures NextStorers(env, w, storers, SearchFor(r)) ==
            if Stores(env, w, r) then storers[KeyOf(env, Current(w), r) := r] else storers
  {
    hide Stores, KeyOf, Current;
  }

  lemma PatchEmpties(w: World, p: Data)
    requires Steady(w)
    ensures AfterPatch(w, p).shared.search == map[]
  {
    UpdateStep(ServiceOf(w, ADMIN), w.shared, w.now, p);
    hide Update;
  }

  lemma ReadKeepsSearch(w: World, id: Id)
    requires Steady(w)
    ensures AfterRead(w, id).shared.search == w.shared.search
  {
    ReadStep(ServiceOf(w, id), w.shared, w.now);
    hide Get, Load;
  }

  lemma StepKeepsSound(env: Env, w: World, e: Event, storers: map<string, Request>)
    requires Steady(w) && !e.UpdateBy? && Sound(env, Current(w), w.shared.search, storers)
    ensures Sound(env, Current(Step(env, w, e)), Step(env, w, e).shared.search, NextStorers(env, w, storers, e))
  {
    CurrentStep(env, w, e);
    hide Current, AfterRead, AfterPatch, AfterSearch, Stores, Steady, Sound;
    if e.SearchFor? {
      hide NextStorers;
      SearchKeepsSound(env, w, e.request, storers);
    } else if Drops(e) {
      NothingStored(env, Current(Step(env, w, e)), NextStorers(env, w, storers, e));
      if e.PatchBy? { PatchEmpties(w, e.updates); }
    } else if e.ReadBy? {
      ReadKeepsSearch(w, e.id);
    }
  }

  lemma NothingStored(env: Env, base: RAGSettings, storers: map<string, Request>)
    ensures Sound(env, base, map[], storers)
  {
  }

  lemma {:induction false} RunIsSound(env: Env, w: World, events: seq<Event>)
    requires Steady(w) && AdminOnly(events) && w.shared.search == map[]
    ensures Sound(env, Current(Run(env, w, events)), Run(env, w, events).shared.search, Storers(env, w, events))
    decreases |events|
  {
    if events == [] {
    } else {
      hide Steady, Step, Current, Sound, NextStorers;
      var front := events[..|events| - 1];
      RunIsSteady(env, w, front);
      RunIsSound(env, w, front);
      StepKeepsSound(env, Run(env, w, front), events[|events| - 1], Storers(env, w, front));
    }
  }

  lemma AnswerIsCurrent(env: Env, c: Shared, now: real, base: RAGSettings, storers: map<string, Request>, r: Request)
    requires Sound(env, base, c.search, storers)
    ensures var (response, hit, _) := Answered(env, c, now, r, base);
            var k := KeyOf(env, base, r);
            && (hit ==> k in storers && KeyOf(env, base, storers[k]) == k && response == Fresh(env, base, storers[k]))
            && (!hit ==> response == Fresh(env, base, r))
  {
    hide ApplyOverrides, Fresh, SearchKey;
  }

  /** The request that stored the live entry under the key of `r`, if caching is on and there is one. */
  ghost function Storer(env: Env, w: World, events: seq<Event>, r: Request): Option<Request> {
    var last, storers := Run(env, w, events), Storers(env, w, events);
    var k := KeyOf(env, Current(last), r);
    if LiveEntry(env, last, r) && k in storers then Some(storers[k]) else None
  }

  lemma ServedFrom(env: Env, w: World, events: seq<Event>, r: Request)
    requires Steady(w) && w.shared.search == map[] && AdminOnly(events)
    ensures var last, k := Run(env, w, events), KeyOf(env, Current(Run(env, w, events)), r);
            var (response, hit) := SearchResult(env, last, r);
            && (hit <==> Storer(env, w, events, r).Some?)
            && (hit ==>
                  && k in Storers(env, w, events)
                  && Storer(env, w, events, r) == Some(Storers(env, w, events)[k])
                  && KeyOf(env, Current(last), Storers(env, w, events)[k]) == k
                  && response == Fresh(env, Current(last), Storers(env, w, events)[k]))
            && (!hit ==> response == Fresh(env, Current(last), r))
  {
    var last := Run(env, w, events);
    RunIsSteady(env, w, events);
    RunIsSound(env, w, events);
    SearchReads(last);
    HitIffLive(env, last, r);
    var (base, v, c) := Get(ServiceOf(last, SEARCH), last.shared, last.now);
    AnswerIsCurrent(env, c, last.now, base, Storers(env, w, events), r);
    hide Get, Load, Answered, Sound, Run, Steady, Storers, AdminOnly, Fresh, KeyOf, LiveEntry;
  }

  /** Equal query and equal effective settings: all that the pipeline sees of a request but its answer flag. */
  ghost predicate SameSearch(base: RAGSettings, q: Request, r: Request) {
    q.query == r.query && ApplyOverrides(base, q) == ApplyOverrides(base, r)
  }

  /** The two digests separate `r` from the requests whose responses may still be stored. */
  ghost predicate Separated(env: Env, base: RAGSettings, events: seq<Event>, r: Request) {
    forall q :: Recent(events, q) ==> NoCollision(env, base, q, r)
  }

  /**
   Soundness: whatever reads, searches, patches, flushes and waits came before, a response served from
   the cache was stored by a request with this query and these effective settings, asked since the
   cache was last emptied, and it is what the pipeline answers that request with under the settings
   in force now. A response that is not from the cache is the pipeline's.
   */
  lemma CacheHitIsCurrent(env: Env, w: World, events: seq<Event>, r: Request)
    requires Steady(w) && w.shared.search == map[] && AdminOnly(events)
    requires Separated(env, Current(Run(env, w, events)), events, r)
    ensures var base := Current(Run(env, w, events));
            var (response, hit) := SearchResult(env, Run(env, w, events), r);
            match Storer(env, w, events, r)
            case None => !hit && response == Fresh(env, base, r)
            case Some(q) => hit && Recent(events, q) && SameSearch(base, q, r) && response == Fresh(env, base, q)
  {
    var base, k := Current(Run(env, w, events)), KeyOf(env, Current(Run(env, w, events)), r);
    ServedFrom(env, w, events, r);
    if k in Storers(env, w, events) {
      var q := Storers(env, w, events)[k];
      StorersAreRecent(env, w, events, k);
      if KeyOf(env, base, q) == k { KeyMeaning(env, base, q, r); }
    }
    hide SearchResult, Current, Run, Storer, Storers, Recent, Steady, AdminOnly, Fresh, KeyOf, NoCollision,
         ApplyOverrides;
  }

  /** So the response is right whenever the requests for the same search since then carry one answer flag. */
  lemma UniformFlagsAreSound(env: Env, w: World, events: seq<Event>, r: Request)
    requires Steady(w) && w.shared.search == map[] && AdminOnly(events)
    requires Separated(env, Current(Run(env, w, events)), events, r)
    requires forall q :: Recent(events, q) && SameSearch(Current(Run(env, w, events)), q, r) ==>
               q.generateAnswer == r.generateAnswer
    ensures SearchResult(env, Run(env, w, events), r).0 == Fresh(env, Current(Run(env, w, events)), r)
  {
    CacheHitIsCurrent(env, w, events, r);
    hide SearchResult, Current, Run, Steady, Storer, Recent, AdminOnly, ApplyOverrides, Separated;
  }

  // ---------------------------------------------------------------- exactly when

  function With(env: Env, orchestrate: (string, RAGSettings, bool) -> Response): Env {
    env.(orchestrate := orchestrate)
  }

  function Expiries(search: map<string, Entry<Response>>): map<string, real> {
    map k | k in search :: search[k].until
  }

  /** The same but for the content of the cached responses. */
  ghost predicate SameShared(c: Shared, d: Shared) {
    c.(search := map[]) == d.(search := map[]) && Expiries(c.search) == Expiries(d.search)
  }

  ghost predicate SameWorld(w: World, x: World) {
    w.now == x.now && w.services == x.services && SameShared(w.shared, x.shared)
  }

  lemma SameGet(v: Local, c: Shared, d: Shared, now: real)
    requires SameShared(c, d)
    ensures var (s, v1, c1) := Get(v, c, now);
            var (t, v2, d1) := Get(v, d, now);
            s == t && v1 == v2 && SameShared(c1, d1) && c1.search == c.search && d1.search == d.search
  {
    hide Build, Load, Dump, Live, Expiries;
  }

  lemma SameUpdate(v: Local, c: Shared, d: Shared, now: real, p: Data)
    requires SameShared(c, d)
    ensures var (s, v1, c1) := Update(v, c, now, p);
            var (t, v2, d1) := Update(v, d, now, p);
            s == t && v1 == v2 && SameShared(c1, d1)
  {
    SameGet(v, c, d, now);
    var s := Patched(Get(v, c, now).0, p);
    SameSaved(v, Get(v, c, now).2, Get(v, d, now).2, s);
    hide Get, Patched, Saved, Dropped, SameShared;
  }

  lemma SameSaved(v: Local, c: Shared, d: Shared, s: RAGSettings)
    requires SameShared(c, d)
    ensures SameShared(Dropped(v.usesCache, Saved(v.usesDb, c, s)), Dropped(v.usesCache, Saved(v.usesDb, d, s)))
  {
    hide Dump;
  }

  lemma SameLookup(c: map<string, Entry<Response>>, d: map<string, Entry<Response>>, k: string, now: real)
    requires Expiries(c) == Expiries(d)
    ensures Live(Lookup(c, k), now).Some? <==> Live(Lookup(d, k), now).Some?
  {
    assert k in Expiries(c) <==> k in c;
    assert k in Expiries(d) <==> k in d;
    if k in c { assert Expiries(c)[k] == Expiries(d)[k]; }
  }

  lemma SameStore(c: map<string, Entry<Response>>, d: map<string, Entry<Response>>, k: string,
                  x: Response, y: Response, until: real)
    requires Expiries(c) == Expiries(d)
    ensures Expiries(c[k := Entry(x, until)]) == Expiries(d[k := Entry(y, until)])
  {
    assert Expiries(c[k := Entry(x, until)]) == Expiries(c)[k := until];
    assert Expiries(d[k := Entry(y, until)]) == Expiries(d)[k := until];
  }

  lemma SameAnswered(env: Env, orchestrate: (string, RAGSettings, bool) -> Response, c: Shared, d: Shared, now: real,
                     r: Request, base: RAGSettings)
    requires SameShared(c, d)
    ensures var (_, hit, c1) := Answered(env, c, now, r, base);
            var (_, hit', d1) := Answered(With(env, orchestrate), d, now, r, base);
            hit == hit' && SameShared(c1, d1)
  {
    var s := ApplyOverrides(base, r);
    var k := SearchKey(env, r.query, s);
    SameLookup(c.search, d.search, k, now);
    SameStore(c.search, d.search, k, Fresh(env, base, r), Fresh(With(env, orchestrate), base, r),
              now + Ttl(c, s.cacheSearchTtl) as real);
    hide ApplyOverrides, Fresh, Live, Expiries;
  }

  lemma SameStep(env: Env, orchestrate: (string, RAGSettings, bool) -> Response, w: World, x: World, e: Event)
    requires SameWorld(w, x)
    ensures SameWorld(Step(env, w, e), Step(With(env, orchestrate), x, e))
  {
    hide Get, Update, Answered, Patched, With;
    match e
    case ReadBy(id) => SameGet(ServiceOf(w, id), w.shared, x.shared, w.now);
    case UpdateBy(id, p) => SameUpdate(ServiceOf(w, id), w.shared, x.shared, w.now, p);
    case PatchBy(p) => SameUpdate(ServiceOf(w, ADMIN), w.shared, x.shared, w.now, p);
    case SearchFor(r) =>
      SameGet(ServiceOf(w, SEARCH), w.shared, x.shared, w.now);
      var (base, v, c) := Get(ServiceOf(w, SEARCH), w.shared, w.now);
      SameAnswered(env, orchestrate, c, Get(ServiceOf(w, SEARCH), x.shared, w.now).2, w.now, r, base);
    case _ =>
  }

  /** Hits, current settings, keys and the decision to store do not depend on the pipeline. */
  lemma SameDecisions(env: Env, orchestrate: (string, RAGSettings, bool) -> Response, w: World, x: World, r: Request)
    requires SameWorld(w, x)
    ensures LiveEntry(env, w, r) == LiveEntry(With(env, orchestrate), x, r)
    ensures Current(w) == Current(x) && Caches(w, r) == Caches(x, r)
    ensures KeyOf(env, Current(w), r) == KeyOf(With(env, orchestrate), Current(x), r)
  {
    HitIffLive(env, w, r);
    HitIffLive(With(env, orchestrate), x, r);
    hide Get, Answered, ApplyOverrides, LiveEntry;
    SameGet(ServiceOf(w, SEARCH), w.shared, x.shared, w.now);
    var (base, v, c) := Get(ServiceOf(w, SEARCH), w.shared, w.now);
    SameAnswered(env, orchestrate, c, Get(ServiceOf(w, SEARCH), x.shared, w.now).2, w.now, r, base);
  }

  /** So the whole run decides alike under any pipeline: only the contents of the responses differ. */
  lemma {:induction false} SameRun(env: Env, orchestrate: (string, RAGSettings, bool) -> Response, w: World,
                                   events: seq<Event>)
    ensures SameWorld(Run(env, w, events), Run(With(env, orchestrate), w, events))
    decreases |events|
  {
    if events == [] {
    } else {
      hide Step, SameWorld, With;
      var front, e := events[..|events| - 1], events[|events| - 1];
      SameRun(env, orchestrate, w, front);
      SameStep(env, orchestrate, Run(env, w, front), Run(With(env, orchestrate), w, front), e);
    }
  }

  lemma {:induction false} SameStorers(env: Env, orchestrate: (string, RAGSettings, bool) -> Response, w: World,
                                       events: seq<Event>)
    ensures Storers(env, w, events) == Storers(With(env, orchestrate), w, events)
    decreases |events|
  {
    if events == [] {
    } else {
      hide Run, SameWorld, With, LiveEntry, KeyOf, Current, Caches;
      var front, e := events[..|events| - 1], events[|events| - 1];
      SameStorers(env, orchestrate, w, front);
      SameRun(env, orchestrate, w, front);
      var before, other := Run(env, w, front), Run(With(env, orchestrate), w, front);
      if e.SearchFor? { SameDecisions(env, orchestrate, before, other, e.request); }
    }
  }

  lemma SameStorer(env: Env, orchestrate: (string, RAGSettings, bool) -> Response, w: World, events: seq<Event>,
                   r: Request)
    ensures Storer(With(env, orchestrate), w, events, r) == Storer(env, w, events, r)
    ensures Current(Run(With(env, orchestrate), w, events)) == Current(Run(env, w, events))
  {
    hide Run, Storers, LiveEntry, Current, SameWorld, With, KeyOf;
    SameRun(env, orchestrate, w, events);
    SameStorers(env, orchestrate, w, events);
    SameDecisions(env, orchestrate, Run(env, w, events), Run(With(env, orchestrate), w, events), r);
  }

  /** The response to `r` after the run is the one that `env` would compute. */
  ghost predicate Right(env: Env, w: World, events: seq<Event>, r: Request) {
    SearchResult(env, Run(env, w, events), r).0 == Fresh(env, Current(Run(env, w, events)), r)
  }

  lemma SameSeparated(env: Env, orchestrate: (string, RAGSettings, bool) -> Response, base: RAGSettings,
                      events: seq<Event>, r: Request)
    requires Separated(env, base, events, r)
    ensures Separated(With(env, orchestrate), base, events, r)
  {
    hide Recent, Subset, ApplyOverrides, RawKey;
    forall q | Recent(events, q) ensures NoCollision(With(env, orchestrate), base, q, r) {
      assert NoCollision(env, base, q, r);
    }
  }

  /** Under one pipeline the response is right if the request that stored it asked with the same flag. */
  lemma SameFlagIsRight(env: Env, w: World, events: seq<Event>, r: Request)
    requires Steady(w) && w.shared.search == map[] && AdminOnly(events)
    requires Separated(env, Current(Run(env, w, events)), events, r)
    requires var q := Storer(env, w, events, r); q.Some? ==> q.value.generateAnswer == r.generateAnswer
    ensures Right(env, w, events, r)
  {
    CacheHitIsCurrent(env, w, events, r);
    hide SearchResult, Current, Run, Steady, Storer, Recent, AdminOnly, ApplyOverrides, Separated;
  }

  /** A pipeline that writes an answer only when asked to. */
  function AnswersOnRequest(): Env {
    Env(m => "0123456789abcdef", key => key,
        (query, s, wanted) => Response(query, if wanted then "answer" else "", []))
  }

  /** Under a pipeline that heeds the flag, it is wrong if that request asked with the other flag. */
  lemma OtherFlagIsWrong(env: Env, w: World, events: seq<Event>, r: Request)
    requires Steady(w) && w.shared.search == map[] && AdminOnly(events)
    requires env.orchestrate == AnswersOnRequest().orchestrate
    requires Storer(env, w, events, r).Some?
    requires Storer(env, w, events, r).value.generateAnswer != r.generateAnswer
    ensures !Right(env, w, events, r)
  {
    ServedFrom(env, w, events, r);
    var q := Storer(env, w, events, r).value;
    FlagShows(Current(Run(env, w, events)), env, q, r);
    hide SearchResult, Current, Run, Steady, Storer, Storers, AdminOnly, KeyOf, Fresh;
  }

  lemma FlagShows(base: RAGSettings, env: Env, q: Request, r: Request)
    requires env.orchestrate == AnswersOnRequest().orchestrate && q.generateAnswer != r.generateAnswer
    ensures Fresh(env, base, q) != Fresh(env, base, r)
  {
    hide ApplyOverrides;
    assert Fresh(env, base, q).answer != Fresh(env, base, r).answer;
  }

  /**
   Exactly when the cache is right: after any run, the response to `r` is the one computed now, whatever
   the pipeline does, if and only if it is not served from the cache or the request that stored it
   carried the same `generate_answer`.
   */
  lemma RightIffSameFlag(env: Env, w: World, events: seq<Event>, r: Request)
    requires Steady(w) && w.shared.search == map[] && AdminOnly(events)
    requires Separated(env, Current(Run(env, w, events)), events, r)
    ensures (forall orchestrate :: Right(With(env, orchestrate), w, events, r)) <==>
              var q := Storer(env, w, events, r); q.Some? ==> q.value.generateAnswer == r.generateAnswer
  {
    hide *;
    var q := Storer(env, w, events, r);
    if q.Some? ==> q.value.generateAnswer == r.generateAnswer {
      forall orchestrate ensures Right(With(env, orchestrate), w, events, r) {
        SameStorer(env, orchestrate, w, events, r);
        SameSeparated(env, orchestrate, Current(Run(env, w, events)), events, r);
        SameFlagIsRight(With(env, orchestrate), w, events, r);
      }
    } else {
      var heeds := AnswersOnRequest().orchestrate;
      SameStorer(env, heeds, w, events, r);
      WithIs(env, heeds);
      OtherFlagIsWrong(With(env, heeds), w, events, r);
    }
  }

  lemma WithIs(env: Env, orchestrate: (string, RAGSettings, bool) -> Response)
    ensures With(env, orchestrate).orchestrate == orchestrate
  {
  }

  // ---------------------------------------------------------------- repeating a request

  lemma GetTwice(v: Local, c: Shared, now: real)
    ensures var (s, v1, c1) := Get(v, c, now);
            Get(v1, c1, now) == (s, v1, c1) && c1.enabled == c.enabled && c1.defaultTtl == c.defaultTtl
  {
    hide Build, Load, Dump, Live, Counted;
    assert forall hit :: Counted(c, hit).enabled == c.enabled && Counted(c, hit).defaultTtl == c.defaultTtl by {
      CountedKeeps(c);
    }
  }

  lemma CountedKeeps(c: Shared)
    ensures forall hit ::
              && Counted(c, hit).enabled == c.enabled && Counted(c, hit).defaultTtl == c.defaultTtl
              && Counted(c, hit).search == c.search
  {
  }

  lemma SameEffective(base: RAGSettings, r: Request, flag: bool)
    ensures ApplyOverrides(base, r.(generateAnswer := flag)) == ApplyOverrides(base, r)
  {
    hide Override;
  }

  lemma AnsweredTwice(env: Env, c: Shared, now: real, r: Request, base: RAGSettings, flag: bool)
    requires c.enabled && ApplyOverrides(base, r).cacheEnabled
    requires Ttl(c, ApplyOverrides(base, r).cacheSearchTtl) > 0
    ensures var (response, _, c1) := Answered(env, c, now, r, base);
            var (again, hit, _) := Answered(env, c1, now, r.(generateAnswer := flag), base);
            again == response && hit
  {
    SameEffective(base, r, flag);
    hide ApplyOverrides, SearchKey, Fresh;
  }

  /** The flag is not in the key: a request repeated at once with any answer flag gets the very same response. */
  lemma AnswerFlagIsIgnored(env: Env, w: World, r: Request, flag: bool)
    requires Caches(w, r)
    ensures SearchResult(env, AfterSearch(env, w, r), r.(generateAnswer := flag)) == (SearchResult(env, w, r).0, true)
  {
    GetTwice(ServiceOf(w, SEARCH), w.shared, w.now);
    var (base, v, c) := Get(ServiceOf(w, SEARCH), w.shared, w.now);
    AnsweredTwice(env, c, w.now, r, base, flag);
    hide Get, Answered, ApplyOverrides;
  }

  /** What a miss answers and whether it is one do not depend on the cached responses. */
  lemma MissIsFresh(env: Env, w: World, r: Request)
    requires !LiveEntry(env, w, r)
    ensures SearchResult(env, w, r).0 == Fresh(env, ReadValue(w, SEARCH), r)
  {
    HitIffLive(env, w, r);
    hide LiveEntry;
    hide Get, ApplyOverrides, Fresh, SearchKey;
  }

  lemma SameMiss(env: Env, orchestrate: (string, RAGSettings, bool) -> Response, w: World, r: Request)
    ensures LiveEntry(With(env, orchestrate), w, r) == LiveEntry(env, w, r)
  {
    SameDecisions(env, orchestrate, w, w, r);
  }

  /**
   The repeat of a request that was not served from the cache is right, for every pipeline, exactly
   with the same flag.
   */
  lemma RepeatIsRightIffSameFlag(env: Env, w: World, r: Request, flag: bool)
    requires Caches(w, r) && !LiveEntry(env, w, r)
    ensures (forall orchestrate ::
               var e := With(env, orchestrate);
               SearchResult(e, AfterSearch(e, w, r), r.(generateAnswer := flag)).0
                 == Fresh(e, ReadValue(w, SEARCH), r.(generateAnswer := flag))) <==>
            flag == r.generateAnswer
  {
    hide *;
    forall orchestrate
      ensures var e := With(env, orchestrate);
              SearchResult(e, AfterSearch(e, w, r), r.(generateAnswer := flag)).0 == Fresh(e, ReadValue(w, SEARCH), r)
    {
      SameMiss(env, orchestrate, w, r);
      MissIsFresh(With(env, orchestrate), w, r);
      AnswerFlagIsIgnored(With(env, orchestrate), w, r, flag);
    }
    if flag == r.generateAnswer {
      assert r.(generateAnswer := flag) == r;
    } else {
      var heeds := AnswersOnRequest().orchestrate;
      WithIs(env, heeds);
      FlagShows(ReadValue(w, SEARCH), With(env, heeds), r, r.(generateAnswer := flag));
    }
  }

  function JustStarted(): World { World(0.0, Shared(None, None, map[], true, 3600, 0, 0), map[]) }

  /** The defect on a fresh system: asking without an answer and then with one gives no answer. */
  lemma AnswerIsMissing(r: Request)
    requires !r.generateAnswer
    ensures var env, w := AnswersOnRequest(), JustStarted();
            && SearchResult(env, AfterSearch(env, w, r), r.(generateAnswer := true)) ==
                (Response(r.query, "", []), true)
            && Fresh(env, Current(w), r.(generateAnswer := true)) == Response(r.query, "answer", [])
  {
    assert Caches(JustStarted(), r);
    AnswerFlagIsIgnored(AnswersOnRequest(), JustStarted(), r, true);
    assert SearchResult(AnswersOnRequest(), JustStarted(), r).0 == Response(r.query, "", []) by {
      hide Caches, ApplyOverrides, Build, Dump;
    }
    hide SearchResult, AfterSearch, ApplyOverrides;
  }
}
