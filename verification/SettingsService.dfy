/**
 The three tiers behind the settings -- a local copy per service, Redis and the database row -- and the
 cache service in front of Redis (backend/app/services/settings.py, cache.py, api/settings.py:31-60).

 Every method is proved against a function on `Shared` (what the services of one process share) and
 `Local` (one service's own copy). A call reads the clock once. Redis and the database do not fail.
 */
module SettingsService {
  import opened Prelude
  import opened RagSettings

  const CACHE_TTL := 60.0

  datatype Response = Response(query: string, answer: string, results: seq<string>)

  /** A Redis value and when it expires. */
  datatype Entry<T> = Entry(value: T, until: real)

  function Live<T>(e: Option<Entry<T>>, now: real): Option<T> {
    if e.Some? && now < e.value.until then Some(e.value.value) else None
  }

  function Lookup<T>(m: map<string, Entry<T>>, key: string): Option<Entry<T>> {
    if key in m then Some(m[key]) else None
  }

  datatype Shared = Shared(
    row: Option<Data>,
    entry: Option<Entry<Data>>,
    search: map<string, Entry<Response>>,
    enabled: bool,
    defaultTtl: int,
    hits: nat,
    misses: nat)

  /** One settings service; `usesDb` and `usesCache` say what its constructor was given. */
  datatype Local = Local(usesDb: bool, usesCache: bool, copy: Option<RAGSettings>, time: real)

  // ---------------------------------------------------------------- the specification functions

  function Counted(c: Shared, hit: bool): Shared {
    if hit then c.(hits := c.hits + 1) else c.(misses := c.misses + 1)
  }

  function CacheGet(c: Shared, now: real): (Option<Data>, Shared) {
    if !c.enabled then (None, c) else (Live(c.entry, now), Counted(c, Live(c.entry, now).Some?))
  }

  function SearchGet(c: Shared, now: real, key: string): (Option<Response>, Shared) {
    if !c.enabled then (None, c)
    else (Live(Lookup(c.search, key), now), Counted(c, Live(Lookup(c.search, key), now).Some?))
  }

  /** `ttl or default`: zero counts as not given. */
  function Ttl(c: Shared, ttl: int): int { if ttl == 0 then c.defaultTtl else ttl }

  /** SETEX refuses a non-positive time, and the refusal is swallowed. */
  function CacheSet(c: Shared, now: real, d: Data, ttl: int): Shared {
    if c.enabled && Ttl(c, ttl) > 0 then c.(entry := Some(Entry(d, now + Ttl(c, ttl) as real))) else c
  }

  function SearchSet(c: Shared, now: real, key: string, value: Response, ttl: int): Shared {
    if c.enabled && Ttl(c, ttl) > 0 then c.(search := c.search[key := Entry(value, now + Ttl(c, ttl) as real)]) else c
  }

  function Load(usesDb: bool, row: Option<Data>): RAGSettings {
    if usesDb && row.Some? then Build(row.value) else Build(EMPTY)
  }

  const EMPTY := Data(map[], None, None, PerGuard(None, None, None, None, None), None)

  function Keep(v: Local, s: RAGSettings, now: real): Local { v.(copy := Some(s), time := now) }

  function LocalHit(v: Local, now: real): bool { v.copy.Some? && now - v.time < CACHE_TTL }

  function Refreshed(v: Local, c: Shared, now: real): (RAGSettings, Local, Shared) {
    var (hit, c1) := if v.usesCache then CacheGet(c, now) else (None, c);
    if hit.Some? then (Build(hit.value), Keep(v, Build(hit.value), now), c1)
    else
      var s := Load(v.usesDb, c1.row);
      (s, Keep(v, s, now), if v.usesCache then CacheSet(c1, now, Dump(s), 60) else c1)
  }

  function Get(v: Local, c: Shared, now: real): (RAGSettings, Local, Shared) {
    if LocalHit(v, now) then (v.copy.value, v, c) else Refreshed(v, c, now)
  }

  function Saved(usesDb: bool, c: Shared, s: RAGSettings): Shared {
    if usesDb then c.(row := Some(Dump(s))) else c
  }

  function Dropped(usesCache: bool, c: Shared): Shared {
    if usesCache then c.(entry := None, search := map[]) else c
  }

  function Update(v: Local, c: Shared, now: real, p: Data): (RAGSettings, Local, Shared) {
    var (current, v1, c1) := Get(v, c, now);
    var updated := Patched(current, p);
    (updated, v1.(copy := None), Dropped(v.usesCache, Saved(v.usesDb, c1, updated)))
  }

  /**
   The PATCH endpoint: update through the admin's service, clear the search service's copy, set the
   cache's switches.
   */
  function Patch(admin: Local, search: Local, c: Shared, now: real, p: Data): (RAGSettings, Local, Local, Shared) {
    var (updated, a1, c1) := Update(admin, c, now, p);
    (updated, a1, search.(copy := None, time := 0.0),
     c1.(enabled := updated.cacheEnabled, defaultTtl := updated.cacheSearchTtl))
  }

  // ---------------------------------------------------------------- which tier answers

  /** Redis answers: the cache is there and on, and holds an entry that has not expired. */
  ghost predicate RedisAnswers(v: Local, c: Shared, now: real) {
    v.usesCache && c.enabled && c.entry.Some? && now < c.entry.value.until
  }

  /**
   A read: for 60 seconds the service's own copy, and then nothing is touched; or else the Redis entry
   until it expires, counted as a hit; or else the row, or the defaults without one, counted as a miss
   and stored in Redis for another 60 seconds. What was read becomes the service's copy.
   */
  lemma ReadTiers(v: Local, c: Shared, now: real)
    ensures var (s, v1, c1) := Get(v, c, now);
            if v.copy.Some? && now - v.time < 60.0 then s == v.copy.value && v1 == v && c1 == c
            else
              && v1 == v.(copy := Some(s), time := now)
              && if RedisAnswers(v, c, now) then s == Build(c.entry.value.value) && c1 == c.(hits := c.hits + 1)
                 else
                   && s == Build(if v.usesDb && c.row.Some? then c.row.value else EMPTY)
                   && c1 == if v.usesCache && c.enabled
                            then c.(misses := c.misses + 1, entry := Some(Entry(Dump(s), now + 60.0))) else c
  {
    hide Build, Dump;
  }

  /** A patch hands the new switches to the cache service and makes the search service read again. */
  lemma PatchSwitches(admin: Local, search: Local, c: Shared, now: real, p: Data)
    ensures var (updated, a1, s1, c1) := Patch(admin, search, c, now, p);
            && c1.enabled == updated.cacheEnabled && c1.defaultTtl == updated.cacheSearchTtl
            && a1.copy.None? && s1.copy.None?
            && (admin.usesDb ==> c1.row == Some(Dump(updated)))
            && (admin.usesCache ==> c1.entry.None? && c1.search == map[])
  {
    hide Get, Dump, Patched;
  }

  // ---------------------------------------------------------------- the objects

  class Database {
    var row: Option<Data>

    constructor (initial: Option<Data>)
      ensures row == initial
    {
      row := initial;
    }
  }

  class CacheService {
    var entry: Option<Entry<Data>>
    var search: map<string, Entry<Response>>
    var enabled: bool
    var defaultTtl: int
    var hits: nat
    var misses: nat

    constructor (ttl: int, on: bool)
      ensures entry == None && search == map[] && enabled == on && defaultTtl == ttl && hits == 0 && misses == 0
    {
      entry, search, enabled, defaultTtl, hits, misses := None, map[], on, ttl, 0, 0;
    }

    ghost function View(row: Option<Data>): Shared
      reads this
    {
      Shared(row, entry, search, enabled, defaultTtl, hits, misses)
    }

    method GetEntry(now: real) returns (hit: Option<Data>)
      modifies this
      ensures forall row :: (hit, View(row)) == CacheGet(old(View(row)), now)
    {
      if !enabled { return None; }
      hit := Live(entry, now);
      if hit.Some? { hits := hits + 1; } else { misses := misses + 1; }
    }

    method SetEntry(now: real, d: Data, ttl: int)
      modifies this
      ensures forall row :: View(row) == CacheSet(old(View(row)), now, d, ttl)
    {
      if !enabled { return; }
      var seconds := if ttl == 0 then defaultTtl else ttl;
      if seconds > 0 { entry := Some(Entry(d, now + seconds as real)); }
    }

    method GetSearch(now: real, key: string) returns (hit: Option<Response>)
      modifies this
      ensures forall row :: (hit, View(row)) == SearchGet(old(View(row)), now, key)
    {
      if !enabled { return None; }
      hit := if key in search && now < search[key].until then Some(search[key].value) else None;
      if hit.Some? { hits := hits + 1; } else { misses := misses + 1; }
    }

    method SetSearch(now: real, key: string, value: Response, ttl: int)
      modifies this
      ensures forall row :: View(row) == SearchSet(old(View(row)), now, key, value, ttl)
    {
      if !enabled { return; }
      var seconds := if ttl == 0 then defaultTtl else ttl;
      if seconds > 0 { search := search[key := Entry(value, now + seconds as real)]; }
    }

    method InvalidateSettings()
      modifies this
      ensures forall row :: View(row) == old(View(row)).(entry := None)
    {
      entry := None;
    }

    /** Works with the cache switched off as well. */
    method InvalidateSearch()
      modifies this
      ensures forall row :: View(row) == old(View(row)).(search := map[])
    {
      search := map[];
    }

    method InvalidateAll()
      modifies this
      ensures forall row :: View(row) == FlushedAll(old(View(row)))
    {
      entry, search, hits, misses := None, map[], 0, 0;
    }
  }

  function FlushedAll(c: Shared): Shared { c.(entry := None, search := map[], hits := 0, misses := 0) }

  class Service {
    const db: Database
    const cache: CacheService
    const usesDb: bool
    const usesCache: bool
    var localCache: Option<RAGSettings>
    var cacheTime: real

    constructor (database: Database, c: CacheService, withDb: bool, withCache: bool)
      ensures db == database && cache == c && View() == Local(withDb, withCache, None, 0.0)
    {
      db, cache, usesDb, usesCache := database, c, withDb, withCache;
      localCache, cacheTime := None, 0.0;
    }

    ghost function View(): Local
      reads this
    {
      Local(usesDb, usesCache, localCache, cacheTime)
    }

    ghost function Around(): Shared
      reads db, cache
    {
      cache.View(db.row)
    }

    method GetSettings(now: real) returns (s: RAGSettings)
      modifies this, cache
      ensures (s, View(), Around()) == Get(old(View()), old(Around()), now)
    {
      hide Build, Dump, CacheGet, CacheSet;
      if localCache.Some? && now - cacheTime < CACHE_TTL { return localCache.value; }
      if usesCache {
        var cached := cache.GetEntry(now);
        if cached.Some? {
          localCache, cacheTime := Some(Build(cached.value)), now;
          return localCache.value;
        }
      }
      s := if usesDb && db.row.Some? then Build(db.row.value) else Build(EMPTY);
      localCache, cacheTime := Some(s), now;
      if usesCache { cache.SetEntry(now, Dump(s), 60); }
    }

    method UpdateSettings(now: real, updates: Data) returns (updated: RAGSettings)
      modifies this, db, cache
      ensures (updated, View(), Around()) == Update(old(View()), old(Around()), now, updates)
    {
      var current := GetSettings(now);
      updated := Build(Merge(Dump(current), updates));
      if usesDb { db.row := Some(Dump(updated)); }
      localCache := None;
      if usesCache {
        cache.InvalidateSettings();
        cache.InvalidateSearch();
      }
    }
  }

  method PatchSettings(admin: Service, search: Service, now: real, updates: Data) returns (updated: RAGSettings)
    requires admin != search && admin.db == search.db && admin.cache == search.cache
    modifies admin, search, admin.db, admin.cache
    ensures (updated, admin.View(), search.View(), admin.Around()) ==
            Patch(old(admin.View()), old(search.View()), old(admin.Around()), now, updates)
  {
    hide Update;
    updated := admin.UpdateSettings(now, updates);
    search.localCache, search.cacheTime := None, 0.0;
    admin.cache.enabled, admin.cache.defaultTtl := updated.cacheEnabled, updated.cacheSearchTtl;
  }
}
