/**
 Runs of the settings services and the search endpoint over one database, one Redis and one clock,
 which may jump: the tiers stay coherent, and what any service reads is less than a minute old. One
 request, one patch and one read are each a step.
 */
module CacheRuns {
  import opened Prelude
  import opened RagSettings
  import opened SettingsService
  import opened SearchCache

  type Id = nat

  /** The services of the admin endpoint and of the search endpoint; every other number is some further service. */
  const ADMIN: Id := 0
  const SEARCH: Id := 1

  datatype World = World(now: real, shared: Shared, services: map<Id, Local>)

  /**
   `SwitchTo` sets the cache service's two switches: each process has its own, so the next steps may
   be those of another process that shares the database and Redis.
   */
  datatype Event =
    | ReadBy(id: Id)
    | UpdateBy(id: Id, updates: Data)
    | PatchBy(updates: Data)
    | SearchFor(request: Request)
    | ClockTo(time: real)
    | SwitchTo(on: bool, ttl: int)
    | FlushSearch
    | FlushAll

  /** A service not seen before is a new one with a database session and the cache. */
  function ServiceOf(w: World, id: Id): Local {
    if id in w.services then w.services[id] else Local(true, true, None, 0.0)
  }

  function Current(w: World): RAGSettings { Load(true, w.shared.row) }

  function ReadValue(w: World, id: Id): RAGSettings { Get(ServiceOf(w, id), w.shared, w.now).0 }

  function SearchResult(env: Env, w: World, r: Request): (Response, bool) {
    var (response, hit, _, _) := Search(env, ServiceOf(w, SEARCH), w.shared, w.now, r);
    (response, hit)
  }

  function AfterRead(w: World, id: Id): World {
    var (_, v, c) := Get(ServiceOf(w, id), w.shared, w.now);
    World(w.now, c, w.services[id := v])
  }

  function AfterUpdate(w: World, id: Id, p: Data): World {
    var (_, v, c) := Update(ServiceOf(w, id), w.shared, w.now, p);
    World(w.now, c, w.services[id := v])
  }

  function AfterPatch(w: World, p: Data): World {
    var (_, a, s, c) := Patch(ServiceOf(w, ADMIN), ServiceOf(w, SEARCH), w.shared, w.now, p);
    World(w.now, c, w.services[ADMIN := a][SEARCH := s])
  }

  function AfterSearch(env: Env, w: World, r: Request): World {
    var (_, _, v, c) := Search(env, ServiceOf(w, SEARCH), w.shared, w.now, r);
    World(w.now, c, w.services[SEARCH := v])
  }

  function Step(env: Env, w: World, e: Event): World {
    match e
    case ReadBy(id) => AfterRead(w, id)
    case UpdateBy(id, p) => AfterUpdate(w, id, p)
    case PatchBy(p) => AfterPatch(w, p)
    case SearchFor(r) => AfterSearch(env, w, r)
    case ClockTo(t) => w.(now := t)
    case SwitchTo(on, ttl) => w.(shared := w.shared.(enabled := on, defaultTtl := ttl))
    case FlushSearch => w.(shared := w.shared.(search := map[]))
    case FlushAll => w.(shared := FlushedAll(w.shared))
  }

  function Run(env: Env, w: World, events: seq<Event>): World {
    if events == [] then w else Step(env, Run(env, w, events[..|events| - 1]), events[|events| - 1])
  }

  // ---------------------------------------------------------------- the tiers agree

  /** Every service has a database session and the cache. */
  ghost predicate Wired(w: World) {
    forall id :: id in w.services ==> w.services[id].usesDb && w.services[id].usesCache
  }

  /** The Redis entry is absent or equal to the row. */
  ghost predicate EntryFollows(c: Shared) {
    c.entry.Some? ==> Build(c.entry.value.value) == Load(true, c.row)
  }

  ghost predicate Coherent(w: World) { Wired(w) && EntryFollows(w.shared) }

  lemma LoadIsBuilt(row: Option<Data>)
    ensures Built(Load(true, row)) && Build(Dump(Load(true, row))) == Load(true, row)
  {
    BuildIsBuilt(if row.Some? then row.value else EMPTY);
    DumpRoundTrip(Load(true, row));
    hide Build, Dump, Built;
  }

  /** What one read does: a copy younger than a minute is served as it is, anything else is the row's value. */
  lemma ReadStep(v: Local, c: Shared, now: real)
    requires v.usesDb && v.usesCache && EntryFollows(c)
    ensures var (s, v1, c1) := Get(v, c, now);
            && EntryFollows(c1) && c1.row == c.row && c1.search == c.search && c1.enabled == c.enabled
            && v1.usesDb && v1.usesCache
            && (if LocalHit(v, now) then s == v.copy.value && v1 == v
                else s == Load(true, c.row) && v1 == Keep(v, s, now))
  {
    LoadIsBuilt(c.row);
    hide Build, Dump, Built, Load;
  }

  /** What one update does: the row is the patched base, Redis is empty, the own copy is gone. */
  lemma UpdateStep(v: Local, c: Shared, now: real, p: Data)
    requires v.usesDb && v.usesCache && EntryFollows(c)
    ensures var (s, v1, c1) := Update(v, c, now, p);
            && s == Patched(Get(v, c, now).0, p) && Load(true, c1.row) == s
            && c1.entry == None && c1.search == map[] && v1.copy == None && v1.usesDb && v1.usesCache
  {
    ReadStep(v, c, now);
    var s := Patched(Get(v, c, now).0, p);
    BuildIsBuilt(Merge(Dump(Get(v, c, now).0), p));
    DumpRoundTrip(s);
    hide Build, Dump, Built, Get, Merge;
  }

  lemma AnsweredStep(env: Env, c: Shared, now: real, r: Request, base: RAGSettings)
    ensures var c1 := Answered(env, c, now, r, base).2;
            c1.row == c.row && c1.entry == c.entry && c1.enabled == c.enabled && c1.defaultTtl == c.defaultTtl
  {
    hide Fresh, SearchKey, ApplyOverrides;
  }

  lemma StepKeepsCoherence(env: Env, w: World, e: Event)
    requires Coherent(w)
    ensures Coherent(Step(env, w, e))
  {
    hide Build, Load, Get, Update, Answered;
    match e
    case ReadBy(id) => ReadStep(ServiceOf(w, id), w.shared, w.now);
    case UpdateBy(id, p) => UpdateStep(ServiceOf(w, id), w.shared, w.now, p);
    case PatchBy(p) => UpdateStep(ServiceOf(w, ADMIN), w.shared, w.now, p);
    case SearchFor(r) =>
      ReadStep(ServiceOf(w, SEARCH), w.shared, w.now);
      var (base, v, c) := Get(ServiceOf(w, SEARCH), w.shared, w.now);
      AnsweredStep(env, c, w.now, r, base);
    case _ =>
  }

  /** In every run, with any number of writers, the Redis entry is absent or equal to the row. */
  lemma {:induction false} EntryFollowsRow(env: Env, w: World, events: seq<Event>)
    requires Coherent(w)
    ensures Coherent(Run(env, w, events))
    decreases |events|
  {
    hide Coherent, Step;
    if events == [] {
    } else {
      EntryFollowsRow(env, w, events[..|events| - 1]);
      StepKeepsCoherence(env, Run(env, w, events[..|events| - 1]), events[|events| - 1]);
    }
  }

  // ---------------------------------------------------------------- bounded staleness

  /** In the state after `prefix` the clock read `time` and the row stood for `s`. */
  ghost predicate HeldAt(env: Env, w: World, prefix: seq<Event>, time: real, s: RAGSettings) {
    Run(env, w, prefix).now == time && Current(Run(env, w, prefix)) == s
  }

  ghost predicate Seen(env: Env, w: World, events: seq<Event>, time: real, s: RAGSettings) {
    exists j :: 0 <= j <= |events| && HeldAt(env, w, events[..j], time, s)
  }

  lemma SeenNow(env: Env, w: World, events: seq<Event>)
    ensures Seen(env, w, events, Run(env, w, events).now, Current(Run(env, w, events)))
  {
    hide Run, Current;
    assert events[..|events|] == events;
    assert HeldAt(env, w, events[..|events|], Run(env, w, events).now, Current(Run(env, w, events)));
  }

  lemma SeenBefore(env: Env, w: World, events: seq<Event>, n: nat, time: real, s: RAGSettings)
    requires n <= |events| && Seen(env, w, events[..n], time, s)
    ensures Seen(env, w, events, time, s)
  {
    hide HeldAt;
    var j :| 0 <= j <= n && HeldAt(env, w, events[..n][..j], time, s);
    assert events[..n][..j] == events[..j];
  }

  /** After any step a service's copy is gone, as it was, or the row's value dated now. */
  lemma CopyStep(env: Env, w: World, e: Event, id: Id)
    requires Coherent(w)
    ensures var v, v1 := ServiceOf(w, id), ServiceOf(Step(env, w, e), id);
            || v1.copy.None?
            || (v1.copy == v.copy && v1.time == v.time)
            || (v1.copy == Some(Current(w)) && v1.time == w.now)
  {
    hide Build, Load, Get, Update, Answered;
    match e
    case ReadBy(i) => ReadStep(ServiceOf(w, i), w.shared, w.now);
    case UpdateBy(i, p) => UpdateStep(ServiceOf(w, i), w.shared, w.now, p);
    case PatchBy(p) => UpdateStep(ServiceOf(w, ADMIN), w.shared, w.now, p);
    case SearchFor(r) => ReadStep(ServiceOf(w, SEARCH), w.shared, w.now);
    case _ =>
  }

  /** Every copy was the row's value at the time the copy is dated. */
  lemma {:induction false} CopiesAreDated(env: Env, w: World, events: seq<Event>, id: Id)
    requires Coherent(w) && ServiceOf(w, id).copy.None?
    ensures var v := ServiceOf(Run(env, w, events), id);
            v.copy.Some? ==> Seen(env, w, events, v.time, v.copy.value)
    decreases |events|
  {
    hide Coherent, Step, Seen, ServiceOf, Current;
    if events == [] {
    } else {
      var n := |events| - 1;
      var before := Run(env, w, events[..n]);
      CopiesAreDated(env, w, events[..n], id);
      EntryFollowsRow(env, w, events[..n]);
      CopyStep(env, before, events[n], id);
      SeenNow(env, w, events[..n]);
      SeenBefore(env, w, events, n, before.now, Current(before));
      var v := ServiceOf(before, id);
      if v.copy.Some? { SeenBefore(env, w, events, n, v.time, v.copy.value); }
    }
  }

  lemma ReadIsCopyOrCurrent(w: World, id: Id)
    requires Coherent(w)
        ensures || ReadValue(w, id) == Current(w)
            || (ServiceOf(w, id).copy == Some(ReadValue(w, id)) && w.now - ServiceOf(w, id).time < 60.0)
  {
    ReadStep(ServiceOf(w, id), w.shared, w.now);
    hide Get, Load;
  }

  /**
   Bounded staleness: with any number of services patching and reading, what any service returns was
   the row's value at some moment of the run less than 60 seconds ago.
   */
  lemma StaleByLessThanAMinute(env: Env, w: World, events: seq<Event>, id: Id)
    requires Coherent(w) && ServiceOf(w, id).copy.None?
    ensures var now := Run(env, w, events).now;
            exists t :: now - t < 60.0 && Seen(env, w, events, t, ReadValue(Run(env, w, events), id))
  {
    hide *;
    var last := Run(env, w, events);
    CopiesAreDated(env, w, events, id);
    EntryFollowsRow(env, w, events);
    ReadIsCopyOrCurrent(last, id);
    SeenNow(env, w, events);
    if ReadValue(last, id) == Current(last) {
      assert last.now - last.now < 60.0;
    }
  }
}
