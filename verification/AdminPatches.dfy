/**
 Runs in which only the PATCH endpoint writes settings: the admin and the search service always read
 the row's value, patches compose field by field, and a cached response is the one that would be
 computed now.
 */
module AdminPatches {
  import opened Prelude
  import opened RagSettings
  import opened SettingsService
  import opened SearchCache
  import opened CacheRuns

  ghost predicate AdminOnly(events: seq<Event>) {
    forall i :: 0 <= i < |events| ==> !events[i].UpdateBy?
  }

  ghost predicate CopyIsCurrent(w: World, id: Id) {
    ServiceOf(w, id).copy.Some? ==> ServiceOf(w, id).copy.value == Current(w)
  }

  /** Coherent tiers, and the admin's and the search service's copies absent or equal to the row. */
  ghost predicate Steady(w: World) {
    Coherent(w) && CopyIsCurrent(w, ADMIN) && CopyIsCurrent(w, SEARCH)
  }

  lemma SteadyRead(w: World, id: Id)
    requires Steady(w) && (id == ADMIN || id == SEARCH)
    ensures ReadValue(w, id) == Current(w)
  {
    ReadStep(ServiceOf(w, id), w.shared, w.now);
    hide Get, Load;
  }

  function NextCurrent(w: World, e: Event): RAGSettings {
    if e.PatchBy? then Patched(Current(w), e.updates) else Current(w)
  }

  lemma CurrentStep(env: Env, w: World, e: Event)
    requires Steady(w) && !e.UpdateBy?
    ensures Current(Step(env, w, e)) == NextCurrent(w, e)
  {
    hide Build, Load, Get, Update, Answered, Patched;
    match e
    case ReadBy(id) => ReadStep(ServiceOf(w, id), w.shared, w.now);
    case PatchBy(p) =>
      SteadyRead(w, ADMIN);
      UpdateStep(ServiceOf(w, ADMIN), w.shared, w.now, p);
    case SearchFor(r) =>
      ReadStep(ServiceOf(w, SEARCH), w.shared, w.now);
      var (base, v, c) := Get(ServiceOf(w, SEARCH), w.shared, w.now);
      AnsweredStep(env, c, w.now, r, base);
    case _ =>
  }

  lemma PatchClears(env: Env, w: World, p: Data)
    ensures ServiceOf(Step(env, w, PatchBy(p)), ADMIN).copy.None?
    ensures ServiceOf(Step(env, w, PatchBy(p)), SEARCH).copy.None?
  {
    hide Get, Patched;
  }

  lemma CopyStaysCurrent(env: Env, w: World, e: Event, id: Id)
    requires Steady(w) && !e.UpdateBy? && (id == ADMIN || id == SEARCH)
    ensures CopyIsCurrent(Step(env, w, e), id)
  {
    CurrentStep(env, w, e);
    hide Step, Current, Coherent, ServiceOf;
    if e.PatchBy? {
      PatchClears(env, w, e.updates);
    } else {
      CopyStep(env, w, e, id);
    }
  }

  lemma StepIsSteady(env: Env, w: World, e: Event)
    requires Steady(w) && !e.UpdateBy?
    ensures Steady(Step(env, w, e)) && Current(Step(env, w, e)) == NextCurrent(w, e)
  {
    hide Step, Current, NextCurrent, Coherent, CopyIsCurrent;
    StepKeepsCoherence(env, w, e);
    CurrentStep(env, w, e);
    CopyStaysCurrent(env, w, e, ADMIN);
    CopyStaysCurrent(env, w, e, SEARCH);
  }

  lemma {:induction false} RunIsSteady(env: Env, w: World, events: seq<Event>)
    requires Steady(w) && AdminOnly(events)
    ensures Steady(Run(env, w, events))
    decreases |events|
  {
    hide Steady, Step;
    if events == [] {
    } else {
      RunIsSteady(env, w, events[..|events| - 1]);
      StepIsSteady(env, Run(env, w, events[..|events| - 1]), events[|events| - 1]);
    }
  }

  /** A patch is seen at once by both endpoints, whatever they had cached. */
  lemma PatchIsVisible(env: Env, w: World, events: seq<Event>, p: Data)
    requires Steady(w) && AdminOnly(events)
    ensures var before := Run(env, w, events);
            var after := Step(env, before, PatchBy(p));
            && ReadValue(after, ADMIN) == Patched(Current(before), p)
            && ReadValue(after, SEARCH) == Patched(Current(before), p)
  {
    hide *;
    var before := Run(env, w, events);
    RunIsSteady(env, w, events);
    StepIsSteady(env, before, PatchBy(p));
    SteadyRead(Step(env, before, PatchBy(p)), ADMIN);
    SteadyRead(Step(env, before, PatchBy(p)), SEARCH);
    assert NextCurrent(before, PatchBy(p)) == Patched(Current(before), p) by { NextAfterPatch(before, p); }
  }

  lemma NextAfterPatch(w: World, p: Data)
    ensures NextCurrent(w, PatchBy(p)) == Patched(Current(w), p)
  {
  }

  // ---------------------------------------------------------------- patches compose

  /** What the event says about `n`, if it is a patch and gives it. */
  function SaidBy(e: Event, n: Name): Option<Json> { if e.PatchBy? then GivenBy(e.updates, n) else None }

  /** Event `i` is the last one to say something about `n`. */
  ghost predicate LastGives(events: seq<Event>, n: Name, i: int) {
    0 <= i < |events| && SaidBy(events[i], n).Some? && forall j :: i < j < |events| ==> SaidBy(events[j], n).None?
  }

  ghost predicate Silent(events: seq<Event>, n: Name) {
    forall i :: 0 <= i < |events| ==> SaidBy(events[i], n).None?
  }

  lemma NextValue(w: World, e: Event, n: Name)
    requires Declared(n)
    ensures ValueOf(NextCurrent(w, e), n) == Given(SaidBy(e, n), ValueOf(Current(w), n))
  {
    LoadIsBuilt(w.shared.row);
    hide Build, Load, Built, Defaults, ValueOf, GivenBy, Declared, Patched;
    if e.PatchBy? { PatchIsFieldwise(Current(w), e.updates, n); }
  }

  /**
   No lost update: after any run each setting is what the last patch mentioning it says, and one that
   no patch mentions is what it was at the start.
   */
  lemma {:induction false} PatchesCompose(env: Env, w: World, events: seq<Event>, n: Name)
    requires Steady(w) && AdminOnly(events) && Declared(n)
    ensures Silent(events, n) ==> ValueOf(Current(Run(env, w, events)), n) == ValueOf(Current(w), n)
    ensures forall i :: LastGives(events, n, i) ==>
              ValueOf(Current(Run(env, w, events)), n) == SaidBy(events[i], n)
    decreases |events|
  {
    hide Steady, Step, Current, NextCurrent, ValueOf, GivenBy, SaidBy, Declared;
    if events == [] {
    } else {
      var front, e := events[..|events| - 1], events[|events| - 1];
      var before := Run(env, w, front);
      PatchesCompose(env, w, front, n);
      RunIsSteady(env, w, front);
      StepIsSteady(env, before, e);
      NextValue(before, e, n);
      forall i | LastGives(events, n, i)
        ensures ValueOf(Current(Run(env, w, events)), n) == SaidBy(events[i], n)
      {
        if i < |front| { assert LastGives(front, n, i); }
      }
    }
  }

  // ---------------------------------------------------------------- several writers

  /** The copy `s` and the current settings `t` agree wherever the patch `q` is silent. */
  ghost predicate AgreeElsewhere(s: RAGSettings, t: RAGSettings, q: Data) {
    forall n :: Declared(n) && GivenBy(q, n).None? ==> ValueOf(s, n) == ValueOf(t, n)
  }

  lemma UpdateIsPatch(w: World, b: Id, q: Data)
    requires Coherent(w)
    ensures Current(AfterUpdate(w, b, q)) == Patched(ReadValue(w, b), q) && Built(Current(w))
  {
    UpdateStep(ServiceOf(w, b), w.shared, w.now, q);
    LoadIsBuilt(w.shared.row);
    hide Get, Update, Patched, Load, Build, Built, Dump;
  }

  lemma SeenIsBuilt(env: Env, w: World, events: seq<Event>, t: real, s: RAGSettings)
    requires Seen(env, w, events, t, s)
    ensures Built(s)
  {
    var j :| 0 <= j <= |events| && HeldAt(env, w, events[..j], t, s);
    LoadIsBuilt(Run(env, w, events[..j]).shared.row);
    hide Run, Built, Load, Build, Dump;
  }

  /** Whatever any service reads was built by a constructor. */
  lemma ReadIsBuilt(env: Env, w: World, events: seq<Event>, b: Id)
    requires Coherent(w) && ServiceOf(w, b).copy.None?
    ensures Built(ReadValue(Run(env, w, events), b))
  {
    hide *;
    StaleByLessThanAMinute(env, w, events, b);
    var s, now := ReadValue(Run(env, w, events), b), Run(env, w, events).now;
    var t :| now - t < 60.0 && Seen(env, w, events, t, s);
    SeenIsBuilt(env, w, events, t, s);
  }

  /**
   Exactly when a writer loses nothing: after any run with any number of writers, the update of `b`
   patches the current settings if and only if what `b` reads agrees with them wherever the update is
   silent.
   */
  lemma UpdateLosesNothingIff(env: Env, w: World, events: seq<Event>, b: Id, q: Data)
    requires Coherent(w) && ServiceOf(w, b).copy.None?
    ensures var before := Run(env, w, events);
            Current(Step(env, before, UpdateBy(b, q))) == Patched(Current(before), q) <==>
              AgreeElsewhere(ReadValue(before, b), Current(before), q)
  {
    var before := Run(env, w, events);
    EntryFollowsRow(env, w, events);
    ReadIsBuilt(env, w, events, b);
    UpdateIsPatch(before, b, q);
    NothingLostIff(ReadValue(before, b), Current(before), q);
    hide Run, Current, ReadValue, AfterUpdate, Patched, Built, Coherent, ServiceOf, GivenBy, ValueOf, Declared;
  }

  /**
   With a second writer the same is false: when `b` has read before `a` writes, the write of `b`
   within the minute leaves no trace of what `a` wrote.
   */
  lemma StaleWriterOverwrites(env: Env, w: World, a: Id, b: Id, p: Data, q: Data)
    requires Coherent(w) && a != b && ServiceOf(w, b).copy.None?
    ensures Current(Run(env, w, [ReadBy(b), UpdateBy(a, p), UpdateBy(b, q)])) == Patched(Current(w), q)
  {
    var w1 := AfterRead(w, b);
    var w2 := AfterUpdate(w1, a, p);
    hide *;
    StepsAre(env, w, b, w1, a, p, b, q);
    FirstReadIsCurrent(w, b);
    ReadTwice(w, b);
    StepKeepsCoherence(env, w, ReadBy(b));
    StepKeepsCoherence(env, w1, UpdateBy(a, p));
    OthersKeepTheirRead(w1, a, b, p);
    UpdateIsPatch(w2, b, q);
    RunOfThree(env, w, ReadBy(b), UpdateBy(a, p), UpdateBy(b, q));
  }

  lemma FirstReadIsCurrent(w: World, b: Id)
    requires Coherent(w) && ServiceOf(w, b).copy.None?
    ensures ReadValue(w, b) == Current(w)
  {
    ReadStep(ServiceOf(w, b), w.shared, w.now);
    hide Get, Load;
  }

  /** A value just read is served again from the copy. */
  lemma ReadTwice(w: World, b: Id)
    requires Coherent(w)
    ensures LocalHit(ServiceOf(AfterRead(w, b), b), AfterRead(w, b).now)
    ensures ReadValue(AfterRead(w, b), b) == ReadValue(w, b)
  {
    ReadStep(ServiceOf(w, b), w.shared, w.now);
    hide Refreshed, Load;
  }

  lemma StepsAre(env: Env, w: World, b: Id, w1: World, a: Id, p: Data, c: Id, q: Data)
    ensures Step(env, w, ReadBy(b)) == AfterRead(w, b)
    ensures Step(env, w1, UpdateBy(a, p)) == AfterUpdate(w1, a, p)
    ensures Step(env, AfterUpdate(w1, a, p), UpdateBy(c, q)) == AfterUpdate(AfterUpdate(w1, a, p), c, q)
  {
    hide AfterRead, AfterUpdate;
  }

  /** The update of one service leaves the copies of the others alone. */
  lemma OthersKeepTheirRead(w: World, a: Id, b: Id, p: Data)
    requires a != b && LocalHit(ServiceOf(w, b), w.now)
    ensures ReadValue(AfterUpdate(w, a, p), b) == ReadValue(w, b)
  {
    hide Update, Refreshed;
  }

  lemma RunSnoc(env: Env, w: World, events: seq<Event>, e: Event)
    ensures Run(env, w, events + [e]) == Step(env, Run(env, w, events), e)
  {
    hide Step;
    CutConcat(events, [e]);
  }

  lemma RunOfThree(env: Env, w: World, e1: Event, e2: Event, e3: Event)
    ensures Run(env, w, [e1, e2, e3]) == Step(env, Step(env, Step(env, w, e1), e2), e3)
  {
    hide Step;
    RunSnoc(env, w, [e1, e2], e3);
    RunSnoc(env, w, [e1], e2);
    assert [e1] + [e2] == [e1, e2] && [e1, e2] + [e3] == [e1, e2, e3];
  }
}
