/**
 The circuit breaker and the retry wrapper (backend/app/services/resilience.py).

 Every reading of the monotonic clock is a parameter. `Breaker` is the value of the object's
 fields; the methods of `CircuitBreaker` are proved to act on it as the functions below, and the
 theorems about runs are about those functions.
 */
module Resilience {
  import opened Prelude

  datatype CircuitState = Closed | Open | HalfOpen

  datatype Config = Config(failureThreshold: int, recoveryTimeout: real)

  datatype Breaker = Breaker(state: CircuitState, failureCount: int, lastFailure: Option<real>, halfOpenAllowed: bool)

  const FRESH := Breaker(Closed, 0, None, false)

  /** The `state` property: reading it may move OPEN to HALF_OPEN. */
  function Read(c: Config, b: Breaker, now: real): Breaker {
    if b.state == Open && b.lastFailure.Some? && now - b.lastFailure.value >= c.recoveryTimeout
    then b.(state := HalfOpen, halfOpenAllowed := true)
    else b
  }

  /** `allow_request`: the new fields, and whether the request may go ahead. */
  function Allow(c: Config, b: Breaker, now: real): (Breaker, bool) {
    var r := Read(c, b, now);
    if r.state == Closed then (r, true)
    else if r.state == HalfOpen && r.halfOpenAllowed then (r.(halfOpenAllowed := false), true)
    else (r, false)
  }

  function Succeed(b: Breaker): Breaker {
    b.(failureCount := 0, state := Closed, halfOpenAllowed := false)
  }

  function Fail(c: Config, b: Breaker, now: real): Breaker {
    var r := b.(failureCount := b.failureCount + 1, lastFailure := Some(now));
    if r.state == HalfOpen || r.failureCount >= c.failureThreshold then r.(state := Open) else r
  }

  class CircuitBreaker {
    const config: Config
    var failureCount: int
    var currentState: CircuitState
    var lastFailureTime: Option<real>
    var halfOpenAllowed: bool

    ghost function Fields(): Breaker
      reads this
    {
      Breaker(currentState, failureCount, lastFailureTime, halfOpenAllowed)
    }

    constructor (failureThreshold: int, recoveryTimeout: real)
      ensures config == Config(failureThreshold, recoveryTimeout) && Fields() == FRESH
    {
      config := Config(failureThreshold, recoveryTimeout);
      failureCount := 0;
      currentState := Closed;
      lastFailureTime := None;
      halfOpenAllowed := false;
    }

    method State(now: real) returns (s: CircuitState)
      modifies this
      ensures Fields() == Read(config, old(Fields()), now) && s == Fields().state
    {
      if currentState == Open && lastFailureTime.Some? {
        var elapsed := now - lastFailureTime.value;
        if elapsed >= config.recoveryTimeout {
          currentState := HalfOpen;
          halfOpenAllowed := true;
        }
      }
      s := currentState;
    }

    method AllowRequest(now: real) returns (allowed: bool)
      modifies this
      ensures (Fields(), allowed) == Allow(config, old(Fields()), now)
    {
      var current := State(now);
      if current == Closed { return true; }
      if current == HalfOpen && halfOpenAllowed {
        halfOpenAllowed := false;
        return true;
      }
      return false;
    }

    method RecordSuccess()
      modifies this
      ensures Fields() == Succeed(old(Fields()))
    {
      failureCount := 0;
      currentState := Closed;
      halfOpenAllowed := false;
    }

    method RecordFailure(now: real)
      modifies this
      ensures Fields() == Fail(config, old(Fields()), now)
    {
      failureCount := failureCount + 1;
      lastFailureTime := Some(now);
      if currentState == HalfOpen {
        currentState := Open;
      } else if failureCount >= config.failureThreshold {
        currentState := Open;
      }
    }
  }

  // ---------------------------------------------------------------- any interleaving of callers

  /** One call on a shared breaker, by whichever of its concurrent callers. */
  datatype Event =
    | Reading(at: real)
    | Asking(at: real)
    | Success(at: real)
    | Failure(at: real)

  predicate Outcome(e: Event) { e.Success? || e.Failure? }

  function Step(c: Config, b: Breaker, e: Event): Breaker {
    match e
    case Reading(at) => Read(c, b, at)
    case Asking(at) => Allow(c, b, at).0
    case Success(_) => Succeed(b)
    case Failure(at) => Fail(c, b, at)
  }

  predicate Admits(c: Config, b: Breaker, e: Event) {
    e.Asking? && Allow(c, b, e.at).1
  }

  function Run(c: Config, b: Breaker, es: seq<Event>): Breaker {
    if es == [] then b else Step(c, Run(c, b, es[..|es| - 1]), es[|es| - 1])
  }

  /** The clock never runs backwards. */
  ghost predicate Monotone(es: seq<Event>) {
    forall i, j :: 0 <= i < j < |es| ==> es[i].at <= es[j].at
  }

  // What a history says, without running the breaker.

  /** Failures recorded since the last success. */
  function FailuresSinceSuccess(es: seq<Event>): nat {
    if es == [] then 0
    else
      var last := es[|es| - 1];
      if last.Success? then 0
      else FailuresSinceSuccess(es[..|es| - 1]) + if last.Failure? then 1 else 0
  }

  function LastFailureTime(es: seq<Event>): Option<real> {
    if es == [] then None
    else if es[|es| - 1].Failure? then Some(es[|es| - 1].at)
    else LastFailureTime(es[..|es| - 1])
  }

  /** The time of the last failure is at least the recovery timeout ago. */
  predicate Mature(c: Config, es: seq<Event>, now: real) {
    var t := LastFailureTime(es);
    t.Some? && now - t.value >= c.recoveryTimeout
  }

  /** `i` is a call after the last outcome, made once the timeout had passed. */
  ghost predicate Probe(c: Config, es: seq<Event>, i: nat) {
    && i < |es| && !Outcome(es[i]) && Mature(c, es, es[i].at)
    && forall j :: i < j < |es| ==> !Outcome(es[j])
  }

  ghost predicate Probed(c: Config, es: seq<Event>) {
    exists i: nat :: Probe(c, es, i)
  }

  ghost predicate ProbeUsed(c: Config, es: seq<Event>) {
    exists i: nat :: Probe(c, es, i) && es[i].Asking?
  }

  /** The state a history determines. */
  ghost function StateAfter(c: Config, es: seq<Event>): CircuitState {
    if FailuresSinceSuccess(es) < c.failureThreshold then Closed
    else if Probed(c, es) then HalfOpen
    else Open
  }

  lemma ProbeSnoc(c: Config, es: seq<Event>, e: Event)
    ensures Outcome(e) ==> !Probed(c, es + [e]) && !ProbeUsed(c, es + [e])
    ensures !Outcome(e) ==> (Probed(c, es + [e]) <==> Probed(c, es) || Mature(c, es, e.at))
    ensures !Outcome(e) ==> (ProbeUsed(c, es + [e]) <==> ProbeUsed(c, es) || (e.Asking? && Mature(c, es, e.at)))
  {
    var all := es + [e];
    assert all[..|all| - 1] == es;
    if Outcome(e) {
      forall i: nat ensures !Probe(c, all, i) {
        if i < |es| { assert Outcome(all[|es|]); }
      }
    } else {
      assert LastFailureTime(all) == LastFailureTime(es);
      forall i: nat | i < |es| ensures Probe(c, all, i) <==> Probe(c, es, i) {
        if Probe(c, es, i) {
          forall j | i < j < |all| ensures !Outcome(all[j]) {
            if j < |es| { assert !Outcome(es[j]); }
          }
        }
        if Probe(c, all, i) {
          forall j | i < j < |es| ensures !Outcome(es[j]) { assert !Outcome(all[j]); }
        }
      }
      assert Probe(c, all, |es|) <==> Mature(c, es, e.at);
      if i: nat :| Probe(c, all, i) && all[i].Asking? {
        if i < |es| { assert Probe(c, es, i) && es[i].Asking?; }
      }
      if i: nat :| Probe(c, es, i) && es[i].Asking? { assert Probe(c, all, i) && all[i].Asking?; }
    }
  }

  /**
   Refinement: after any interleaving of calls on a fresh breaker, its fields are what the history
   of recorded outcomes and of the calls since then determines.
   */
  lemma {:induction false} RunRefinesHistory(c: Config, es: seq<Event>)
    requires c.failureThreshold >= 1 && Monotone(es)
    ensures var b := Run(c, FRESH, es);
            && b.failureCount == FailuresSinceSuccess(es)
            && b.lastFailure == LastFailureTime(es)
            && b.state == StateAfter(c, es)
            && (b.state == HalfOpen ==> (b.halfOpenAllowed <==> !ProbeUsed(c, es)))
            && (FailuresSinceSuccess(es) > 0 ==> LastFailureTime(es).Some?)
    decreases |es|
  {
    if es == [] {
    } else {
      var front, e := es[..|es| - 1], es[|es| - 1];
      assert es == front + [e];
      RunRefinesHistory(c, front);
      ProbeSnoc(c, front, e);
      ProbedIsMature(c, front, e.at);
    }
  }

  /** Once a probe was mature every later call is. */
  lemma ProbedIsMature(c: Config, es: seq<Event>, now: real)
    requires Monotone(es) && (es != [] ==> es[|es| - 1].at <= now)
    ensures Probed(c, es) ==> Mature(c, es, now)
  {
    if i: nat :| Probe(c, es, i) {
      assert es[i].at <= es[|es| - 1].at;
    }
  }

  /**
   Admission: a request is let through exactly when fewer failures than the threshold have been
   recorded since the last success, or the timeout has passed since the last failure and no request
   was let through since then.
   */
  lemma AdmissionRule(c: Config, es: seq<Event>, now: real)
    requires c.failureThreshold >= 1 && Monotone(es + [Asking(now)])
    ensures Admits(c, Run(c, FRESH, es), Asking(now)) <==>
              || FailuresSinceSuccess(es) < c.failureThreshold
              || (Mature(c, es, now) && !ProbeUsed(c, es))
  {
    var all := es + [Asking(now)];
    forall i, j | 0 <= i < j < |es| ensures es[i].at <= es[j].at { assert all[i].at <= all[j].at; }
    RunRefinesHistory(c, es);
    if es != [] { assert all[|es| - 1].at <= all[|es|].at; }
    ProbedIsMature(c, es, now);
    if i: nat :| Probe(c, es, i) && es[i].Asking? { assert Probed(c, es); }
  }

  /** HALF_OPEN means that the recovery timeout has passed since the last recorded failure. */
  lemma HalfOpenIsMature(c: Config, es: seq<Event>, now: real)
    requires c.failureThreshold >= 1 && Monotone(es) && (es != [] ==> es[|es| - 1].at <= now)
    requires Run(c, FRESH, es).state == HalfOpen
    ensures FailuresSinceSuccess(es) >= c.failureThreshold && Mature(c, es, now)
  {
    RunRefinesHistory(c, es);
    ProbedIsMature(c, es, now);
  }

  /** Requests let through in a run of a fresh breaker. */
  function Admitted(c: Config, es: seq<Event>): nat {
    if es == [] then 0
    else Admitted(c, es[..|es| - 1]) + if Admits(c, Run(c, FRESH, es[..|es| - 1]), es[|es| - 1]) then 1 else 0
  }

  /**
   While the breaker is not closed and no outcome is recorded, however long that lasts and however
   many callers ask, at most one request is let through, and none once the probe is used.
   */
  lemma {:induction false} OneProbePerEpisode(c: Config, es: seq<Event>, more: seq<Event>)
    requires c.failureThreshold >= 1 && Monotone(es + more)
    requires FailuresSinceSuccess(es) >= c.failureThreshold
    requires forall i :: 0 <= i < |more| ==> !Outcome(more[i])
    ensures FailuresSinceSuccess(es + more) == FailuresSinceSuccess(es)
    ensures ProbeUsed(c, es) ==> ProbeUsed(c, es + more)
    ensures Admitted(c, es + more) ==
            Admitted(c, es) + if ProbeUsed(c, es + more) && !ProbeUsed(c, es) then 1 else 0
    decreases |more|
  {
    if more == [] {
      assert es + more == es;
    } else {
      var front, e := more[..|more| - 1], more[|more| - 1];
      var all := es + more;
      assert all[..|all| - 1] == es + front && all == (es + front) + [e];
      forall i, j | 0 <= i < j < |es + front| ensures (es + front)[i].at <= (es + front)[j].at {
        assert all[i].at <= all[j].at;
      }
      OneProbePerEpisode(c, es, front);
      ProbeSnoc(c, es + front, e);
      if e.Asking? { AdmissionRule(c, es + front, e.at); }
    }
  }

  // ---------------------------------------------------------------- with_retry

  /** What one attempt did: it returned, raised something on the retry list or any other exception, or was cancelled. */
  datatype Reply = Returns | Retryable | Fatal | Cancelled

  datatype RetryConfig = RetryConfig(maxRetries: int, baseDelay: real, maxDelay: real)

  /**
   The outside world of one call: what attempt `i` does, how long it takes, the jitter drawn after it,
   and after how much of the pause that follows a cancellation arrives, if one does.
   */
  datatype World = World(reply: nat -> Reply, took: nat -> real, jitter: nat -> real, cut: nat -> Option<real>)

  /** `Aborted` is a cancellation: it is no `Exception`, so nothing is recorded. */
  datatype CallResult = Returned(attempt: nat) | Exhausted | Propagated | Aborted | NoAttempt | Rejected

  /** How a call ended, how many attempts it made, how long it slept and how long it took. */
  datatype Trial = Trial(result: CallResult, attempts: nat, slept: real, elapsed: real)

  function Pow2(n: nat): nat { if n == 0 then 1 else 2 * Pow2(n - 1) }

  function Backoff(r: RetryConfig, attempt: nat): real { r.baseDelay * Pow2(attempt) as real }

  function Delay(r: RetryConfig, attempt: nat): real { MinReal(Backoff(r, attempt), r.maxDelay) }

  /** The pause after a failed attempt: exponential, capped, and shortened by the jitter. */
  function Nap(r: RetryConfig, attempt: nat, jitter: real): real { Delay(r, attempt) * jitter }

  /** The cancellation arrives while the call still sleeps. */
  predicate Interrupted(cut: Option<real>, nap: real) { cut.Some? && cut.value < nap }

  /** The attempts of an admitted call, from `attempt` on. */
  function Attempts(r: RetryConfig, w: World, attempt: nat): Trial
    decreases r.maxRetries - attempt
  {
    if attempt > r.maxRetries then Trial(NoAttempt, 0, 0.0, 0.0)
    else
      match w.reply(attempt)
      case Returns => Trial(Returned(attempt), 1, 0.0, w.took(attempt))
      case Fatal => Trial(Propagated, 1, 0.0, w.took(attempt))
      case Cancelled => Trial(Aborted, 1, 0.0, w.took(attempt))
      case Retryable =>
        if attempt < r.maxRetries then
          var nap := Nap(r, attempt, w.jitter(attempt));
          if Interrupted(w.cut(attempt), nap) then
            Trial(Aborted, 1, w.cut(attempt).value, w.took(attempt) + w.cut(attempt).value)
          else
            var rest := Attempts(r, w, attempt + 1);
            Trial(rest.result, 1 + rest.attempts, nap + rest.slept, w.took(attempt) + nap + rest.elapsed)
        else Trial(Exhausted, 1, 0.0, w.took(attempt))
  }

  /** A whole call at time `now`: the breaker afterwards and the trial. */
  function Call(c: Config, r: RetryConfig, b: Breaker, w: World, now: real): (Breaker, Trial) {
    var (asked, allowed) := Allow(c, b, now);
    if !allowed then (asked, Trial(Rejected, 0, 0.0, 0.0))
    else
      var t := Attempts(r, w, 0);
      match t.result
      case Returned(_) => (Succeed(asked), t)
      case NoAttempt => (asked, t)
      case Aborted => (asked, t)
      case _ => (Fail(c, asked, now + t.elapsed), t)
  }

  /** The decorated call; the breaker is optional. */
  method WithRetry(cb: CircuitBreaker?, r: RetryConfig, w: World, now: real) returns (t: Trial)
    modifies cb
    ensures cb == null ==> t == Attempts(r, w, 0)
    ensures cb != null ==> (cb.Fields(), t) == Call(cb.config, r, old(cb.Fields()), w, now)
  {
    hide Nap, Allow, Fail, Succeed;
    if cb != null {
      var allowed := cb.AllowRequest(now);
      if !allowed { return Trial(Rejected, 0, 0.0, 0.0); }
    }
    ghost var asked := if cb != null then cb.Fields() else FRESH;
    var attempts: nat, slept, clock := 0, 0.0, now;
    var attempt := 0;
    while attempt < r.maxRetries + 1
      invariant attempts == attempt && (attempt == 0 || attempt <= r.maxRetries)
      invariant cb != null ==> cb.Fields() == asked
      invariant var rest := Attempts(r, w, attempt);
                Attempts(r, w, 0) ==
                Trial(rest.result, attempts + rest.attempts, slept + rest.slept, clock - now + rest.elapsed)
      decreases r.maxRetries - attempt
    {
      attempts := attempts + 1;
      clock := clock + w.took(attempt);
      match w.reply(attempt) {
      case Returns =>
        if cb != null { cb.RecordSuccess(); }
        return Trial(Returned(attempt), attempts, slept, clock - now);
      case Retryable =>
        if attempt < r.maxRetries {
          var nap := Nap(r, attempt, w.jitter(attempt));
          var cut := w.cut(attempt);
          if cut.Some? && cut.value < nap {
            return Trial(Aborted, attempts, slept + cut.value, clock + cut.value - now);
          }
          slept := slept + nap;
          clock := clock + nap;
        } else {
          if cb != null { cb.RecordFailure(clock); }
          return Trial(Exhausted, attempts, slept, clock - now);
        }
      case Fatal =>
        if cb != null { cb.RecordFailure(clock); }
        return Trial(Propagated, attempts, slept, clock - now);
      case Cancelled =>
        return Trial(Aborted, attempts, slept, clock - now);
      }
      attempt := attempt + 1;
    }
    t := Trial(NoAttempt, attempts, slept, clock - now);
  }

  // ---------------------------------------------------------------- rate and delay bounds

  /** Attempts and jitters as the outside world can produce them. */
  ghost predicate Plausible(w: World) {
    forall i: nat :: w.took(i) >= 0.0 && 0.5 <= w.jitter(i) <= 1.0 && (w.cut(i).Some? ==> w.cut(i).value >= 0.0)
  }

  lemma {:induction false} Pow2Positive(n: nat)
    ensures Pow2(n) >= 1
  {
    if n > 0 { Pow2Positive(n - 1); }
  }

  lemma DelayBounds(r: RetryConfig, attempt: nat)
    requires r.baseDelay >= 0.0 && r.maxDelay >= 0.0
    ensures 0.0 <= Delay(r, attempt) <= r.maxDelay && Delay(r, attempt) <= Backoff(r, attempt)
  {
    Pow2Positive(attempt);
    ScaleMonotone(0.0, Pow2(attempt) as real, r.baseDelay);
  }

  lemma NapBounds(r: RetryConfig, attempt: nat, jitter: real)
    requires r.baseDelay >= 0.0 && r.maxDelay >= 0.0 && 0.5 <= jitter <= 1.0
    ensures 0.0 <= Nap(r, attempt, jitter) <= r.maxDelay
    ensures Nap(r, attempt, jitter) <= Backoff(r, attempt)
  {
    hide Delay, Backoff;
    DelayBounds(r, attempt);
    Shrink(Delay(r, attempt), jitter);
  }

  /** The sleep allowance from attempt `a` on. */
  function Geometric(r: RetryConfig, a: nat): real
    requires a <= r.maxRetries
  {
    r.baseDelay * (Pow2(r.maxRetries) - Pow2(a)) as real
  }

  function Capped(r: RetryConfig, a: nat): real { (r.maxRetries - a) as real * r.maxDelay }

  lemma AllowanceStep(r: RetryConfig, a: nat)
    requires a < r.maxRetries
    ensures Geometric(r, a) == Backoff(r, a) + Geometric(r, a + 1)
    ensures Capped(r, a) == r.maxDelay + Capped(r, a + 1)
  {
    var n := r.maxRetries;
    Distribute(Pow2(a) as real, (Pow2(n) - Pow2(a + 1)) as real, r.baseDelay);
    Distribute(1.0, (n - (a + 1)) as real, r.maxDelay);
  }

  lemma AllowanceNonNegative(r: RetryConfig, a: nat)
    requires a <= r.maxRetries && r.baseDelay >= 0.0 && r.maxDelay >= 0.0
    ensures Geometric(r, a) >= 0.0 && Capped(r, a) >= 0.0
  {
    Pow2Monotone(a, r.maxRetries);
    ScaleMonotone(0.0, (Pow2(r.maxRetries) - Pow2(a)) as real, r.baseDelay);
    ScaleMonotone(0.0, (r.maxRetries - a) as real, r.maxDelay);
  }

  /** From attempt `a` on: how many attempts, how much sleep, and that time does not run backwards. */
  lemma {:induction false} AttemptsBounds(r: RetryConfig, w: World, a: nat)
    requires a <= r.maxRetries && r.baseDelay >= 0.0 && r.maxDelay >= 0.0 && Plausible(w)
    ensures var t := Attempts(r, w, a);
            && 1 <= t.attempts <= r.maxRetries + 1 - a
            && t.result != NoAttempt && t.result != Rejected
            && 0.0 <= t.slept <= t.elapsed
            && t.slept <= Geometric(r, a) && t.slept <= Capped(r, a)
    decreases r.maxRetries - a
  {
    hide Geometric, Capped, Nap, Backoff, Pow2;
    AllowanceNonNegative(r, a);
    assert w.took(a) >= 0.0;
    if w.reply(a) == Retryable && a < r.maxRetries {
      AttemptsBounds(r, w, a + 1);
      NapBounds(r, a, w.jitter(a));
      AllowanceStep(r, a);
    }
  }

  lemma {:induction false} Pow2Monotone(a: nat, b: nat)
    requires a <= b
    ensures Pow2(a) <= Pow2(b)
    decreases b - a
  {
    if a < b { Pow2Monotone(a, b - 1); }
  }

  /** `min(base_delay * (2^max_retries - 1), max_retries * max_delay)`. */
  function SleepBound(r: RetryConfig): real
    requires r.maxRetries >= 0
  {
    MinReal(Geometric(r, 0), Capped(r, 0))
  }

  /**
   One call: a rejected call touches no counter and sleeps not at all; an admitted one makes between
   1 and max_retries + 1 attempts, records exactly one outcome unless it is cancelled, and sleeps no
   longer than both the geometric and the capped bound.
   */
  lemma CallBounds(c: Config, r: RetryConfig, b: Breaker, w: World, now: real)
    requires r.maxRetries >= 0 && r.baseDelay >= 0.0 && r.maxDelay >= 0.0 && Plausible(w)
    ensures var (asked, allowed) := Allow(c, b, now);
            var (after, t) := Call(c, r, b, w, now);
            if !allowed then after == asked && t == Trial(Rejected, 0, 0.0, 0.0)
            else
              && after == (if t.result.Returned? then Succeed(asked)
                           else if t.result == Aborted then asked
                           else Fail(c, asked, now + t.elapsed))
              && 1 <= t.attempts <= r.maxRetries + 1
              && 0.0 <= t.slept <= SleepBound(r)
  {
    hide Attempts, Allow, Fail, Succeed, Geometric, Capped;
    AttemptsBounds(r, w, 0);
  }

  datatype Timed = Timed(at: real, world: World)

  datatype Tally = Tally(breaker: Breaker, clock: real, admitted: nat, attempts: nat, allFailed: bool)

  /** Calls made one after another on a fresh breaker, starting at time 0. */
  function Sequential(c: Config, r: RetryConfig, calls: seq<Timed>): Tally {
    if calls == [] then Tally(FRESH, 0.0, 0, 0, true)
    else
      var before := Sequential(c, r, calls[..|calls| - 1]);
      var last := calls[|calls| - 1];
      var (after, t) := Call(c, r, before.breaker, last.world, last.at);
      Tally(after, last.at + t.elapsed,
            before.admitted + (if t.result == Rejected then 0 else 1),
            before.attempts + t.attempts,
            before.allFailed && !t.result.Returned? && t.result != Aborted)
  }

  /** Each call starts no earlier than the previous one ended. */
  ghost predicate OneAtATime(c: Config, r: RetryConfig, calls: seq<Timed>) {
    forall i :: 0 <= i < |calls| ==> Sequential(c, r, calls[..i]).clock <= calls[i].at && Plausible(calls[i].world)
  }

  /** The length of `n` recovery timeouts. */
  function Timeouts(c: Config, n: int): real { n as real * c.recoveryTimeout }

  lemma OneMoreTimeout(c: Config, n: int)
    ensures Timeouts(c, n + 1) == Timeouts(c, n) + c.recoveryTimeout && Timeouts(c, 0) == 0.0
  {
    Distribute(n as real, 1.0, c.recoveryTimeout);
  }

  /**
   The breaker between failing calls: closed below the threshold, otherwise open with its failures a
   timeout apart.
   */
  ghost predicate Paced(c: Config, t: Tally) {
    && t.breaker.failureCount == t.admitted
    && t.clock >= 0.0
    && (if t.admitted < c.failureThreshold then t.breaker.state == Closed
        else
          && t.breaker.state == Open && t.breaker.lastFailure.Some?
          && Timeouts(c, t.admitted - c.failureThreshold) <= t.breaker.lastFailure.value <= t.clock)
  }

  lemma PacedStep(c: Config, r: RetryConfig, t: Tally, call: Timed, next: Tally)
    requires c.failureThreshold >= 1 && c.recoveryTimeout > 0.0
    requires r.maxRetries >= 0 && r.baseDelay >= 0.0 && r.maxDelay >= 0.0 && Plausible(call.world)
    requires Paced(c, t) && t.clock <= call.at
    requires var (after, trial) := Call(c, r, t.breaker, call.world, call.at);
             && !trial.result.Returned? && trial.result != Aborted
             && next.breaker == after && next.clock == call.at + trial.elapsed
             && next.admitted == t.admitted + (if trial.result == Rejected then 0 else 1)
    ensures Paced(c, next) && next.clock >= call.at
    ensures next.admitted > t.admitted ==>
              next.admitted <= c.failureThreshold
              || Timeouts(c, next.admitted - c.failureThreshold) <= call.at
  {
    hide Timeouts, Attempts, Geometric, Capped;
    AttemptsBounds(r, call.world, 0);
    OneMoreTimeout(c, t.admitted - c.failureThreshold);
    OneMoreTimeout(c, 0);
  }

  /** The most attempts that `n` admitted calls can make. */
  function AttemptsFor(r: RetryConfig, n: int): int { (r.maxRetries + 1) * n }

  lemma AttemptsForAdds(r: RetryConfig, a: int, b: int)
    ensures AttemptsFor(r, a + b) == AttemptsFor(r, a) + AttemptsFor(r, b)
    ensures r.maxRetries >= 0 && a <= b ==> AttemptsFor(r, a) <= AttemptsFor(r, b)
    ensures AttemptsFor(r, 0) == 0 && AttemptsFor(r, 1) == r.maxRetries + 1
  {
    DistributeInt(a, b, r.maxRetries + 1);
    if r.maxRetries >= 0 && a <= b { ScaleMonotoneInt(a, b, r.maxRetries + 1); }
  }

  /** Admissions so far fit in the time of the last call. */
  ghost predicate Fits(c: Config, t: Tally, at: real) {
    t.admitted <= c.failureThreshold || Timeouts(c, t.admitted - c.failureThreshold) <= at
  }

  lemma SequentialStep(c: Config, r: RetryConfig, calls: seq<Timed>)
    requires calls != [] && r.maxRetries >= 0 && r.baseDelay >= 0.0 && r.maxDelay >= 0.0
    requires c.failureThreshold >= 1 && c.recoveryTimeout > 0.0
    requires Sequential(c, r, calls).allFailed && Plausible(calls[|calls| - 1].world)
    requires Paced(c, Sequential(c, r, calls[..|calls| - 1]))
    requires Sequential(c, r, calls[..|calls| - 1]).clock <= calls[|calls| - 1].at
    ensures var before, after := Sequential(c, r, calls[..|calls| - 1]), Sequential(c, r, calls);
            && before.allFailed && Paced(c, after) && before.clock <= calls[|calls| - 1].at <= after.clock
            && before.admitted <= after.admitted
            && (after.admitted > before.admitted ==> Fits(c, after, calls[|calls| - 1].at))
            && after.attempts - before.attempts <= AttemptsFor(r, after.admitted - before.admitted)
  {
    hide Paced, Attempts, Fail, Succeed, AttemptsFor, Timeouts, Geometric, Capped, Allow;
    AttemptsForAdds(r, 0, 1);
    var last := calls[|calls| - 1];
    var before, after := Sequential(c, r, calls[..|calls| - 1]), Sequential(c, r, calls);
    AttemptsBounds(r, last.world, 0);
    PacedStep(c, r, before, last, after);
  }

  lemma {:induction false} FailingCallsPaced(c: Config, r: RetryConfig, calls: seq<Timed>, horizon: real)
    requires c.failureThreshold >= 1 && c.recoveryTimeout > 0.0
    requires r.maxRetries >= 0 && r.baseDelay >= 0.0 && r.maxDelay >= 0.0
    requires OneAtATime(c, r, calls) && Sequential(c, r, calls).allFailed
    requires forall i :: 0 <= i < |calls| ==> calls[i].at <= horizon
    ensures var t := Sequential(c, r, calls);
            Paced(c, t) && Fits(c, t, horizon) && t.attempts <= AttemptsFor(r, t.admitted)
    decreases |calls|
  {
    if calls != [] {
      hide Paced, Call, Sequential, AttemptsFor, Timeouts;
      var front := calls[..|calls| - 1];
      OneAtATimePrefix(c, r, calls);
      hide OneAtATime;
      FailedPrefix(c, r, calls);
      FailingCallsPaced(c, r, front, horizon);
      SequentialStep(c, r, calls);
      var before, after := Sequential(c, r, front), Sequential(c, r, calls);
      AttemptsForAdds(r, before.admitted, after.admitted - before.admitted);
    }
  }

  lemma OneAtATimePrefix(c: Config, r: RetryConfig, calls: seq<Timed>)
    requires OneAtATime(c, r, calls) && calls != []
    ensures OneAtATime(c, r, calls[..|calls| - 1])
    ensures Sequential(c, r, calls[..|calls| - 1]).clock <= calls[|calls| - 1].at && Plausible(calls[|calls| - 1].world)
  {
    hide Sequential;
    var front := calls[..|calls| - 1];
    forall i | 0 <= i < |front|
      ensures Sequential(c, r, front[..i]).clock <= front[i].at && Plausible(front[i].world)
    {
      assert front[..i] == calls[..i] && front[i] == calls[i];
    }
  }

  lemma FailedPrefix(c: Config, r: RetryConfig, calls: seq<Timed>)
    requires calls != [] && Sequential(c, r, calls).allFailed
    ensures Sequential(c, r, calls[..|calls| - 1]).allFailed
  {
  }

  /** The threshold, plus one for every full recovery timeout in `horizon`. */
  function AdmissionsBy(c: Config, horizon: real): int
    requires c.recoveryTimeout > 0.0
  {
    c.failureThreshold + (horizon / c.recoveryTimeout).Floor
  }

  /**
   Admission bound: when every call is rejected or fails, the calls admitted by time T number at most the threshold
   plus one for every full recovery timeout in T, and the attempts at most max_retries + 1 times that.
   */
  lemma AdmissionBound(c: Config, r: RetryConfig, calls: seq<Timed>, horizon: real)
    requires c.failureThreshold >= 1 && c.recoveryTimeout > 0.0
    requires r.maxRetries >= 0 && r.baseDelay >= 0.0 && r.maxDelay >= 0.0
    requires OneAtATime(c, r, calls) && Sequential(c, r, calls).allFailed
    requires horizon >= 0.0 && forall i :: 0 <= i < |calls| ==> calls[i].at <= horizon
    ensures Sequential(c, r, calls).admitted <= AdmissionsBy(c, horizon)
    ensures Sequential(c, r, calls).attempts <= AttemptsFor(r, AdmissionsBy(c, horizon))
  {
    hide Sequential, Paced, OneAtATime, AdmissionsBy, AttemptsFor, Timeouts;
    FailingCallsPaced(c, r, calls, horizon);
    var t := Sequential(c, r, calls);
    FloorBound(c, t.admitted - c.failureThreshold, horizon);
    AttemptsForAdds(r, t.admitted, AdmissionsBy(c, horizon));
  }

  /** `n` timeouts fit below `y` only if `n` is at most the whole part of their ratio. */
  lemma FloorBound(c: Config, n: int, y: real)
    requires c.recoveryTimeout > 0.0 && y >= 0.0 && (n <= 0 || Timeouts(c, n) <= y)
    ensures c.failureThreshold + n <= AdmissionsBy(c, y)
  {
    var q := y / c.recoveryTimeout;
    assert q * c.recoveryTimeout == y;
    if q < 0.0 { ScaleStrict(q, 0.0, c.recoveryTimeout); }
    if n as real > q { ScaleStrict(q, n as real, c.recoveryTimeout); }
  }

  lemma ScaleStrict(a: real, b: real, x: real)
    requires a < b && x > 0.0
    ensures a * x < b * x
  {
  }

  // ---------------------------------------------------------------- a cancelled probe

  lemma {:induction false} RunConcat(c: Config, b: Breaker, es: seq<Event>, more: seq<Event>)
    ensures Run(c, b, es + more) == Run(c, Run(c, b, es), more)
    decreases |more|
  {
    hide Step;
    if more == [] {
      Unit(es);
    } else {
      var all := es + more;
      assert all[..|all| - 1] == es + more[..|more| - 1] && all[|all| - 1] == more[|more| - 1];
      RunConcat(c, b, es, more[..|more| - 1]);
    }
  }

  lemma MonotonePrefix(a: seq<Event>, b: seq<Event>)
    requires Monotone(a + b)
    ensures Monotone(a)
  {
    forall i, j | 0 <= i < j < |a| ensures a[i].at <= a[j].at { assert (a + b)[i].at <= (a + b)[j].at; }
  }

  /** An admitted request on a tripped breaker is its probe. */
  lemma AdmittedIsProbe(c: Config, es: seq<Event>, now: real)
    requires c.failureThreshold >= 1 && Monotone(es + [Asking(now)])
    requires FailuresSinceSuccess(es) >= c.failureThreshold && Admits(c, Run(c, FRESH, es), Asking(now))
    ensures ProbeUsed(c, es + [Asking(now)]) && FailuresSinceSuccess(es + [Asking(now)]) == FailuresSinceSuccess(es)
  {
    AdmissionRule(c, es, now);
    ProbeSnoc(c, es, Asking(now));
    assert (es + [Asking(now)])[..|es|] == es;
    hide Run, ProbeUsed, Mature;
  }

  /**
   A cancelled probe wedges the breaker: when the one call let through by a tripped breaker is
   cancelled, every later call is rejected, however long after, until some other call that was let
   through before records an outcome.
   */
  lemma CancelledProbeBlocks(c: Config, r: RetryConfig, es: seq<Event>, w: World, now: real,
                             more: seq<Event>, x: World, later: real)
    requires c.failureThreshold >= 1 && FailuresSinceSuccess(es) >= c.failureThreshold
    requires Monotone(es + [Asking(now)] + more + [Asking(later)])
    requires forall i :: 0 <= i < |more| ==> !Outcome(more[i])
    requires Call(c, r, Run(c, FRESH, es), w, now).1.result == Aborted
    ensures var after := Call(c, r, Run(c, FRESH, es), w, now).0;
            Call(c, r, Run(c, after, more), x, later).1.result == Rejected
  {
    var probed := es + [Asking(now)];
    var after := Call(c, r, Run(c, FRESH, es), w, now).0;
    AbortedIsAsked(c, r, es, w, now);
    hide Run, Call, Attempts, FailuresSinceSuccess, ProbeUsed, Mature;
    MonotonePrefix(probed + more, [Asking(later)]);
    MonotonePrefix(probed, more);
    AdmittedIsProbe(c, es, now);
    OneProbePerEpisode(c, probed, more);
    AdmissionRule(c, probed + more, later);
    RunConcat(c, FRESH, probed, more);
    NotAdmitted(c, r, Run(c, after, more), x, later);
  }

  lemma AbortedIsAsked(c: Config, r: RetryConfig, es: seq<Event>, w: World, now: real)
    requires Call(c, r, Run(c, FRESH, es), w, now).1.result == Aborted
    ensures Admits(c, Run(c, FRESH, es), Asking(now))
    ensures Call(c, r, Run(c, FRESH, es), w, now).0 == Run(c, FRESH, es + [Asking(now)])
  {
    assert (es + [Asking(now)])[..|es|] == es;
    hide Attempts, Read;
  }

  lemma NotAdmitted(c: Config, r: RetryConfig, b: Breaker, w: World, now: real)
    requires !Admits(c, b, Asking(now))
    ensures Call(c, r, b, w, now).1.result == Rejected
  {
    hide Attempts, Read;
  }

  // ---------------------------------------------------------------- the attempts of one call

  /** `base` doubled `i` times. */
  function Doubled(base: real, i: nat): real {
    if i == 0 then base else 2.0 * Doubled(base, i - 1)
  }

  /** The pause after attempt `i`: the doubled base delay, capped, times the jitter. */
  ghost function Pause(r: RetryConfig, w: World, i: nat): real {
    MinReal(Doubled(r.baseDelay, i), r.maxDelay) * w.jitter(i)
  }

  /** The pauses after `n` attempts from `a` on, together. */
  ghost function Pauses(r: RetryConfig, w: World, a: nat, n: nat): real
    decreases n
  {
    if n == 0 then 0.0 else Pause(r, w, a) + Pauses(r, w, a + 1, n - 1)
  }

  ghost function Times(w: World, a: nat, n: nat): real
    decreases n
  {
    if n == 0 then 0.0 else w.took(a) + Times(w, a + 1, n - 1)
  }

  /** Attempt `i` failed with an exception on the retry list and the pause after it was not cut short. */
  ghost predicate GoesOn(r: RetryConfig, w: World, i: nat) {
    w.reply(i) == Retryable && !(w.cut(i).Some? && w.cut(i).value < Pause(r, w, i))
  }

  /** How a call ends whose last attempt is number `k`, and how long it slept after that attempt. */
  ghost function EndAt(r: RetryConfig, w: World, k: nat): (CallResult, real) {
    match w.reply(k)
    case Returns => (Returned(k), 0.0)
    case Fatal => (Propagated, 0.0)
    case Cancelled => (Aborted, 0.0)
    case Retryable =>
      if k == r.maxRetries then (Exhausted, 0.0)
      else if w.cut(k).Some? then (Aborted, w.cut(k).value)
      else (NoAttempt, 0.0)
  }

  lemma {:induction false} BackoffDoubles(r: RetryConfig, i: nat)
    ensures Backoff(r, i) == Doubled(r.baseDelay, i)
  {
    if i > 0 {
      BackoffDoubles(r, i - 1);
      PowerStep(i);
      Distribute(Pow2(i - 1) as real, Pow2(i - 1) as real, r.baseDelay);
    }
  }

  lemma PowerStep(i: nat)
    requires i > 0
    ensures Pow2(i) as real == Pow2(i - 1) as real + Pow2(i - 1) as real
  {
  }

  lemma NapIsPause(r: RetryConfig, w: World, i: nat)
    ensures Nap(r, i, w.jitter(i)) == Pause(r, w, i)
  {
    BackoffDoubles(r, i);
    hide Backoff, Doubled;
  }

  /** `t` is the attempts from `a` to the first that does not go on or is the last one allowed. */
  ghost predicate Told(r: RetryConfig, w: World, a: nat, t: Trial) {
    && t.attempts >= 1 && a + t.attempts - 1 <= r.maxRetries
    && var k := a + t.attempts - 1;
       && (forall i :: a <= i < k ==> GoesOn(r, w, i))
       && (k < r.maxRetries ==> !GoesOn(r, w, k))
       && t.result == EndAt(r, w, k).0
       && t.slept == Pauses(r, w, a, t.attempts - 1) + EndAt(r, w, k).1
       && t.elapsed == Times(w, a, t.attempts) + t.slept
  }

  lemma TimesOne(w: World, a: nat)
    ensures Times(w, a, 1) == w.took(a)
  {
    assert Times(w, a + 1, 0) == 0.0;
  }

  lemma LastTold(r: RetryConfig, w: World, a: nat)
    requires a <= r.maxRetries && (a < r.maxRetries ==> !GoesOn(r, w, a))
    ensures Told(r, w, a, Attempts(r, w, a))
  {
    NapIsPause(r, w, a);
    TimesOne(w, a);
    hide Nap, Pause, Times;
  }

  lemma StepTold(r: RetryConfig, w: World, a: nat, rest: Trial)
    requires a < r.maxRetries && GoesOn(r, w, a) && Told(r, w, a + 1, rest)
    ensures Told(r, w, a, Trial(rest.result, 1 + rest.attempts, Pause(r, w, a) + rest.slept,
                                w.took(a) + Pause(r, w, a) + rest.elapsed))
  {
    hide GoesOn, Pause, EndAt;
  }

  lemma AttemptsStep(r: RetryConfig, w: World, a: nat)
    requires a < r.maxRetries && GoesOn(r, w, a)
    ensures var rest := Attempts(r, w, a + 1);
            Attempts(r, w, a) == Trial(rest.result, 1 + rest.attempts, Pause(r, w, a) + rest.slept,
                                       w.took(a) + Pause(r, w, a) + rest.elapsed)
  {
    NapIsPause(r, w, a);
    hide Nap, Pause;
  }

  /**
   The attempts of a call: they go on while each fails with an exception on the retry list, fewer than
   max_retries have been retried, and no pause is cut short; the last one decides the result. The call
   sleeps exactly the pauses in between, min(base_delay * 2^i, max_delay) times the jitter after attempt `i`.
   */
  lemma {:induction false} AttemptsMeaning(r: RetryConfig, w: World, a: nat)
    requires a <= r.maxRetries
    ensures Told(r, w, a, Attempts(r, w, a))
    decreases r.maxRetries - a
  {
    hide *;
    if a < r.maxRetries && GoesOn(r, w, a) {
      AttemptsMeaning(r, w, a + 1);
      AttemptsStep(r, w, a);
      StepTold(r, w, a, Attempts(r, w, a + 1));
    } else {
      LastTold(r, w, a);
    }
  }
}
