/**
 The hand-written retry loop of the LLM client (backend/app/services/generation/openai.py),
 compared with `with_retry` at the same constants.
 */
module OpenAiLlm {
  import opened Prelude
  import opened Resilience

  /** The exceptions the OpenAI SDK can raise, by class. */
  datatype ApiException = RateLimit | Status(code: int) | OtherApi | Foreign

  /** One attempt: a response, whose first choice may be missing, an exception, or a cancellation. */
  datatype ApiReply = Response(wellFormed: bool) | Raises(e: ApiException) | Stopped

  const RETRYABLE_CODES := {429, 500, 502, 503, 529}

  predicate IsRetryable(e: ApiException) {
    match e
    case RateLimit => true
    case Status(code) => code in RETRYABLE_CODES
    case OtherApi => true
    case Foreign => false
  }

  const BREAKER := Config(5, 30.0)
  const RETRY := RetryConfig(3, 1.0, 30.0)

  datatype ApiWorld = ApiWorld(reply: nat -> ApiReply, took: nat -> real, jitter: nat -> real, cut: nat -> Option<real>)

  /** The same outside world as `with_retry` would see it, reading the response inside the wrapped call. */
  function Seen(r: ApiReply): Reply {
    match r
    case Response(wellFormed) => if wellFormed then Returns else Fatal
    case Raises(e) => if IsRetryable(e) then Retryable else Fatal
    case Stopped => Cancelled
  }

  function SeenWorld(w: ApiWorld): World {
    World((i: nat) => Seen(w.reply(i)), w.took, w.jitter, w.cut)
  }

  /** How a call ends: the trial, the breaker, and how many outcomes were recorded on it. */
  datatype End = End(breaker: Breaker, trial: Trial, outcomes: nat)

  /** One more attempt in front of the rest. */
  function After(took: real, nap: real, rest: End): End {
    var t := rest.trial;
    rest.(trial := Trial(t.result, 1 + t.attempts, nap + t.slept, took + nap + t.elapsed))
  }

  /** The attempts of an admitted call from `attempt` on, which starts at time `now` on the breaker `b`. */
  function ApiAttempts(b: Breaker, w: ApiWorld, attempt: nat, now: real): End
    requires attempt <= RETRY.maxRetries
    decreases RETRY.maxRetries - attempt
  {
    var took := w.took(attempt);
    var end := now + took;
    match w.reply(attempt)
    case Response(true) => End(Succeed(b), Trial(Returned(attempt), 1, 0.0, took), 1)
    case Response(false) => End(Fail(BREAKER, Succeed(b), end), Trial(Propagated, 1, 0.0, took), 2)
    case Raises(e) =>
      if !IsRetryable(e) then End(Fail(BREAKER, b, end), Trial(Propagated, 1, 0.0, took), 1)
      else if attempt == RETRY.maxRetries then End(Fail(BREAKER, b, end), Trial(Exhausted, 1, 0.0, took), 1)
      else
        var nap := Nap(RETRY, attempt, w.jitter(attempt));
        if Interrupted(w.cut(attempt), nap) then
          End(b, Trial(Aborted, 1, w.cut(attempt).value, took + w.cut(attempt).value), 0)
        else After(took, nap, ApiAttempts(b, w, attempt + 1, end + nap))
    case Stopped => End(b, Trial(Aborted, 1, 0.0, took), 0)
  }

  /** A whole call at time `now`. */
  function CallApi(b: Breaker, w: ApiWorld, now: real): End {
    var (asked, allowed) := Allow(BREAKER, b, now);
    if allowed then ApiAttempts(asked, w, 0, now) else End(asked, Trial(Rejected, 0, 0.0, 0.0), 0)
  }

  /** The attempt raises something on the retry list, and the pause after it is slept out. */
  predicate Retried(w: ApiWorld, i: nat) {
    w.reply(i).Raises? && IsRetryable(w.reply(i).e) && !Interrupted(w.cut(i), Nap(RETRY, i, w.jitter(i)))
  }

  /** An attempt that is retried, in both loops. */
  lemma RetriedAttempt(b: Breaker, w: ApiWorld, attempt: nat, now: real)
    requires attempt < RETRY.maxRetries && Retried(w, attempt)
    ensures var took, nap := w.took(attempt), Nap(RETRY, attempt, w.jitter(attempt));
            && ApiAttempts(b, w, attempt, now) == After(took, nap, ApiAttempts(b, w, attempt + 1, now + took + nap))
            && Attempts(RETRY, SeenWorld(w), attempt) ==
                 var t := Attempts(RETRY, SeenWorld(w), attempt + 1);
                 Trial(t.result, 1 + t.attempts, nap + t.slept, took + nap + t.elapsed)
  {
    hide Nap, Fail, Succeed;
  }

  /** An attempt that is not followed by another, in both loops. */
  lemma LastAttempt(b: Breaker, w: ApiWorld, attempt: nat, now: real)
    requires attempt <= RETRY.maxRetries && (Retried(w, attempt) ==> attempt == RETRY.maxRetries)
    ensures ApiAttempts(b, w, attempt, now) == Ending(b, w, attempt, now)
    ensures Attempts(RETRY, SeenWorld(w), attempt) == Ending(b, w, attempt, now).trial
  {
    hide Nap, Fail, Succeed;
  }

  function Ending(b: Breaker, w: ApiWorld, attempt: nat, now: real): End {
    var took := w.took(attempt);
    match w.reply(attempt)
    case Response(true) => End(Succeed(b), Trial(Returned(attempt), 1, 0.0, took), 1)
    case Response(false) => End(Fail(BREAKER, Succeed(b), now + took), Trial(Propagated, 1, 0.0, took), 2)
    case Raises(e) =>
      if !IsRetryable(e) then End(Fail(BREAKER, b, now + took), Trial(Propagated, 1, 0.0, took), 1)
      else if attempt >= RETRY.maxRetries then End(Fail(BREAKER, b, now + took), Trial(Exhausted, 1, 0.0, took), 1)
      else
        var slept := if w.cut(attempt).Some? then w.cut(attempt).value else 0.0;
        End(b, Trial(Aborted, 1, slept, took + slept), 0)
    case Stopped => End(b, Trial(Aborted, 1, 0.0, took), 0)
  }

  /** `generate`, with the outcomes it records on its breaker. */
  method Generate(cb: CircuitBreaker, w: ApiWorld, now: real) returns (t: Trial, outcomes: nat)
    requires cb.config == BREAKER
    modifies cb
    ensures End(cb.Fields(), t, outcomes) == CallApi(old(cb.Fields()), w, now)
  {
    hide Nap, Allow, Fail, Succeed, ApiAttempts;
    outcomes := 0;
    var allowed := cb.AllowRequest(now);
    if !allowed { return Trial(Rejected, 0, 0.0, 0.0), 0; }
    ghost var asked := cb.Fields();
    var slept, clock := 0.0, now;
    for attempt := 0 to RETRY.maxRetries + 1
      invariant cb.Fields() == asked && outcomes == 0 && attempt <= RETRY.maxRetries
      invariant Reaches(ApiAttempts(asked, w, 0, now), attempt, slept, clock - now,
          ApiAttempts(asked, w, attempt, clock))
    {
      if Retried(w, attempt) && attempt < RETRY.maxRetries {
        RetriedAttempt(asked, w, attempt, clock);
      } else {
        LastAttempt(asked, w, attempt, clock);
      }
      clock := clock + w.took(attempt);
      match w.reply(attempt) {
        case Response(wellFormed) =>
          cb.RecordSuccess();
          outcomes := 1;
          if wellFormed { return Trial(Returned(attempt), attempt + 1, slept, clock - now), outcomes; }
          cb.RecordFailure(clock);
          return Trial(Propagated, attempt + 1, slept, clock - now), 2;
        case Raises(e) =>
          if IsRetryable(e) && attempt < RETRY.maxRetries {
            var nap := Nap(RETRY, attempt, w.jitter(attempt));
            var cut := w.cut(attempt);
            if cut.Some? && cut.value < nap {
              return Trial(Aborted, attempt + 1, slept + cut.value, clock + cut.value - now), 0;
            }
            slept := slept + nap;
            clock := clock + nap;
          } else if IsRetryable(e) {
            cb.RecordFailure(clock);
            return Trial(Exhausted, attempt + 1, slept, clock - now), 1;
          } else {
            cb.RecordFailure(clock);
            return Trial(Propagated, attempt + 1, slept, clock - now), 1;
          }
        case Stopped =>
          return Trial(Aborted, attempt + 1, slept, clock - now), 0;
      }
    }
    assert false;
  }

  /** The whole call is the part done, in so many attempts and so much time, followed by `rest`. */
  ghost predicate Reaches(whole: End, attempts: nat, slept: real, elapsed: real, rest: End) {
    var t := rest.trial;
    whole == rest.(trial := Trial(t.result, attempts + t.attempts, slept + t.slept, elapsed + t.elapsed))
  }

  // ---------------------------------------------------------------- compared with with_retry

  /** From `attempt` on, the first reply that is not retried is a response that cannot be read. */
  ghost predicate UnreadableFrom(w: ApiWorld, attempt: nat) {
    exists a: nat :: attempt <= a <= RETRY.maxRetries && UnreadableAt(w, attempt, a)
  }

  ghost predicate UnreadableAt(w: ApiWorld, attempt: nat, a: nat) {
    w.reply(a) == Response(false) && forall i :: attempt <= i < a ==> Retried(w, i)
  }

  lemma UnreadableStep(w: ApiWorld, attempt: nat)
    requires attempt <= RETRY.maxRetries
    ensures UnreadableFrom(w, attempt) <==>
              w.reply(attempt) == Response(false) || (Retried(w, attempt) && UnreadableFrom(w, attempt + 1))
  {
    if w.reply(attempt) == Response(false) { assert UnreadableAt(w, attempt, attempt); }
    if a: nat :| attempt <= a <= RETRY.maxRetries && UnreadableAt(w, attempt, a) {
      if a > attempt { assert UnreadableAt(w, attempt + 1, a); }
    }
    if Retried(w, attempt) {
      var next := attempt + 1;
      if a: nat :| next <= a <= RETRY.maxRetries && UnreadableAt(w, next, a) {
        assert UnreadableAt(w, attempt, a);
      }
    }
  }

  /** What with_retry records at the end of an admitted call. */
  function Recorded(b: Breaker, t: Trial, now: real): Breaker {
    if t.result.Returned? then Succeed(b) else if t.result == Aborted then b else Fail(BREAKER, b, now + t.elapsed)
  }

  /** The two loops make the same attempts; the breakers differ only by a success recorded before the failure. */
  ghost predicate Agree(b: Breaker, w: ApiWorld, attempt: nat, now: real, end: End, t: Trial) {
    && end.trial == t && t.result != NoAttempt && t.result != Rejected
    && if UnreadableFrom(w, attempt)
       then t.result == Propagated && end.outcomes == 2 && end.breaker == Fail(BREAKER, Succeed(b), now + t.elapsed)
       else end.outcomes == (if t.result == Aborted then 0 else 1) && end.breaker == Recorded(b, t, now)
  }

  lemma AgreeOnLast(b: Breaker, w: ApiWorld, attempt: nat, now: real)
    requires attempt <= RETRY.maxRetries && (Retried(w, attempt) ==> attempt == RETRY.maxRetries)
    ensures Agree(b, w, attempt, now, ApiAttempts(b, w, attempt, now), Attempts(RETRY, SeenWorld(w), attempt))
  {
    UnreadableStep(w, attempt);
    NoneLeft(w);
    LastAttempt(b, w, attempt, now);
    hide Nap, Fail, Succeed, UnreadableFrom, ApiAttempts, Attempts, SeenWorld;
  }

  lemma {:induction false} SameAttempts(b: Breaker, w: ApiWorld, attempt: nat, now: real)
    requires attempt <= RETRY.maxRetries
    ensures Agree(b, w, attempt, now, ApiAttempts(b, w, attempt, now), Attempts(RETRY, SeenWorld(w), attempt))
    decreases RETRY.maxRetries - attempt
  {
    hide Nap, Fail, Succeed, UnreadableFrom, ApiAttempts, Attempts;
    if Retried(w, attempt) && attempt < RETRY.maxRetries {
      UnreadableStep(w, attempt);
      RetriedAttempt(b, w, attempt, now);
      SameAttempts(b, w, attempt + 1, now + w.took(attempt) + Nap(RETRY, attempt, w.jitter(attempt)));
    } else {
      AgreeOnLast(b, w, attempt, now);
    }
  }

  lemma NoneLeft(w: ApiWorld)
    ensures !UnreadableFrom(w, RETRY.maxRetries + 1)
  {
  }

  /** The call is let through and the first reply that is not retried cannot be read. */
  ghost predicate Unreadable(b: Breaker, w: ApiWorld, now: real) {
    Allow(BREAKER, b, now).1 && UnreadableFrom(w, 0)
  }

  /**
   The loop is `with_retry` at three retries, one second and thirty seconds, exactly when the replies
   do not lead to an unreadable response, or the breaker had nothing to forget. One outcome is
   recorded per admitted call, except two for an unreadable response and none for a cancelled one.
   */
  lemma GenerateIsWithRetry(b: Breaker, w: ApiWorld, now: real)
    ensures var end, asked := CallApi(b, w, now), Allow(BREAKER, b, now).0;
            && end.outcomes == (if end.trial.result == Rejected || end.trial.result == Aborted then 0
                                else if Unreadable(b, w, now) then 2 else 1)
            && ((end.breaker, end.trial) == Call(BREAKER, RETRY, b, SeenWorld(w), now) <==>
                  || !Unreadable(b, w, now)
                  || (asked.state == Closed && asked.failureCount == 0 && !asked.halfOpenAllowed))
  {
    hide Allow, Attempts, ApiAttempts, UnreadableFrom;
    SameAttempts(Allow(BREAKER, b, now).0, w, 0, now);
  }

  datatype ApiCall = ApiCall(at: real, world: ApiWorld)

  function ApiRun(calls: seq<ApiCall>): Breaker {
    if calls == [] then FRESH
    else CallApi(ApiRun(calls[..|calls| - 1]), calls[|calls| - 1].world, calls[|calls| - 1].at).breaker
  }

  /**
   Unreadable responses never open the breaker: however many calls end on one, after whatever
   retries, every call raises, every call is admitted, and the failure count stays at one.
   */
  lemma {:induction false} MalformedNeverTrips(calls: seq<ApiCall>)
    requires forall i :: 0 <= i < |calls| ==> UnreadableFrom(calls[i].world, 0)
    ensures ApiRun(calls).state == Closed && ApiRun(calls).failureCount == Min(1, |calls|)
    ensures forall now: real, w: ApiWorld :: UnreadableFrom(w, 0) ==>
              CallApi(ApiRun(calls), w, now).trial.result == Propagated
    decreases |calls|
  {
    hide ApiAttempts, Attempts, UnreadableFrom;
    if calls != [] {
      var front, last := calls[..|calls| - 1], calls[|calls| - 1];
      MalformedNeverTrips(front);
      SameAttempts(ApiRun(front), last.world, 0, last.at);
    }
    forall now: real, w: ApiWorld | UnreadableFrom(w, 0)
      ensures CallApi(ApiRun(calls), w, now).trial.result == Propagated
    {
      SameAttempts(ApiRun(calls), w, 0, now);
    }
  }

  // ---------------------------------------------------------------- the constants

  /** The errors worth another attempt: rate limits, five status codes, and other errors of the API. */
  ghost predicate WorthRetrying(e: ApiException) {
    e == RateLimit || e == OtherApi || (e.Status? && e.code in {429, 500, 502, 503, 529})
  }

  /** An admitted call that always gets the same error: four attempts and seven seconds at most, or one attempt. */
  lemma SameErrorAgain(b: Breaker, w: ApiWorld, now: real, e: ApiException)
    requires Allow(BREAKER, b, now).1
    requires forall i: nat :: w.reply(i) == Raises(e) && w.cut(i) == None && 0.5 <= w.jitter(i) <= 1.0
    ensures var t := CallApi(b, w, now).trial;
            if WorthRetrying(e) then t.result == Exhausted && t.attempts == 4 && 3.5 <= t.slept <= 7.0
            else t.result == Propagated && t.attempts == 1 && t.slept == 0.0
  {
    hide Allow, Fail, Succeed, UnreadableFrom, Told, Attempts, SeenWorld, CallApi;
    GenerateIsWithRetry(b, w, now);
    NeverUnreadable(w, e);
    AttemptsMeaning(RETRY, SeenWorld(w), 0);
    SameReplyTold(w, e, Attempts(RETRY, SeenWorld(w), 0));
  }

  lemma NeverUnreadable(w: ApiWorld, e: ApiException)
    requires forall i: nat :: w.reply(i) == Raises(e)
    ensures !UnreadableFrom(w, 0)
  {
  }

  lemma FirstPauses(w: World)
    ensures Pauses(RETRY, w, 0, 3) == w.jitter(0) + 2.0 * w.jitter(1) + 4.0 * w.jitter(2)
  {
    assert Doubled(1.0, 1) == 2.0 && Doubled(1.0, 2) == 4.0;
    assert Pauses(RETRY, w, 3, 0) == 0.0;
    assert Pauses(RETRY, w, 2, 1) == Pause(RETRY, w, 2);
    assert Pauses(RETRY, w, 1, 2) == Pause(RETRY, w, 1) + Pauses(RETRY, w, 2, 1);
  }

  lemma SameReplyTold(w: ApiWorld, e: ApiException, t: Trial)
    requires forall i: nat :: w.reply(i) == Raises(e) && w.cut(i) == None && 0.5 <= w.jitter(i) <= 1.0
    requires Told(RETRY, SeenWorld(w), 0, t)
    ensures if WorthRetrying(e) then t.result == Exhausted && t.attempts == 4 && 3.5 <= t.slept <= 7.0
            else t.result == Propagated && t.attempts == 1 && t.slept == 0.0
  {
    FirstPauses(SeenWorld(w));
    hide Pause, Doubled;
    if WorthRetrying(e) {
      assert forall i: nat :: GoesOn(RETRY, SeenWorld(w), i);
    } else {
      assert !GoesOn(RETRY, SeenWorld(w), 0);
    }
  }

  /** The breaker of the client: it opens at the fifth failure since the last success, for thirty seconds. */
  lemma ClientAdmission(es: seq<Event>, now: real)
    requires Monotone(es + [Asking(now)])
    ensures Admits(BREAKER, Run(BREAKER, FRESH, es), Asking(now)) <==>
              || FailuresSinceSuccess(es) < 5
              || (LastFailureTime(es).Some? && now - LastFailureTime(es).value >= 30.0 && !ProbeUsed(BREAKER, es))
  {
    AdmissionRule(BREAKER, es, now);
    hide Run, FailuresSinceSuccess, LastFailureTime, ProbeUsed, Admits;
  }
}
