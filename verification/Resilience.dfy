/** Circuit breaker, retry policy, and the wrapper that puts the breaker inside the retries. */
module Resilience {
  import opened Wrappers

  /** What a call raises. `TypeError` is what re-raising a missing exception gives. */
  datatype Failure = CircuitOpen | Ordinary(code: int) | TypeError | Cancelled
  datatype Outcome = Success(value: int) | Raised(failure: Failure)

  /** One real invocation of the wrapped function. */
  datatype Invocation = Invocation(start: real, end: real, outcome: Outcome)

  // ---- What a breaker remembers, as a function of the completed calls ----

  /** A failure the breaker counts: any ordinary exception except another breaker's rejection. */
  predicate Counts(outcome: Outcome) {
    outcome.Raised? && (outcome.failure.Ordinary? || outcome.failure.TypeError?)
  }

  /** Counted failures since the last success. */
  function Failures(log: seq<Invocation>): nat {
    if log == [] then 0
    else
      var last := log[|log| - 1].outcome;
      if last.Success? then 0 else Failures(log[..|log| - 1]) + (if Counts(last) then 1 else 0)
  }

  /** When the last of those failures happened. */
  function LastFailure(log: seq<Invocation>): Option<real> {
    if log == [] || log[|log| - 1].outcome.Success? then None
    else if Counts(log[|log| - 1].outcome) then Some(log[|log| - 1].end)
    else LastFailure(log[..|log| - 1])
  }

  /** A threshold below one acts as one: the circuit is never open without a failure. */
  predicate Tripped(log: seq<Invocation>, threshold: int) {
    Failures(log) >= Max(threshold, 1)
  }

  /** When the failures since the last success reached the threshold. */
  function OpenedAt(log: seq<Invocation>, threshold: int): real
    requires Tripped(log, threshold)
  {
    if Failures(log) == Max(threshold, 1) && Counts(log[|log| - 1].outcome) then log[|log| - 1].end
    else OpenedAt(log[..|log| - 1], threshold)
  }

  /** The breaker lets a call through at `now`. */
  predicate Admits(log: seq<Invocation>, threshold: int, recovery: real, now: real) {
    Tripped(log, threshold) ==> LastFailure(log).Some? && now - LastFailure(log).value >= recovery
  }

  // ---- Sequential runs ----

  ghost predicate Sequential(log: seq<Invocation>) {
    && (forall i :: 0 <= i < |log| ==> log[i].start <= log[i].end)
    && (forall i, j :: 0 <= i < j < |log| ==> log[i].end <= log[j].start)
  }

  /** Every call in the log was let through when it started. */
  ghost predicate Lawful(log: seq<Invocation>, threshold: int, recovery: real) {
    forall k :: 0 <= k < |log| ==> AdmittedAt(log, k, threshold, recovery)
  }

  ghost predicate AdmittedAt(log: seq<Invocation>, k: nat, threshold: int, recovery: real)
    requires k < |log|
  {
    Admits(log[..k], threshold, recovery, log[k].start)
  }

  lemma LawfulPrefix(log: seq<Invocation>, threshold: int, recovery: real)
    requires log != [] && Lawful(log, threshold, recovery)
    ensures Lawful(log[..|log| - 1], threshold, recovery)
  {
    var front := log[..|log| - 1];
    forall k | 0 <= k < |front| ensures AdmittedAt(front, k, threshold, recovery) {
      assert AdmittedAt(log, k, threshold, recovery);
      assert front[..k] == log[..k];
    }
  }

  lemma LawfulExtended(log: seq<Invocation>, call: Invocation, threshold: int, recovery: real)
    requires Lawful(log, threshold, recovery) && Admits(log, threshold, recovery, call.start)
    ensures Lawful(log + [call], threshold, recovery)
  {
    var all := log + [call];
    forall k | 0 <= k < |all| ensures AdmittedAt(all, k, threshold, recovery) {
      assert all[..k] == log[..k];
      assert k < |log| ==> AdmittedAt(log, k, threshold, recovery);
      assert log[..|log|] == log;
    }
  }

  lemma {:induction false} LastFailureKnown(log: seq<Invocation>)
    ensures LastFailure(log).Some? <==> Failures(log) > 0
    ensures LastFailure(log).Some? ==> exists i :: 0 <= i < |log| && log[i].end == LastFailure(log).value
  {
    if log != [] {
      var front := log[..|log| - 1];
      LastFailureKnown(front);
      if !log[|log| - 1].outcome.Success? && !Counts(log[|log| - 1].outcome) && LastFailure(front).Some? {
        var i :| 0 <= i < |front| && front[i].end == LastFailure(front).value;
        assert log[i].end == LastFailure(log).value;
      }
    }
  }

  /** The time `n` recovery timeouts take. */
  function Recoveries(n: int, recovery: real): real {
    n as real * recovery
  }

  lemma OneMoreRecovery(n: int, recovery: real)
    ensures Recoveries(0, recovery) == 0.0
    ensures Recoveries(n + 1, recovery) == Recoveries(n, recovery) + recovery
  {
  }

  /** Once open, each further failure comes at least one recovery timeout after the one before. */
  lemma {:induction false} ProbesAreSpaced(log: seq<Invocation>, threshold: int, recovery: real)
    requires Sequential(log) && Lawful(log, threshold, recovery) && Tripped(log, threshold)
    ensures LastFailure(log).Some?
    ensures LastFailure(log).value >= OpenedAt(log, threshold) + Recoveries(Failures(log) - Max(threshold, 1), recovery)
  {
    hide Lawful, Recoveries;
    LastFailureKnown(log);
    OneMoreRecovery(0, recovery);
    var front, last := log[..|log| - 1], log[|log| - 1];
    if Failures(log) > Max(threshold, 1) || !Counts(last.outcome) {
      LawfulPrefix(log, threshold, recovery);
      ProbesAreSpaced(front, threshold, recovery);
      LastAdmitted(log, threshold, recovery);
      OneMoreRecovery(Failures(front) - Max(threshold, 1), recovery);
    }
  }

  lemma LastAdmitted(log: seq<Invocation>, threshold: int, recovery: real)
    requires log != [] && Lawful(log, threshold, recovery)
    ensures Admits(log[..|log| - 1], threshold, recovery, log[|log| - 1].start)
  {
    assert AdmittedAt(log, |log| - 1, threshold, recovery);
  }

  /** In every sequential run the failures since the last success stay within the threshold
      plus one probe per recovery timeout elapsed since the circuit opened. */
  lemma FailuresBounded(log: seq<Invocation>, threshold: int, recovery: real, now: real)
    requires Sequential(log) && Lawful(log, threshold, recovery) && recovery > 0.0
    requires forall i :: 0 <= i < |log| ==> log[i].end <= now
    ensures !Tripped(log, threshold) ==> Failures(log) < Max(threshold, 1)
    ensures Tripped(log, threshold) ==>
      Failures(log) <= Max(threshold, 1) + ((now - OpenedAt(log, threshold)) / recovery).Floor
  {
    hide Failures, LastFailure, OpenedAt, Sequential, Lawful;
    if Tripped(log, threshold) {
      ProbesAreSpaced(log, threshold, recovery);
      LastFailureKnown(log);
      AtMostFloor(Failures(log) - Max(threshold, 1), recovery, now - OpenedAt(log, threshold));
    }
  }

  lemma AtMostFloor(n: int, r: real, span: real)
    requires r > 0.0 && Recoveries(n, r) <= span
    ensures n <= (span / r).Floor
  {
    assert n as real <= span / r;
  }

  lemma WholeRecoveries(n: int, r: real)
    requires r > 0.0
    ensures (Recoveries(n, r) / r).Floor == n
  {
    var x := n as real;
    Cancel(x, r);
    assert Recoveries(n, r) == x * r;
    assert x.Floor == n;
  }

  lemma Cancel(x: real, r: real)
    requires r > 0.0
    ensures (x * r) / r == x
  {
  }

  lemma {:induction false} AllCounted(log: seq<Invocation>)
    requires forall i :: 0 <= i < |log| ==> Counts(log[i].outcome)
    ensures Failures(log) == |log|
  {
    if log != [] { AllCounted(log[..|log| - 1]); }
  }

  /** When every real invocation fails, that bounds the real invocations themselves. */
  lemma InvocationsBounded(log: seq<Invocation>, threshold: int, recovery: real, now: real)
    requires Sequential(log) && Lawful(log, threshold, recovery) && recovery > 0.0
    requires forall i :: 0 <= i < |log| ==> log[i].end <= now && Counts(log[i].outcome)
    ensures |log| >= Max(threshold, 1) ==> Tripped(log, threshold)
    ensures |log| >= Max(threshold, 1) ==>
      |log| <= Max(threshold, 1) + ((now - OpenedAt(log, threshold)) / recovery).Floor
  {
    AllCounted(log);
    FailuresBounded(log, threshold, recovery, now);
  }

  // ---- The bound is reached ----

  /** A burst of failures at time zero, then one probe per recovery timeout. */
  ghost function Burst(threshold: int, recovery: real, probes: nat): seq<Invocation> {
    if probes == 0 then seq(Max(threshold, 1), _ => Failing(0.0))
    else Burst(threshold, recovery, probes - 1) + [Failing(Recoveries(probes, recovery))]
  }

  function Failing(at: real): Invocation {
    Invocation(at, at, Raised(Ordinary(0)))
  }

  lemma {:induction false} BurstIsLawful(threshold: int, recovery: real, probes: nat)
    requires recovery >= 0.0
    ensures var log := Burst(threshold, recovery, probes);
      && Sequential(log) && Lawful(log, threshold, recovery)
      && Tripped(log, threshold) && OpenedAt(log, threshold) == 0.0 && |log| == Max(threshold, 1) + probes
      && forall i :: 0 <= i < |log| ==> log[i].end <= Recoveries(probes, recovery) && Counts(log[i].outcome)
  {
    hide Failures, LastFailure, OpenedAt, Lawful, Tripped, Recoveries;
    OneMoreRecovery(probes - 1, recovery);
    if probes == 0 {
      BurstOpens(threshold, recovery);
    } else {
      BurstIsLawful(threshold, recovery, probes - 1);
      var front := Burst(threshold, recovery, probes - 1);
      BurstGrows(front, Failing(Recoveries(probes, recovery)), threshold, recovery);
    }
  }

  lemma BurstOpens(threshold: int, recovery: real)
    ensures var log := Burst(threshold, recovery, 0);
      Lawful(log, threshold, recovery) && Tripped(log, threshold) && OpenedAt(log, threshold) == 0.0
  {
    var log := Burst(threshold, recovery, 0);
    forall k | 0 <= k < |log| ensures AdmittedAt(log, k, threshold, recovery) {
      AllCounted(log[..k]);
    }
    AllCounted(log);
  }

  lemma BurstGrows(front: seq<Invocation>, last: Invocation, threshold: int, recovery: real)
    requires Lawful(front, threshold, recovery) && Tripped(front, threshold)
    requires Counts(last.outcome) && forall i :: 0 <= i < |front| ==> front[i].end + recovery <= last.start
    ensures var log := front + [last];
      Lawful(log, threshold, recovery) && Tripped(log, threshold) && OpenedAt(log, threshold) == OpenedAt(front, threshold)
  {
    hide Lawful;
    assert (front + [last])[..|front|] == front;
    LastFailureKnown(front);
    LawfulExtended(front, last, threshold, recovery);
  }

  /** The bound is exact: for every number of probes some run of failing calls meets it. */
  lemma BoundReached(threshold: int, recovery: real, probes: nat) returns (log: seq<Invocation>, now: real)
    requires recovery > 0.0
    ensures Sequential(log) && Lawful(log, threshold, recovery) && Tripped(log, threshold)
    ensures forall i :: 0 <= i < |log| ==> log[i].end <= now && Counts(log[i].outcome)
    ensures |log| == Max(threshold, 1) + ((now - OpenedAt(log, threshold)) / recovery).Floor
    ensures |log| == Max(threshold, 1) + probes
  {
    hide Sequential, Lawful, Tripped, OpenedAt, Recoveries;
    BurstIsLawful(threshold, recovery, probes);
    log, now := Burst(threshold, recovery, probes), Recoveries(probes, recovery);
    WholeRecoveries(probes, recovery);
  }

  // ---- The world the client runs in ----

  datatype Reply = Reply(duration: Span, outcome: Outcome)

  /** A clock and a remote function; `log` records the real invocations and `slept` the requested sleep. */
  class World {
    const reply: nat -> Reply
    var now: real
    var sent: nat
    ghost var log: seq<Invocation>
    ghost var slept: real

    constructor (reply: nat -> Reply, now: real)
      ensures this.reply == reply && this.now == now && log == [] && sent == 0 && slept == 0.0
    {
      this.reply, this.now, sent, log, slept := reply, now, 0, [], 0.0;
    }

    /** One call at a time: the log is sequential, lies in the past, and holds every reply so far. */
    ghost predicate Orderly()
      reads this
    {
      && Sequential(log)
      && |log| == sent
      && forall i :: 0 <= i < |log| ==> log[i].end <= now && log[i].outcome == reply(i).outcome
    }

    method Invoke() returns (outcome: Outcome)
      requires Orderly()
      modifies this
      ensures Orderly() && slept == old(slept)
      ensures log == old(log) + [Invocation(old(now), now, outcome)] && old(now) <= now
    {
      outcome := reply(sent).outcome;
      log := log + [Invocation(now, now + reply(sent).duration, outcome)];
      now := now + reply(sent).duration;
      sent := sent + 1;
    }

    method Sleep(delay: real)
      requires Orderly()
      modifies this
      ensures Orderly() && log == old(log)
      ensures slept == old(slept) + delay && now == old(now) + (if delay > 0.0 then delay else 0.0)
    {
      slept := slept + delay;
      if delay > 0.0 { now := now + delay; }
    }
  }

  datatype CircuitState = CLOSED | OPEN | HALF_OPEN

  class CircuitBreaker {
    const failureThreshold: int
    const recoveryTimeout: real
    var failureCount: int
    var lastFailureTime: Option<real>
    var state: CircuitState

    constructor (failureThreshold: int, recoveryTimeout: real)
      ensures this.failureThreshold == failureThreshold && this.recoveryTimeout == recoveryTimeout
      ensures Tracks([])
    {
      this.failureThreshold, this.recoveryTimeout := failureThreshold, recoveryTimeout;
      failureCount, lastFailureTime, state := 0, None, CLOSED;
    }

    /**
     The fields after the calls of `log` have completed, in that order, however they overlapped.
     The stored state is open exactly when the failures since the last success reach the
     threshold; it is never half-open.
     */
    ghost predicate Tracks(log: seq<Invocation>)
      reads this
    {
      && failureCount == Failures(log)
      && lastFailureTime == LastFailure(log)
      && state == if Tripped(log, failureThreshold) then OPEN else CLOSED
    }

    /** The state a caller sees at `now`. */
    function State(now: real): CircuitState
      reads this
    {
      if state == OPEN && lastFailureTime.Some? && now - lastFailureTime.value >= recoveryTimeout then HALF_OPEN
      else state
    }

    lemma StateMeaning(log: seq<Invocation>, now: real)
      requires Tracks(log)
      ensures State(now) == CLOSED <==> Failures(log) < Max(failureThreshold, 1)
      ensures State(now) == OPEN <==> !Admits(log, failureThreshold, recoveryTimeout, now)
    {
    }

    method OnSuccess(ghost log: seq<Invocation>, ghost call: Invocation)
      requires Tracks(log) && call.outcome.Success?
      modifies this
      ensures Tracks(log + [call])
    {
      failureCount := 0;
      state := CLOSED;
      lastFailureTime := None;
    }

    method OnFailure(now: real, ghost log: seq<Invocation>, ghost call: Invocation)
      requires Counts(call.outcome) && call.end == now
      modifies this
      ensures old(Tracks(log)) ==> Tracks(log + [call])
      ensures old(state) == HALF_OPEN ==> failureCount == failureThreshold && state == OPEN && lastFailureTime == Some(now)
    {
      assert (log + [call])[..|log|] == log;
      if state == HALF_OPEN {
        failureCount := failureThreshold;
        state := OPEN;
        lastFailureTime := Some(now);
      } else {
        failureCount := failureCount + 1;
        lastFailureTime := Some(now);
        if failureCount >= failureThreshold {
          state := OPEN;
        }
      }
    }

    /** The part of `call` before the wrapped function is awaited. */
    method Enter(now: real, ghost log: seq<Invocation>) returns (admitted: bool)
      requires Tracks(log)
      ensures admitted <==> Admits(log, failureThreshold, recoveryTimeout, now)
    {
      var currentState := State(now);
      admitted := currentState != OPEN;
    }

    /** The part after it: other calls may have entered and left in between. */
    method Leave(now: real, outcome: Outcome, ghost log: seq<Invocation>, ghost call: Invocation)
      requires Tracks(log) && call.end == now && call.outcome == outcome
      modifies this
      ensures Tracks(log + [call])
    {
      assert (log + [call])[..|log|] == log;
      if outcome.Success? {
        OnSuccess(log, call);
      } else if Counts(outcome) {
        OnFailure(now, log, call);
      }
    }

    method Call(world: World) returns (outcome: Outcome)
      requires Tracks(world.log) && world.Orderly()
      modifies this, world
      ensures Tracks(world.log) && world.Orderly() && world.slept == old(world.slept) && old(world.now) <= world.now
      ensures if Admits(old(world.log), failureThreshold, recoveryTimeout, old(world.now)) then
          world.log == old(world.log) + [Invocation(old(world.now), world.now, outcome)]
        else
          outcome == Raised(CircuitOpen) && world.log == old(world.log)
    {
      ghost var log, start := world.log, world.now;
      var admitted := Enter(world.now, log);
      if !admitted {
        return Raised(CircuitOpen);
      }
      outcome := world.Invoke();
      Leave(world.now, outcome, log, Invocation(start, world.now, outcome));
    }
  }

  // ---- Retries ----

  function Pow2(n: nat): nat {
    if n == 0 then 1 else 2 * Pow2(n - 1)
  }

  /** One attempt: turned away by the breaker, or a real invocation. */
  datatype Try = Rejected | Invoked(call: Invocation)
  {
    function Result(): Outcome {
      if Rejected? then Raised(CircuitOpen) else call.outcome
    }
  }

  /** The real invocations among some attempts. */
  function Calls(tries: seq<Try>): seq<Invocation> {
    if tries == [] then []
    else
      Calls(tries[..|tries| - 1])
      + (if tries[|tries| - 1].Invoked? then [tries[|tries| - 1].call] else [])
  }

  /** The breaker follows the log, and let every call in it through. */
  ghost predicate Guarded(cb: CircuitBreaker?, world: World)
    reads world
    reads if cb == null then {} else {cb}
  {
    world.Orderly() && (cb != null ==>
      cb.Tracks(world.log) && Lawful(world.log, cb.failureThreshold, cb.recoveryTimeout))
  }

  /** The innermost call: through the breaker when there is one. */
  method Attempt(cb: CircuitBreaker?, world: World) returns (outcome: Outcome, ghost attempt: Try)
    requires Guarded(cb, world)
    modifies world
    modifies if cb == null then {} else {cb}
    ensures Guarded(cb, world) && world.slept == old(world.slept) && old(world.now) <= world.now
    ensures outcome == attempt.Result() && world.log == old(world.log) + Calls([attempt])
    ensures attempt.Rejected? <==>
      cb != null && !Admits(old(world.log), cb.failureThreshold, cb.recoveryTimeout, old(world.now))
  {
    ghost var log, start := world.log, world.now;
    if cb != null {
      outcome := cb.Call(world);
      if Admits(log, cb.failureThreshold, cb.recoveryTimeout, start) {
        attempt := Invoked(Invocation(start, world.now, outcome));
        LawfulExtended(log, attempt.call, cb.failureThreshold, cb.recoveryTimeout);
      } else {
        attempt := Rejected;
      }
    } else {
      outcome := world.Invoke();
      attempt := Invoked(Invocation(start, world.now, outcome));
    }
  }

  method Wait(cb: CircuitBreaker?, world: World, delay: real)
    requires Guarded(cb, world)
    modifies world
    ensures Guarded(cb, world) && world.log == old(world.log) && world.slept == old(world.slept) + delay
    ensures old(world.now) <= world.now
  {
    world.Sleep(delay);
  }

  class RetryPolicy {
    const maxAttempts: int
    const baseDelay: real
    const retryOn: Failure -> bool

    constructor (maxAttempts: int, baseDelay: real, retryOn: Failure -> bool)
      ensures this.maxAttempts == maxAttempts && this.baseDelay == baseDelay && this.retryOn == retryOn
    {
      this.maxAttempts, this.baseDelay, this.retryOn := maxAttempts, baseDelay, retryOn;
    }

    /** A cancellation is not an ordinary exception, so no policy retries it. */
    predicate Retries(outcome: Outcome) {
      outcome.Raised? && !outcome.failure.Cancelled? && retryOn(outcome.failure)
    }

    /** What one execution does: retry until something final, or until the attempts run out. */
    ghost predicate Executed(tries: seq<Try>, outcome: Outcome) {
      if maxAttempts <= 0 then tries == [] && outcome == Raised(TypeError)
      else
        && 1 <= |tries| <= maxAttempts
        && outcome == tries[|tries| - 1].Result()
        && (forall i :: 0 <= i < |tries| - 1 ==> Retries(tries[i].Result()))
        && (Retries(outcome) ==> |tries| == maxAttempts)
    }

    /** The sleep between `n` attempts, in all. */
    function Backoff(n: nat): real {
      if n == 0 then 0.0 else baseDelay * (Pow2(n - 1) - 1) as real
    }

    function Delay(attempt: nat): real {
      baseDelay * Pow2(attempt) as real
    }

    method Execute(cb: CircuitBreaker?, world: World) returns (outcome: Outcome, ghost tries: seq<Try>)
      requires Guarded(cb, world)
      modifies world
      modifies if cb == null then {} else {cb}
      ensures Guarded(cb, world) && old(world.now) <= world.now
      ensures Executed(tries, outcome)
      ensures world.log == old(world.log) + Calls(tries)
      ensures world.slept == old(world.slept) + Backoff(|tries|)
    {
      hide Pow2, Backoff, Delay, Guarded, Calls;
      tries := [];
      NoCalls();
      NoBackoff(0);
      NoBackoff(1);
      var lastException: Option<Failure> := None;
      var attempt := 0;
      while attempt < maxAttempts
        invariant 0 <= attempt && (attempt <= maxAttempts || attempt == 0)
        invariant Guarded(cb, world) && old(world.now) <= world.now
        invariant |tries| == attempt
        invariant attempt == 0 ==> lastException.None?
        invariant attempt > 0 ==> lastException.Some? && tries[attempt - 1].Result() == Raised(lastException.value)
        invariant forall i :: 0 <= i < |tries| ==> Retries(tries[i].Result())
        invariant world.log == old(world.log) + Calls(tries)
        invariant world.slept == old(world.slept) + (if attempt < maxAttempts then Backoff(attempt + 1) else Backoff(attempt))
      {
        ghost var t;
        outcome, t := Attempt(cb, world);
        CallsExtend(tries, t);
        tries := tries + [t];
        if !Retries(outcome) {
          return;
        }
        lastException := Some(outcome.failure);
        BackoffGrows(attempt);
        if attempt < maxAttempts - 1 {
          Wait(cb, world, Delay(attempt));
        }
        attempt := attempt + 1;
      }
      outcome := Raised(lastException.GetOr(TypeError));
    }

    lemma NoBackoff(n: nat)
      requires n <= 1
      ensures Backoff(n) == 0.0
    {
      if n == 1 {
        var none := (Pow2(n - 1) - 1) as real;
        assert none == 0.0;
        assert baseDelay * none == 0.0;
      }
    }

    lemma BackoffGrows(n: nat)
      ensures Backoff(n + 2) == Backoff(n + 1) + Delay(n)
    {
    }
  }

  lemma NoCalls()
    ensures Calls([]) == []
  {
  }

  lemma CallsExtend(tries: seq<Try>, t: Try)
    ensures Calls(tries + [t]) == Calls(tries) + Calls([t])
  {
  }

  /** The wrapped client method: retries outside, breaker inside. */
  method ResilientImpl(cb: CircuitBreaker?, retry: RetryPolicy?, world: World) returns (outcome: Outcome, ghost tries: seq<Try>)
    requires Guarded(cb, world)
    modifies world
    modifies if cb == null then {} else {cb}
    ensures Guarded(cb, world) && old(world.now) <= world.now
    ensures if retry != null then retry.Executed(tries, outcome) else |tries| == 1 && outcome == tries[0].Result()
    ensures world.log == old(world.log) + Calls(tries)
    ensures world.slept == old(world.slept) + if retry != null then retry.Backoff(|tries|) else 0.0
  {
    if retry != null {
      outcome, tries := retry.Execute(cb, world);
    } else {
      ghost var t;
      outcome, t := Attempt(cb, world);
      tries := [t];
    }
  }

  /** However many calls a client issues, after whatever pauses, and however often each is retried,
      a service that keeps failing sees a bounded number of real invocations. */
  method ClientRun(cb: CircuitBreaker, retry: RetryPolicy?, world: World, pauses: seq<Span>)
    requires Guarded(cb, world) && cb.recoveryTimeout > 0.0
    modifies world, cb
    ensures Guarded(cb, world)
    ensures Tripped(world.log, cb.failureThreshold) ==>
      Failures(world.log) <= Max(cb.failureThreshold, 1)
        + ((world.now - OpenedAt(world.log, cb.failureThreshold)) / cb.recoveryTimeout).Floor
    ensures (forall n :: Counts(world.reply(n).outcome)) ==> world.sent == Failures(world.log)
  {
    for i := 0 to |pauses|
      invariant Guarded(cb, world)
    {
      world.Sleep(pauses[i]);
      var _, _ := ResilientImpl(cb, retry, world);
    }
    if forall n :: Counts(world.reply(n).outcome) {
      AllCounted(world.log);
    }
    FailuresBounded(world.log, cb.failureThreshold, cb.recoveryTimeout, world.now);
  }
}
