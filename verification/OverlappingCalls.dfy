/** Calls through one breaker that overlap: any number may be awaiting the wrapped function at once. */
module OverlappingCalls {
  import opened Wrappers
  import opened Resilience

  /** A call awaiting its function, let through when `seen` calls had completed. */
  datatype Flight = Flight(start: real, seen: nat, probe: bool)

  datatype Action =
    | Arrive(at: real)
    | Complete(which: nat, at: real, outcome: Outcome)

  /** The completed calls in the order they completed, how many of them each had seen, and the calls in flight. */
  datatype Run = Run(log: seq<Invocation>, seen: seq<nat>, flying: seq<Flight>)

  /** A call that finds the circuit open but recovered is a probe. */
  predicate HalfOpen(log: seq<Invocation>, threshold: int, recovery: real, now: real) {
    Tripped(log, threshold) && Admits(log, threshold, recovery, now)
  }

  /** A call is let through by the calls completed before it arrives, whatever is in flight. */
  function Next(r: Run, action: Action, threshold: int, recovery: real): Run {
    match action
    case Arrive(at) =>
      if Admits(r.log, threshold, recovery, at) then
        r.(flying := r.flying + [Flight(at, |r.log|, HalfOpen(r.log, threshold, recovery, at))])
      else r
    case Complete(which, at, outcome) =>
      if which < |r.flying| then
        var f := r.flying[which];
        Run(r.log + [Invocation(f.start, at, outcome)], r.seen + [f.seen], r.flying[..which] + r.flying[which + 1..])
      else r
  }

  const START := Run([], [], [])

  function After(r: Run, actions: seq<Action>, threshold: int, recovery: real): Run
    decreases |actions|
  {
    if actions == [] then r
    else Next(After(r, actions[..|actions| - 1], threshold, recovery), actions[|actions| - 1], threshold, recovery)
  }

  ghost predicate InOrder(actions: seq<Action>) {
    forall i, j :: 0 <= i <= j < |actions| ==> actions[i].at <= actions[j].at
  }

  // ---- The single-probe promise ----

  /** Once recovered, calls that arrive before one completes are all let through, however many. */
  lemma {:induction false} EveryArrivalAdmitted(r: Run, arrivals: seq<Action>, threshold: int, recovery: real, now: real)
    requires HalfOpen(r.log, threshold, recovery, now)
    requires forall i :: 0 <= i < |arrivals| ==> arrivals[i].Arrive? && arrivals[i].at >= now
    ensures var s := After(r, arrivals, threshold, recovery);
      s.log == r.log && |s.flying| == |r.flying| + |arrivals| && Probes(s.flying) == Probes(r.flying) + |arrivals|
    decreases |arrivals|
  {
    hide Tripped, LastFailure;
    if arrivals != [] {
      var front, last := arrivals[..|arrivals| - 1], arrivals[|arrivals| - 1];
      EveryArrivalAdmitted(r, front, threshold, recovery, now);
      var s := After(r, front, threshold, recovery);
      ProbesConcat(s.flying, [Flight(last.at, |s.log|, true)]);
      ProbesOne(Flight(last.at, |s.log|, true));
    }
  }

  function Probes(flying: seq<Flight>): nat {
    if flying == [] then 0 else Probes(flying[..|flying| - 1]) + (if flying[|flying| - 1].probe then 1 else 0)
  }

  lemma {:induction false} ProbesConcat(a: seq<Flight>, b: seq<Flight>)
    ensures Probes(a + b) == Probes(a) + Probes(b)
  {
    if b == [] {
      assert a + b == a;
    } else {
      assert (a + b)[..|a + b| - 1] == a + b[..|b| - 1];
      ProbesConcat(a, b[..|b| - 1]);
    }
  }

  lemma ProbesOne(f: Flight)
    ensures Probes([f]) == if f.probe then 1 else 0
  {
    assert [f][..0] == [];
  }

  /** No more than one probe is in flight, at any moment of the run. */
  ghost predicate SingleProbe(actions: seq<Action>, threshold: int, recovery: real) {
    forall n :: 0 <= n <= |actions| ==> Probes(After(START, actions[..n], threshold, recovery).flying) <= 1
  }

  lemma {:induction false} AfterConcat(r: Run, a: seq<Action>, b: seq<Action>, threshold: int, recovery: real)
    ensures After(r, a + b, threshold, recovery) == After(After(r, a, threshold, recovery), b, threshold, recovery)
    decreases |b|
  {
    hide Next;
    if b == [] {
      assert a + b == a;
    } else {
      assert (a + b)[..|a + b| - 1] == a + b[..|b| - 1];
      AfterConcat(r, a, b[..|b| - 1], threshold, recovery);
    }
  }

  const FAILED := Raised(Ordinary(0))

  /** `m` calls that are in flight together and all fail, at one moment. */
  function Volley(at: real, m: nat): seq<Action> {
    seq(m, _ => Arrive(at)) + seq(m, _ => Complete(0, at, FAILED))
  }

  ghost predicate AllFailed(log: seq<Invocation>) {
    forall i :: 0 <= i < |log| ==> log[i].outcome == FAILED
  }

  lemma {:induction false} FailuresOnly(log: seq<Invocation>, threshold: int)
    requires AllFailed(log)
    ensures Failures(log) == |log|
    ensures log != [] ==> LastFailure(log) == Some(log[|log| - 1].end)
    ensures Tripped(log, threshold) ==> OpenedAt(log, threshold) == log[Max(threshold, 1) - 1].end
  {
    if log != [] {
      FailuresOnly(log[..|log| - 1], threshold);
    }
  }

  lemma {:induction false} AllArrive(r: Run, at: real, m: nat, threshold: int, recovery: real)
    requires Admits(r.log, threshold, recovery, at)
    ensures var s := After(r, seq(m, _ => Arrive(at)), threshold, recovery);
      s.log == r.log && |s.flying| == |r.flying| + m
  {
    hide Admits, HalfOpen;
    var arrivals := seq(m, _ => Arrive(at));
    if m > 0 {
      AllArrive(r, at, m - 1, threshold, recovery);
      assert arrivals[..m - 1] == seq(m - 1, _ => Arrive(at));
    }
  }

  lemma {:induction false} AllComplete(r: Run, at: real, m: nat, threshold: int, recovery: real)
    requires m <= |r.flying|
    ensures var s := After(r, seq(m, _ => Complete(0, at, FAILED)), threshold, recovery);
      && |s.flying| == |r.flying| - m && |s.log| == |r.log| + m && s.log[..|r.log|] == r.log
      && forall i :: |r.log| <= i < |s.log| ==> s.log[i].end == at && s.log[i].outcome == FAILED
  {
    hide Admits, HalfOpen;
    var completions := seq(m, _ => Complete(0, at, FAILED));
    if m > 0 {
      AllComplete(r, at, m - 1, threshold, recovery);
      assert completions[..m - 1] == seq(m - 1, _ => Complete(0, at, FAILED));
    } else {
      assert r.log[..|r.log|] == r.log;
    }
  }

  lemma VolleyFails(r: Run, at: real, m: nat, threshold: int, recovery: real)
    requires r.flying == [] && AllFailed(r.log) && Admits(r.log, threshold, recovery, at)
    ensures var s := After(r, Volley(at, m), threshold, recovery);
      && s.flying == [] && AllFailed(s.log) && |s.log| == |r.log| + m && s.log[..|r.log|] == r.log
      && forall i :: |r.log| <= i < |s.log| ==> s.log[i].end == at
    ensures forall j :: 0 <= j <= |Volley(at, m)| ==> |After(r, Volley(at, m)[..j], threshold, recovery).flying| <= m
  {
    hide Admits, After;
    var arrivals, completions := seq(m, _ => Arrive(at)), seq(m, _ => Complete(0, at, FAILED));
    AfterConcat(r, arrivals, completions, threshold, recovery);
    AllArrive(r, at, m, threshold, recovery);
    var up := After(r, arrivals, threshold, recovery);
    AllComplete(up, at, m, threshold, recovery);
    forall j | 0 <= j <= |Volley(at, m)| ensures |After(r, Volley(at, m)[..j], threshold, recovery).flying| <= m {
      if j <= m {
        assert Volley(at, m)[..j] == seq(j, _ => Arrive(at));
        AllArrive(r, at, j, threshold, recovery);
      } else {
        assert Volley(at, m)[..j] == arrivals + seq(j - m, _ => Complete(0, at, FAILED));
        AfterConcat(r, arrivals, seq(j - m, _ => Complete(0, at, FAILED)), threshold, recovery);
        AllComplete(up, at, j - m, threshold, recovery);
      }
    }
  }

  lemma VolleyAt(at: real, m: nat)
    ensures forall i :: 0 <= i < |Volley(at, m)| ==> Volley(at, m)[i].at == at
  {
  }

  /** The description promises a single probe; some run has any number of them in flight. */
  lemma ManyProbes(recovery: real, n: nat) returns (actions: seq<Action>)
    requires recovery >= 0.0
    ensures InOrder(actions) && Probes(After(START, actions, 1, recovery).flying) == n
    ensures n > 1 ==> !SingleProbe(actions, 1, recovery)
  {
    hide Next, Probes, Volley, Failures, LastFailure;
    var opening, arrivals := Volley(0.0, 1), seq(n, _ => Arrive(recovery));
    actions := opening + arrivals;
    FailuresOnly(START.log, 1);
    VolleyFails(START, 0.0, 1, 1, recovery);
    VolleyAt(0.0, 1);
    var tripped := After(START, opening, 1, recovery);
    FailuresOnly(tripped.log, 1);
    NoProbes();
    AfterConcat(START, opening, arrivals, 1, recovery);
    EveryArrivalAdmitted(tripped, arrivals, 1, recovery, recovery);
    assert actions[..|actions|] == actions;
  }

  /** The callers wait: nobody calls a half-open breaker while a probe is in flight. */
  predicate CallersWait(actions: seq<Action>, threshold: int, recovery: real)
    decreases |actions|
  {
    actions == [] ||
      var r := After(START, actions[..|actions| - 1], threshold, recovery);
      var last := actions[|actions| - 1];
      && CallersWait(actions[..|actions| - 1], threshold, recovery)
      && (last.Arrive? && HalfOpen(r.log, threshold, recovery, last.at) ==> Probes(r.flying) == 0)
  }

  lemma ProbesNext(r: Run, action: Action, threshold: int, recovery: real)
    ensures var probes := Probes(Next(r, action, threshold, recovery).flying);
      if action.Arrive? && HalfOpen(r.log, threshold, recovery, action.at) then probes == Probes(r.flying) + 1
      else probes <= Probes(r.flying)
  {
    hide Probes, Tripped, LastFailure;
    match action
    case Arrive(at) =>
      var f := Flight(at, |r.log|, HalfOpen(r.log, threshold, recovery, at));
      ProbesConcat(r.flying, [f]);
      ProbesOne(f);
    case Complete(which, _, _) =>
      if which < |r.flying| {
        var a, f, b := r.flying[..which], r.flying[which], r.flying[which + 1..];
        assert r.flying == a + ([f] + b);
        ProbesConcat(a, [f] + b);
        ProbesConcat([f], b);
        ProbesConcat(a, b);
      }
  }

  /** The breaker keeps the single-probe promise of its description exactly when its callers keep it for it. */
  lemma {:induction false} SingleProbeIffCallersWait(actions: seq<Action>, threshold: int, recovery: real)
    ensures SingleProbe(actions, threshold, recovery) <==> CallersWait(actions, threshold, recovery)
    decreases |actions|
  {
    hide Next, HalfOpen, Probes;
    if actions == [] {
      assert actions[..0] == [];
      NoProbes();
    } else {
      var front, last := actions[..|actions| - 1], actions[|actions| - 1];
      SingleProbeIffCallersWait(front, threshold, recovery);
      assert front[..|front|] == front;
      ProbesNext(After(START, front, threshold, recovery), last, threshold, recovery);
      SingleProbeStep(actions, threshold, recovery);
    }
  }

  lemma NoProbes()
    ensures Probes([]) == 0
  {
  }

  lemma SingleProbeStep(actions: seq<Action>, threshold: int, recovery: real)
    requires actions != []
    ensures SingleProbe(actions, threshold, recovery) <==>
      SingleProbe(actions[..|actions| - 1], threshold, recovery) && Probes(After(START, actions, threshold, recovery).flying) <= 1
  {
    hide After, Probes;
    var front := actions[..|actions| - 1];
    assert forall n :: 0 <= n <= |front| ==> front[..n] == actions[..n];
    assert actions[..|actions|] == actions;
  }

  // ---- How much work overlapping calls can do ----

  /** How many of `xs` are at most `q`. */
  function AtMost(xs: seq<nat>, q: nat): nat {
    if xs == [] then 0 else AtMost(xs[..|xs| - 1], q) + (if xs[|xs| - 1] <= q then 1 else 0)
  }

  lemma {:induction false} AtMostConcat(a: seq<nat>, b: seq<nat>, q: nat)
    ensures AtMost(a + b, q) == AtMost(a, q) + AtMost(b, q)
  {
    if b == [] {
      assert a + b == a;
    } else {
      assert (a + b)[..|a + b| - 1] == a + b[..|b| - 1];
      AtMostConcat(a, b[..|b| - 1], q);
    }
  }

  lemma AtMostOne(x: nat, q: nat)
    ensures AtMost([x], q) == if x <= q then 1 else 0
  {
    assert [x][..0] == [];
  }

  /** Calls complete in order of time, each admitted by the calls it had seen complete. */
  ghost predicate Overlapping(log: seq<Invocation>, seen: seq<nat>, threshold: int, recovery: real) {
    && |seen| == |log|
    && (forall k :: 0 <= k < |log| ==> seen[k] <= k && log[k].start <= log[k].end)
    && (forall i, j :: 0 <= i <= j < |log| ==> log[i].end <= log[j].end)
    && (forall k :: 0 <= k < |log| ==> Admits(log[..seen[k]], threshold, recovery, log[k].start))
  }

  /** When the q-th call completes, at most `c` calls are in flight, itself included. */
  ghost predicate Capped(seen: seq<nat>, c: nat) {
    forall q :: 0 <= q <= |seen| ==> AtMost(seen[q..], q) <= c
  }

  /** The index of the n-th failure since the last success. */
  function Nth(log: seq<Invocation>, n: nat): (p: nat)
    requires 1 <= n <= Failures(log)
    ensures p < |log| && Counts(log[p].outcome) && Failures(log[..p + 1]) == n
    ensures forall k :: p <= k < |log| ==> !log[k].outcome.Success?
  {
    var front := log[..|log| - 1];
    if Failures(log) == n && Counts(log[|log| - 1].outcome) then
      assert log[..|log|] == log;
      |log| - 1
    else
      var p := Nth(front, n);
      assert front[..p + 1] == log[..p + 1];
      p
  }

  lemma {:induction false} OpenedAtNth(log: seq<Invocation>, threshold: int)
    requires Tripped(log, threshold)
    ensures OpenedAt(log, threshold) == log[Nth(log, Max(threshold, 1))].end
    decreases |log|
  {
    if !(Failures(log) == Max(threshold, 1) && Counts(log[|log| - 1].outcome)) {
      OpenedAtNth(log[..|log| - 1], threshold);
    }
  }

  /** Without a success in between failures only accumulate. */
  lemma {:induction false} FailuresAccumulate(log: seq<Invocation>, i: nat, j: nat)
    requires i <= j <= |log| && forall k :: i <= k < j ==> !log[k].outcome.Success?
    ensures Failures(log[..i]) <= Failures(log[..j])
    decreases j
  {
    if i < j {
      FailuresAccumulate(log, i, j - 1);
      assert log[..j][..j - 1] == log[..j - 1];
    }
  }

  /** After a failure the last failure is no earlier. */
  lemma {:induction false} LastFailureAfter(log: seq<Invocation>, q: nat, j: nat)
    requires q < j <= |log| && Counts(log[q].outcome)
    requires forall k :: q <= k < j ==> !log[k].outcome.Success?
    requires forall k :: q <= k < j ==> log[q].end <= log[k].end
    ensures LastFailure(log[..j]).Some? && LastFailure(log[..j]).value >= log[q].end
    decreases j
  {
    assert log[..j][..j - 1] == log[..j - 1];
    if !Counts(log[j - 1].outcome) {
      LastFailureAfter(log, q, j - 1);
    }
  }

  /** Failures of calls that were in flight when the q-th call completed are no more than those calls. */
  lemma {:induction false} CarriedOver(log: seq<Invocation>, seen: seq<nat>, q: nat, j: nat)
    requires |seen| == |log| && q <= j <= |log|
    requires forall k :: q <= k < j && Counts(log[k].outcome) ==> seen[k] <= q
    ensures Failures(log[..j]) <= Failures(log[..q]) + AtMost(seen[q..j], q)
    decreases j
  {
    hide AtMost;
    if q < j {
      CarriedOver(log, seen, q, j - 1);
      assert log[..j][..j - 1] == log[..j - 1];
      assert seen[q..j] == seen[q..j - 1] + [seen[j - 1]];
      AtMostConcat(seen[q..j - 1], [seen[j - 1]], q);
      AtMostOne(seen[j - 1], q);
    }
  }

  lemma FailureHere(log: seq<Invocation>, q: nat)
    requires q < |log| && Counts(log[q].outcome)
    ensures Failures(log[..q + 1]) == Failures(log[..q]) + 1
  {
    assert log[..q + 1][..q] == log[..q];
  }

  lemma NthIncreasing(log: seq<Invocation>, m: nat, n: nat)
    requires 1 <= m < n <= Failures(log)
    ensures Nth(log, m) < Nth(log, n)
  {
    hide Failures, Nth;
    if Nth(log, n) <= Nth(log, m) {
      FailuresAccumulate(log, Nth(log, n) + 1, Nth(log, m) + 1);
    }
  }

  /** Among any c + 1 successive failures since the last success one started after the first had completed. */
  lemma Newcomer(log: seq<Invocation>, seen: seq<nat>, c: nat, n: nat) returns (k: nat)
    requires |seen| == |log| && Capped(seen, c) && c > 0 && 1 <= n && n + c <= Failures(log)
    requires forall k :: 0 <= k < |log| ==> seen[k] <= k
    ensures Nth(log, n) < k <= Nth(log, n + c) && seen[k] > Nth(log, n)
  {
    hide Failures, AtMost, Nth;
    var q, p := Nth(log, n), Nth(log, n + c);
    NthIncreasing(log, n, n + c);
    FailureHere(log, q);
    AtMostConcat(seen[q..p + 1], seen[p + 1..], q);
    assert seen[q..p + 1] + seen[p + 1..] == seen[q..];
    if forall k :: q <= k < p + 1 && Counts(log[k].outcome) ==> seen[k] <= q {
      CarriedOver(log, seen, q, p + 1);
      assert false;
    }
    k :| q <= k < p + 1 && Counts(log[k].outcome) && seen[k] > q;
  }

  /** So while the circuit is open the failures come at most `c` to a recovery timeout. */
  lemma FailuresSpaced(log: seq<Invocation>, seen: seq<nat>, c: nat, threshold: int, recovery: real, n: nat)
    requires Overlapping(log, seen, threshold, recovery) && Capped(seen, c) && c > 0
    requires Max(threshold, 1) <= n && n + c <= Failures(log)
    ensures log[Nth(log, n + c)].end >= log[Nth(log, n)].end + recovery
  {
    hide Failures, LastFailure, Nth, Capped;
    var q := Nth(log, n);
    var k := Newcomer(log, seen, c, n);
    FailuresAccumulate(log, q + 1, seen[k]);
    LastFailureAfter(log, q, seen[k]);
    assert Admits(log[..seen[k]], threshold, recovery, log[k].start);
  }

  lemma Scaled(x: int, y: int, c: nat)
    requires x <= y
    ensures c * x <= c * y
  {
  }

  lemma QuotientIs(x: nat, c: nat, q: int)
    requires c > 0 && c * q <= x < c * q + c
    ensures x / c == q
  {
    var d := x / c;
    assert x == c * d + x % c;
    if d < q {
      Scaled(d + 1, q, c);
    } else if d > q {
      Scaled(q + 1, d, c);
    }
  }

  lemma OneMoreWindow(n: nat, c: nat)
    requires c > 0
    ensures (n + c) / c == n / c + 1
    ensures n < c ==> n / c == 0
  {
    var q := n / c;
    assert n == c * q + n % c;
    QuotientIs(n + c, c, q + 1);
  }

  lemma {:induction false} FailuresInWindows(log: seq<Invocation>, seen: seq<nat>, c: nat, threshold: int, recovery: real, n: nat)
    requires Overlapping(log, seen, threshold, recovery) && Capped(seen, c) && c > 0
    requires Max(threshold, 1) + n <= Failures(log)
    ensures log[Nth(log, Max(threshold, 1) + n)].end >= log[Nth(log, Max(threshold, 1))].end + Recoveries(n / c, recovery)
    decreases n
  {
    hide Failures, Nth, Recoveries, Capped, Overlapping;
    if n < c {
      OneMoreWindow(n, c);
      OneMoreRecovery(0, recovery);
      NthOrdered(log, seen, threshold, recovery, Max(threshold, 1), Max(threshold, 1) + n);
    } else {
      FailuresInWindows(log, seen, c, threshold, recovery, n - c);
      FailuresSpaced(log, seen, c, threshold, recovery, Max(threshold, 1) + n - c);
      OneMoreWindow(n - c, c);
      OneMoreRecovery((n - c) / c, recovery);
    }
  }

  lemma NthOrdered(log: seq<Invocation>, seen: seq<nat>, threshold: int, recovery: real, m: nat, n: nat)
    requires Overlapping(log, seen, threshold, recovery) && 1 <= m <= n <= Failures(log)
    ensures log[Nth(log, m)].end <= log[Nth(log, n)].end
  {
    hide Failures, Nth;
    if m < n { NthIncreasing(log, m, n); }
  }

  lemma WindowsFilled(n: nat, c: nat, f: int)
    requires c > 0 && n / c <= f
    ensures n <= c - 1 + c * f
  {
    assert n == c * (n / c) + n % c;
    Scaled(n / c, f, c);
  }

  /** With at most `c` calls in flight the failures since the last success are at most the threshold, the c - 1
      calls in flight when the circuit opened, and `c` for every recovery timeout since. */
  lemma OverlappingFailuresBounded(log: seq<Invocation>, seen: seq<nat>, c: nat, threshold: int, recovery: real, now: real)
    requires Overlapping(log, seen, threshold, recovery) && Capped(seen, c) && c > 0 && recovery > 0.0
    requires Tripped(log, threshold) && forall i :: 0 <= i < |log| ==> log[i].end <= now
    ensures Failures(log) <=
      Max(threshold, 1) + (c - 1) + c * ((now - OpenedAt(log, threshold)) / recovery).Floor
  {
    hide Failures, Nth, Recoveries, OpenedAt, Overlapping, Capped;
    var n := Failures(log) - Max(threshold, 1);
    FailuresInWindows(log, seen, c, threshold, recovery, n);
    OpenedAtNth(log, threshold);
    AtMostFloor(n / c, recovery, now - OpenedAt(log, threshold));
    WindowsFilled(n, c, ((now - OpenedAt(log, threshold)) / recovery).Floor);
  }

  // ---- Every run of the breaker is such a log ----

  /** At no moment are more than `c` calls in flight. */
  ghost predicate Crowd(actions: seq<Action>, threshold: int, recovery: real, c: nat) {
    forall n :: 0 <= n <= |actions| ==> |After(START, actions[..n], threshold, recovery).flying| <= c
  }

  function SeenBy(flying: seq<Flight>): seq<nat> {
    seq(|flying|, i requires 0 <= i < |flying| => flying[i].seen)
  }

  ghost predicate Sound(r: Run, threshold: int, recovery: real, c: nat, now: real) {
    && Overlapping(r.log, r.seen, threshold, recovery)
    && (forall k :: 0 <= k < |r.log| ==> r.log[k].end <= now)
    && Airborne(r, threshold, recovery, now)
    && Fits(r, c)
  }

  /** The calls in flight were admitted by the calls they had seen. */
  ghost predicate Airborne(r: Run, threshold: int, recovery: real, now: real) {
    forall f :: f in r.flying ==>
      f.seen <= |r.log| && f.start <= now && Admits(r.log[..f.seen], threshold, recovery, f.start)
  }

  ghost predicate Fits(r: Run, c: nat) {
    |r.seen| == |r.log| &&
    forall q :: 0 <= q <= |r.log| ==> AtMost(r.seen[q..], q) + AtMost(SeenBy(r.flying), q) <= c
  }

  lemma ArrivalSound(r: Run, at: real, threshold: int, recovery: real, c: nat, now: real)
    requires Sound(r, threshold, recovery, c, now) && now <= at
    requires |Next(r, Arrive(at), threshold, recovery).flying| <= c
    ensures Sound(Next(r, Arrive(at), threshold, recovery), threshold, recovery, c, at)
  {
    hide Overlapping, Admits, HalfOpen, AtMost;
    assert r.log[..|r.log|] == r.log;
    var s := Next(r, Arrive(at), threshold, recovery);
    if s != r {
      ArrivalFits(r, s.flying[|r.flying|], c);
      assert s.flying == r.flying + [s.flying[|r.flying|]];
    }
  }

  lemma ArrivalFits(r: Run, f: Flight, c: nat)
    requires Fits(r, c) && f.seen == |r.log| && |r.flying| < c
    ensures Fits(r.(flying := r.flying + [f]), c)
  {
    hide AtMost;
    forall q | 0 <= q <= |r.log|
      ensures AtMost(r.seen[q..], q) + AtMost(SeenBy(r.flying + [f]), q) <= c
    {
      assert SeenBy(r.flying + [f]) == SeenBy(r.flying) + [f.seen];
      AtMostConcat(SeenBy(r.flying), [f.seen], q);
      AtMostOne(f.seen, q);
      AtMostBounded(SeenBy(r.flying), q);
      AtMostNothing(q);
      assert q == |r.log| ==> r.seen[q..] == [];
    }
  }

  lemma {:induction false} AtMostBounded(xs: seq<nat>, q: nat)
    ensures AtMost(xs, q) <= |xs|
  {
    if xs != [] { AtMostBounded(xs[..|xs| - 1], q); }
  }

  lemma AtMostNothing(q: nat)
    ensures AtMost([], q) == 0
  {
  }

  lemma CompletionSound(r: Run, which: nat, at: real, outcome: Outcome, threshold: int, recovery: real, c: nat, now: real)
    requires Sound(r, threshold, recovery, c, now) && now <= at
    requires |Next(r, Complete(which, at, outcome), threshold, recovery).flying| <= c
    ensures Sound(Next(r, Complete(which, at, outcome), threshold, recovery), threshold, recovery, c, at)
  {
    hide Admits, Fits;
    if which < |r.flying| {
      var f := r.flying[which];
      var s := Next(r, Complete(which, at, outcome), threshold, recovery);
      CompletionFits(r, which, s.log[|r.log|], c);
      forall k | 0 <= k <= |r.log| ensures s.log[..k] == r.log[..k] {}
      assert f in r.flying;
      forall g | g in s.flying ensures g in r.flying {}
    }
  }

  lemma CompletionFits(r: Run, which: nat, call: Invocation, c: nat)
    requires Fits(r, c) && which < |r.flying| && |r.flying| - 1 <= c
    ensures Fits(Run(r.log + [call], r.seen + [r.flying[which].seen], r.flying[..which] + r.flying[which + 1..]), c)
  {
    hide AtMost;
    var a, f, b := r.flying[..which], r.flying[which], r.flying[which + 1..];
    var seen := r.seen + [f.seen];
    assert r.flying == a + [f] + b;
    assert SeenBy(r.flying) == SeenBy(a) + [f.seen] + SeenBy(b) && SeenBy(a + b) == SeenBy(a) + SeenBy(b);
    forall q | 0 <= q <= |seen| ensures AtMost(seen[q..], q) + AtMost(SeenBy(a + b), q) <= c {
      AtMostConcat(SeenBy(a), SeenBy(b), q);
      if q < |seen| {
        AtMostConcat(SeenBy(a) + [f.seen], SeenBy(b), q);
        AtMostConcat(SeenBy(a), [f.seen], q);
        AtMostConcat(r.seen[q..], [f.seen], q);
        assert seen[q..] == r.seen[q..] + [f.seen];
      } else {
        AtMostBounded(SeenBy(a + b), q);
        AtMostNothing(q);
        assert seen[q..] == [];
      }
    }
  }

  lemma StartSound(threshold: int, recovery: real, c: nat, now: real)
    ensures Sound(START, threshold, recovery, c, now)
  {
  }

  lemma {:induction false} RunSound(actions: seq<Action>, threshold: int, recovery: real, c: nat, now: real)
    requires InOrder(actions) && Crowd(actions, threshold, recovery, c)
    requires actions != [] ==> actions[|actions| - 1].at == now
    ensures Sound(After(START, actions, threshold, recovery), threshold, recovery, c, now)
    decreases |actions|
  {
    hide Sound, Next;
    if actions == [] {
      StartSound(threshold, recovery, c, now);
    } else {
      var front, last := actions[..|actions| - 1], actions[|actions| - 1];
      assert forall n :: 0 <= n <= |front| ==> front[..n] == actions[..n];
      assert actions[..|actions|] == actions;
      var before := if front == [] then now else front[|front| - 1].at;
      RunSound(front, threshold, recovery, c, before);
      match last
      case Arrive(at) => ArrivalSound(After(START, front, threshold, recovery), at, threshold, recovery, c, before);
      case Complete(which, at, outcome) =>
        CompletionSound(After(START, front, threshold, recovery), which, at, outcome, threshold, recovery, c, before);
    }
  }

  /** However calls overlap, a service that is never reached by more than `c` at once fails only so often before it is left alone. */
  lemma RunBounded(actions: seq<Action>, threshold: int, recovery: real, c: nat, now: real)
    requires InOrder(actions) && Crowd(actions, threshold, recovery, c) && c > 0 && recovery > 0.0
    requires actions != [] && actions[|actions| - 1].at == now
    ensures var log := After(START, actions, threshold, recovery).log;
      Tripped(log, threshold) ==>
        Failures(log) <= Max(threshold, 1) + (c - 1) + c * ((now - OpenedAt(log, threshold)) / recovery).Floor
  {
    hide Failures, OpenedAt, Overlapping, After;
    var r := After(START, actions, threshold, recovery);
    RunSound(actions, threshold, recovery, c, now);
    SoundIsCapped(r, c);
    if Tripped(r.log, threshold) {
      OverlappingFailuresBounded(r.log, r.seen, c, threshold, recovery, now);
    }
  }

  lemma SoundIsCapped(r: Run, c: nat)
    requires Fits(r, c)
    ensures Capped(r.seen, c)
  {
    hide AtMost;
  }

  // ---- The bound is reached ----

  /** Single failures up to the threshold, and then volleys of `c`, a recovery timeout apart. */
  function Barrage(threshold: int, recovery: real, c: nat, n: nat): seq<Action> {
    if n == 0 then [] else Barrage(threshold, recovery, c, n - 1) + Volley(When(threshold, recovery, n - 1), Size(threshold, c, n - 1))
  }

  function Size(threshold: int, c: nat, i: nat): nat {
    if i < Max(threshold, 1) - 1 then 1 else c
  }

  function When(threshold: int, recovery: real, i: nat): real {
    if i < Max(threshold, 1) then 0.0 else Recoveries(i - Max(threshold, 1) + 1, recovery)
  }

  function Shots(threshold: int, c: nat, n: nat): nat {
    if n < Max(threshold, 1) then n else Max(threshold, 1) - 1 + c * (n - Max(threshold, 1) + 1)
  }

  lemma CrowdConcat(a: seq<Action>, b: seq<Action>, threshold: int, recovery: real, c: nat)
    requires Crowd(a, threshold, recovery, c)
    requires forall j :: 0 <= j <= |b| ==> |After(After(START, a, threshold, recovery), b[..j], threshold, recovery).flying| <= c
    ensures Crowd(a + b, threshold, recovery, c)
  {
    hide After;
    forall n | 0 <= n <= |a + b| ensures |After(START, (a + b)[..n], threshold, recovery).flying| <= c {
      if n <= |a| {
        assert (a + b)[..n] == a[..n];
      } else {
        assert (a + b)[..n] == a + b[..n - |a|];
        AfterConcat(START, a, b[..n - |a|], threshold, recovery);
      }
    }
  }

  lemma WhenNext(threshold: int, recovery: real, i: nat)
    requires recovery > 0.0
    ensures When(threshold, recovery, i) <= When(threshold, recovery, i + 1)
    ensures i + 1 >= Max(threshold, 1) ==> When(threshold, recovery, i + 1) == When(threshold, recovery, i) + recovery
  {
    hide Recoveries;
    OneMoreRecovery(0, recovery);
    if i >= Max(threshold, 1) { OneMoreRecovery(i - Max(threshold, 1) + 1, recovery); }
  }

  lemma ShotsNext(threshold: int, c: nat, n: nat)
    ensures Shots(threshold, c, n + 1) == Shots(threshold, c, n) + Size(threshold, c, n)
    ensures n < Max(threshold, 1) ==> Shots(threshold, c, n) == n
    ensures n > 0 && c > 0 ==> Shots(threshold, c, n) > 0
    ensures n >= Max(threshold, 1) && c > 0 ==> Shots(threshold, c, n) >= Max(threshold, 1)
  {
    var t := Max(threshold, 1);
    if n >= t {
      assert c * (n - t + 2) == c * (n - t + 1) + c;
      Scaled(1, n - t + 1, c);
    }
  }

  /** Where a barrage of `n` volleys leaves the run. */
  ghost predicate Barraged(r: Run, threshold: int, recovery: real, c: nat, n: nat) {
    && r.flying == [] && AllFailed(r.log) && |r.log| == Shots(threshold, c, n)
    && (n > 0 ==> r.log != [] && r.log[|r.log| - 1].end == When(threshold, recovery, n - 1))
    && (forall i :: 0 <= i < |r.log| && i < Max(threshold, 1) ==> r.log[i].end == 0.0)
  }

  lemma {:induction false} BarrageRuns(threshold: int, recovery: real, c: nat, n: nat)
    requires c > 0 && recovery > 0.0
    ensures var actions := Barrage(threshold, recovery, c, n);
      && InOrder(actions) && (n > 0 ==> forall i :: 0 <= i < |actions| ==> actions[i].at <= When(threshold, recovery, n - 1))
      && Crowd(actions, threshold, recovery, c)
      && Barraged(After(START, actions, threshold, recovery), threshold, recovery, c, n)
  {
    hide After, Volley, Crowd, Failures, Recoveries, Shots;
    if n == 0 {
      NothingYet(threshold, recovery, c);
    } else {
      var a, at, m := Barrage(threshold, recovery, c, n - 1), When(threshold, recovery, n - 1), Size(threshold, c, n - 1);
      var r := After(START, a, threshold, recovery);
      BarrageRuns(threshold, recovery, c, n - 1);
      if n > 1 { WhenNext(threshold, recovery, n - 2); }
      FailuresOnly(r.log, threshold);
      ShotsNext(threshold, c, n - 1);
      VolleyFails(r, at, m, threshold, recovery);
      CrowdConcat(a, Volley(at, m), threshold, recovery, c);
      AfterConcat(START, a, Volley(at, m), threshold, recovery);
      VolleyAt(at, m);
    }
  }

  lemma NothingYet(threshold: int, recovery: real, c: nat)
    ensures Crowd([], threshold, recovery, c) && Barraged(After(START, [], threshold, recovery), threshold, recovery, c, 0)
  {
  }

  /** The bound is exact: for any number of calls in flight and of recovery timeouts, some run meets it. */
  lemma OverlappingBoundReached(threshold: int, recovery: real, c: nat, k: nat) returns (actions: seq<Action>, now: real)
    requires c > 0 && recovery > 0.0
    ensures InOrder(actions) && Crowd(actions, threshold, recovery, c) && actions != [] && actions[|actions| - 1].at == now
    ensures var log := After(START, actions, threshold, recovery).log;
      && Tripped(log, threshold) && ((now - OpenedAt(log, threshold)) / recovery).Floor == k
      && Failures(log) == Max(threshold, 1) + (c - 1) + c * k
  {
    hide After, Crowd, Failures, LastFailure;
    var n := Max(threshold, 1) + k;
    actions, now := Barrage(threshold, recovery, c, n), When(threshold, recovery, n - 1);
    BarrageRuns(threshold, recovery, c, n);
    var log := After(START, actions, threshold, recovery).log;
    FailuresOnly(log, threshold);
    ShotsNext(threshold, c, n);
    assert c * (k + 1) == c * k + c;
    WholeRecoveries(k, recovery);
  }

  /** Any interleaving of arrivals and completions leaves the breaker's fields describing the completed calls. */
  method PlayActions(cb: CircuitBreaker, actions: seq<Action>) returns (flying: seq<real>)
    requires cb.Tracks([])
    modifies cb
    ensures var r := After(START, actions, cb.failureThreshold, cb.recoveryTimeout);
      cb.Tracks(r.log) && |flying| == |r.flying| && forall i :: 0 <= i < |flying| ==> flying[i] == r.flying[i].start
  {
    hide Admits, Tripped;
    flying := [];
    ghost var r := START;
    for n := 0 to |actions|
      invariant r == After(START, actions[..n], cb.failureThreshold, cb.recoveryTimeout)
      invariant cb.Tracks(r.log) && |flying| == |r.flying| && forall i :: 0 <= i < |flying| ==> flying[i] == r.flying[i].start
    {
      assert actions[..n + 1][..n] == actions[..n];
      match actions[n] {
        case Arrive(at) =>
          var admitted := cb.Enter(at, r.log);
          if admitted { flying := flying + [at]; }
        case Complete(which, at, outcome) =>
          if which < |flying| {
            cb.Leave(at, outcome, r.log, Invocation(flying[which], at, outcome));
            flying := flying[..which] + flying[which + 1..];
          }
      }
      r := Next(r, actions[n], cb.failureThreshold, cb.recoveryTimeout);
    }
    assert actions[..|actions|] == actions;
  }
}
