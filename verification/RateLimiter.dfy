/** Token-bucket rate limiting, against the window law it is meant to enforce. Times are reals. */
module RateLimiter {

  /** The tokens the rate adds over a length of time. */
  function Flow(rate: real, length: real): real {
    length * rate
  }

  lemma FlowSplits(rate: real, x: real, y: real)
    ensures Flow(rate, x + y) == Flow(rate, x) + Flow(rate, y)
  {
  }

  lemma FlowGrows(rate: real, x: real, y: real)
    requires rate >= 0.0 && x <= y
    ensures Flow(rate, 0.0) == 0.0
    ensures Flow(rate, x) <= Flow(rate, y)
  {
  }

  /** How many of the admissions `a`, in order of time, are at `s` or later. */
  function CountFrom(a: seq<real>, s: real): nat {
    if a == [] then 0
    else CountFrom(a[..|a| - 1], s) + (if s <= a[|a| - 1] then 1 else 0)
  }

  ghost predicate Ordered(a: seq<real>) {
    forall i, j :: 0 <= i <= j < |a| ==> a[i] <= a[j]
  }

  ghost predicate Before(a: seq<real>, t: real) {
    forall i :: 0 <= i < |a| ==> a[i] <= t
  }

  /**
   One more admission at `t` keeps every window that ends at `t` within the burst
   size plus what the rate adds over the window's length.
   */
  ghost predicate Conforms(max: int, rate: real, a: seq<real>, t: real) {
    forall s: real :: s <= t ==> (CountFrom(a, s) + 1) as real <= max as real + Flow(rate, t - s)
  }

  /** What is left of the bucket at `t`: the tightest of the windows that start at an admission. */
  function Bucket(max: int, rate: real, a: seq<real>, t: real): real {
    if a == [] then max as real
    else Min(Bucket(max, rate, a[1..], t), max as real + Flow(rate, t - a[0]) - |a| as real)
  }

  function Min(x: real, y: real): real {
    if x <= y then x else y
  }

  /** Lazy refill is exact: time passes, and the bucket fills at the rate up to the burst size. */
  lemma {:induction false} BucketRefills(max: int, rate: real, a: seq<real>, t: real, u: real)
    requires rate >= 0.0 && Before(a, t) && t <= u
    ensures Bucket(max, rate, a, u) == Min(max as real, Bucket(max, rate, a, t) + Flow(rate, u - t))
  {
    hide Flow;
    FlowGrows(rate, 0.0, u - t);
    if a != [] {
      BucketRefills(max, rate, a[1..], t, u);
      FlowSplits(rate, t - a[0], u - t);
      assert t - a[0] + (u - t) == u - a[0];
      BucketAtMost(max, rate, a, t);
      BucketAtMost(max, rate, a, u);
    }
  }

  lemma {:induction false} BucketAtMost(max: int, rate: real, a: seq<real>, t: real)
    ensures Bucket(max, rate, a, t) <= max as real
  {
    hide Flow;
    if a != [] {
      BucketAtMost(max, rate, a[1..], t);
    }
  }

  /** An admission takes exactly one token. */
  lemma {:induction false} BucketAdmits(max: int, rate: real, a: seq<real>, t: real)
    requires rate >= 0.0 && Before(a, t)
    ensures Bucket(max, rate, a + [t], t) == Bucket(max, rate, a, t) - 1.0
  {
    hide Flow;
    FlowGrows(rate, 0.0, 0.0);
    if a == [] {
      assert ([] + [t])[1..] == [];
    } else {
      BucketAdmits(max, rate, a[1..], t);
      assert (a + [t])[1..] == a[1..] + [t];
    }
  }

  lemma {:induction false} CountFromIndex(a: seq<real>, i: nat)
    requires Ordered(a) && i < |a|
    ensures CountFrom(a, a[i]) >= |a| - i
    decreases |a|
  {
    if i < |a| - 1 {
      CountFromIndex(a[..|a| - 1], i);
    }
  }

  /** Either nothing counts, or some admission starts the window. */
  lemma {:induction false} CountFromSuffix(a: seq<real>, s: real) returns (i: nat)
    requires Ordered(a)
    ensures i <= |a| && CountFrom(a, s) == |a| - i && (i < |a| ==> s <= a[i])
    ensures forall k :: 0 <= k < i ==> a[k] < s
  {
    if a == [] {
      i := 0;
    } else {
      i := CountFromSuffix(a[..|a| - 1], s);
      if i == |a| - 1 && a[i] < s {
        i := i + 1;
      }
    }
  }

  lemma {:induction false} BucketBelowWindow(max: int, rate: real, a: seq<real>, t: real, i: nat)
    requires i < |a|
    ensures Bucket(max, rate, a, t) <= max as real + Flow(rate, t - a[i]) - (|a| - i) as real
  {
    hide Flow;
    if i > 0 {
      BucketBelowWindow(max, rate, a[1..], t, i - 1);
    }
  }

  lemma {:induction false} BucketIsWindow(max: int, rate: real, a: seq<real>, t: real) returns (i: nat)
    ensures i <= |a|
    ensures Bucket(max, rate, a, t) ==
            if i == |a| then max as real else max as real + Flow(rate, t - a[i]) - (|a| - i) as real
  {
    hide Flow;
    if a == [] {
      i := 0;
    } else {
      i := BucketIsWindow(max, rate, a[1..], t);
      if Bucket(max, rate, a, t) == Bucket(max, rate, a[1..], t) {
        i := i + 1;
      } else {
        i := 0;
      }
    }
  }

  /** A token is there exactly when the window law leaves room for one more admission. */
  lemma TokenIffConforms(max: int, rate: real, a: seq<real>, t: real)
    requires rate >= 0.0 && Ordered(a) && Before(a, t)
    ensures Bucket(max, rate, a, t) >= 1.0 <==> Conforms(max, rate, a, t)
  {
    hide Flow;
    FlowGrows(rate, 0.0, 0.0);
    if Bucket(max, rate, a, t) >= 1.0 {
      forall s: real | s <= t ensures (CountFrom(a, s) + 1) as real <= max as real + Flow(rate, t - s) {
        var i := CountFromSuffix(a, s);
        if i == |a| {
          BucketAtMost(max, rate, a, t);
          FlowGrows(rate, 0.0, t - s);
        } else {
          BucketBelowWindow(max, rate, a, t, i);
          FlowGrows(rate, t - a[i], t - s);
        }
      }
    } else {
      var i := BucketIsWindow(max, rate, a, t);
      var s := if i == |a| then t else a[i];
      if i < |a| {
        CountFromIndex(a, i);
      }
      assert !((CountFrom(a, s) + 1) as real <= max as real + Flow(rate, t - s));
    }
  }

  /** Every admission met the window law when it was made. */
  ghost predicate Lawful(max: int, rate: real, a: seq<real>) {
    Ordered(a) && forall i :: 0 <= i < |a| ==> Conforms(max, rate, a[..i], a[i])
  }

  /** Then no window at all, wherever it ends, holds more than burst plus rate times length. */
  lemma {:induction false} NoWindowExceeds(max: nat, rate: real, a: seq<real>, s: real, t: real)
    requires rate >= 0.0 && Lawful(max, rate, a) && s <= t
    ensures (CountFrom(a, s) - CountAfter(a, t)) as real <= max as real + Flow(rate, t - s)
  {
    hide Flow;
    FlowGrows(rate, 0.0, t - s);
    if a != [] {
      var last, rest := a[|a| - 1], a[..|a| - 1];
      forall i | 0 <= i < |rest| ensures Conforms(max, rate, rest[..i], rest[i]) {
        assert rest[..i] == a[..i];
      }
      if last > t || last < s {
        NoWindowExceeds(max, rate, rest, s, t);
        CountAfterAtMost(rest, s, t);
      } else {
        assert Conforms(max, rate, a[..|rest|], a[|rest|]);
        FlowGrows(rate, last - s, t - s);
      }
    }
  }

  /** How many of the admissions are later than `t`. */
  function CountAfter(a: seq<real>, t: real): nat {
    if a == [] then 0
    else CountAfter(a[..|a| - 1], t) + (if t < a[|a| - 1] then 1 else 0)
  }

  lemma {:induction false} CountAfterAtMost(a: seq<real>, s: real, t: real)
    requires s <= t
    ensures CountAfter(a, t) <= CountFrom(a, s)
  {
    if a != [] {
      CountAfterAtMost(a[..|a| - 1], s, t);
    }
  }

  class RateLimiter {
    const maxTokens: int
    const refillRate: real
    var tokens: real
    var lastRefill: real
    /** The times of the admissions so far. */
    ghost var admitted: seq<real>

    ghost predicate Valid()
      reads this
    {
      && refillRate >= 0.0
      && Lawful(maxTokens, refillRate, admitted) && Before(admitted, lastRefill)
      && tokens == Bucket(maxTokens, refillRate, admitted, lastRefill)
    }

    constructor (maxTokens: int, refillRate: real, now: real)
      requires refillRate >= 0.0
      ensures Valid() && admitted == [] && lastRefill == now
      ensures this.maxTokens == maxTokens && this.refillRate == refillRate
    {
      this.maxTokens, this.refillRate := maxTokens, refillRate;
      tokens, lastRefill := maxTokens as real, now;
      admitted := [];
    }

    method Refill(now: real)
      requires Valid() && lastRefill <= now
      modifies this`tokens, this`lastRefill
      ensures Valid() && lastRefill == now
    {
      hide Flow, Lawful;
      var elapsed := now - lastRefill;
      BucketRefills(maxTokens, refillRate, admitted, lastRefill, now);
      tokens := Min(maxTokens as real, tokens + Flow(refillRate, elapsed));
      lastRefill := now;
    }

    /** True when a token was taken; false is RateLimitException. */
    method Acquire(now: real) returns (ok: bool)
      requires Valid() && lastRefill <= now
      modifies this
      ensures Valid() && lastRefill == now
      ensures ok <==> Conforms(maxTokens, refillRate, old(admitted), now)
      ensures admitted == if ok then old(admitted) + [now] else old(admitted)
    {
      hide Flow, Conforms, Bucket;
      Refill(now);
      TokenIffConforms(maxTokens, refillRate, admitted, now);
      if tokens < 1.0 {
        return false;
      }
      BucketAdmits(maxTokens, refillRate, admitted, now);
      tokens := tokens - 1.0;
      ghost var before := admitted;
      admitted := admitted + [now];
      assert forall i :: 0 <= i < |before| ==> admitted[..i] == before[..i];
      assert admitted[..|before|] == before;
      return true;
    }

    function AvailableTokens(now: real): (available: real)
      requires Valid() && lastRefill <= now
      reads this
      ensures available == Bucket(maxTokens, refillRate, admitted, now)
    {
      var elapsed := now - lastRefill;
      BucketRefills(maxTokens, refillRate, admitted, lastRefill, now);
      Min(maxTokens as real, tokens + Flow(refillRate, elapsed))
    }
  }
}
