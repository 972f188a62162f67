/** Cache adapters, the failover manager and the caching decorators. */
module Cache {
  import opened Wrappers

  // ---- Stores, by value ----

  datatype Entry<V> = Entry(value: Option<V>, expiresAt: Option<real>)
  type Store<V> = map<string, Entry<V>>

  predicate Expired<V>(entry: Entry<V>, now: real) {
    entry.expiresAt.Some? && now > entry.expiresAt.value
  }

  /** A lookup; it drops the entry it finds expired. */
  function Fetch<V>(store: Store<V>, key: string, now: real): (Option<V>, Store<V>) {
    if key !in store then (None, store)
    else if Expired(store[key], now) then (None, store - {key})
    else (store[key].value, store)
  }

  function Expiry(ttl: Option<real>, now: real): Option<real> {
    if ttl.Some? then Some(now + ttl.value) else None
  }

  /** One in-memory cache, or a manager over a primary that may fail and an in-memory fallback;
      `ops` counts the operations sent to the primary. */
  datatype Backend<V> =
    | Memory(store: Store<V>)
    | Managed(primary: Store<V>, fallback: Store<V>, ops: nat)

  /** What becomes of an operation sent to the primary: it is served, it takes effect but raises
      (the answer is lost), or it raises without effect. */
  datatype Response = Served | Lost | Refused

  /** The primary's response to its n-th operation. */
  type Outages = nat -> Response

  function GetFrom<V>(up: Outages, b: Backend<V>, key: string, now: real): (Option<V>, Backend<V>) {
    match b
    case Memory(store) =>
      var (r, s) := Fetch(store, key, now);
      (r, Memory(s))
    case Managed(primary, fallback, ops) =>
      var (r, p) := if up(ops).Refused? then (None, primary) else Fetch(primary, key, now);
      if up(ops).Served? && r.Some? then (r, Managed(p, fallback, ops + 1))
      else
        var (q, f) := Fetch(fallback, key, now);
        (q, Managed(p, f, ops + 1))
  }

  function PutInto<V>(up: Outages, b: Backend<V>, key: string, entry: Entry<V>): Backend<V> {
    match b
    case Memory(store) => Memory(store[key := entry])
    case Managed(primary, fallback, ops) =>
      Managed(if up(ops).Refused? then primary else primary[key := entry], fallback[key := entry], ops + 1)
  }

  function EvictFrom<V>(up: Outages, b: Backend<V>, key: string): (bool, Backend<V>) {
    match b
    case Memory(store) => (key in store, Memory(store - {key}))
    case Managed(primary, fallback, ops) =>
      ((up(ops).Served? && key in primary) || key in fallback,
       Managed(if up(ops).Refused? then primary else primary - {key}, fallback - {key}, ops + 1))
  }

  function ClearAll<V>(up: Outages, b: Backend<V>): Backend<V> {
    match b
    case Memory(_) => Memory(map[])
    case Managed(primary, _, ops) => Managed(if up(ops).Refused? then primary else map[], map[], ops + 1)
  }

  /** What is put is served up to its expiry and never after it; a primary that missed the put must be out for the get too. */
  lemma ServedUntilExpiry<V>(up: Outages, b: Backend<V>, key: string, v: V, ttl: Option<real>, written: real, now: real)
    requires b.Managed? ==> !up(b.ops).Refused? || !up(b.ops + 1).Served?
    ensures var stored := PutInto(up, b, key, Entry(Some(v), Expiry(ttl, written)));
      GetFrom(up, stored, key, now).0 == if ttl.Some? && now > written + ttl.value then None else Some(v)
  {
  }

  // ---- Decorated functions, by value ----

  /** What the undecorated functions read and write, the cache in front of it, and the clock. */
  datatype World<A, V> = World(data: map<A, V>, backend: Backend<V>, now: real)

  function Read<A, V>(data: map<A, V>, a: A): Option<V> {
    if a in data then Some(data[a]) else None
  }

  function Write<A, V>(data: map<A, V>, a: A, v: Option<V>): map<A, V> {
    if v.Some? then data[a := v.value] else data - {a}
  }

  datatype Step<A, V> =
    | CachedRead(a: A, ttl: Option<real>)
    | EvictingUpdate(a: A, v: Option<V>)
    | PuttingUpdate(a: A, v: Option<V>, ttl: Option<real>)
    | ClearingUpdate(data: map<A, V>)
    | Advance(span: Span)

  function ReadCached<A, V>(up: Outages, key: A -> string, w: World<A, V>, a: A, ttl: Option<real>): (Option<V>, World<A, V>) {
    var (cached, b) := GetFrom(up, w.backend, key(a), w.now);
    if cached.Some? then (cached, w.(backend := b))
    else
      var result := Read(w.data, a);
      (result, w.(backend := PutInto(up, b, key(a), Entry(result, Expiry(ttl, w.now)))))
  }

  function Next<A, V>(up: Outages, key: A -> string, w: World<A, V>, step: Step<A, V>): World<A, V> {
    match step
    case CachedRead(a, ttl) => ReadCached(up, key, w, a, ttl).1
    case EvictingUpdate(a, v) => World(Write(w.data, a, v), EvictFrom(up, w.backend, key(a)).1, w.now)
    case PuttingUpdate(a, v, ttl) =>
      World(Write(w.data, a, v), PutInto(up, w.backend, key(a), Entry(v, Expiry(ttl, w.now))), w.now)
    case ClearingUpdate(data) => World(data, ClearAll(up, w.backend), w.now)
    case Advance(span) => w.(now := w.now + span)
  }

  /** Every decorated read of the run returns what the undecorated function would. */
  ghost predicate Honest<A, V>(up: Outages, key: A -> string, w: World<A, V>, steps: seq<Step<A, V>>)
    decreases steps
  {
    steps == [] || (
      && (steps[0].CachedRead? ==> ReadCached(up, key, w, steps[0].a, steps[0].ttl).0 == Read(w.data, steps[0].a))
      && Honest(up, key, Next(up, key, w, steps[0]), steps[1..]))
  }

  ghost predicate Injective<A(!new)>(key: A -> string) {
    forall a, b :: key(a) == key(b) ==> a == b
  }

  // ---- Coherence ----

  /** Every entry holds what a read would give now, expired or not. */
  ghost predicate Agrees<A(!new), V>(key: A -> string, data: map<A, V>, store: Store<V>) {
    forall a :: key(a) in store ==> store[key(a)].value == Read(data, a)
  }

  /** The primary never serves again. */
  ghost predicate Gone(up: Outages, ops: nat) {
    forall n :: n >= ops ==> !up(n).Served?
  }

  /** Once an operation has had no effect after one that had, the primary serves no more. */
  ghost predicate Steady(up: Outages) {
    forall i, j, k :: 0 <= i < j < k && !up(i).Refused? && up(j).Refused? ==> !up(k).Served?
  }

  ghost predicate Coherent<A(!new), V>(up: Outages, key: A -> string, w: World<A, V>) {
    match w.backend
    case Memory(store) => Agrees(key, w.data, store)
    case Managed(primary, fallback, ops) =>
      Agrees(key, w.data, fallback) && PrimarySound(up, key, w.data, primary, ops)
  }

  /** A steady primary that refuses once after having taken effect is gone. */
  lemma RefusalIsFinal(up: Outages, ops: nat)
    requires Steady(up) && up(ops).Refused? && !forall n: nat :: n < ops ==> up(n).Refused?
    ensures Gone(up, ops + 1)
  {
    var n: nat :| n < ops && !up(n).Refused?;
    forall k | k >= ops + 1 ensures !up(k).Served? {
      assert 0 <= n < ops < k;
    }
  }

  lemma FetchAgrees<A(!new), V>(key: A -> string, data: map<A, V>, store: Store<V>, a: A, now: real)
    requires Agrees(key, data, store)
    ensures Agrees(key, data, Fetch(store, key(a), now).1)
    ensures Fetch(store, key(a), now).0.Some? ==> Fetch(store, key(a), now).0 == Read(data, a)
  {
  }

  lemma WriteAgrees<A(!new), V>(key: A -> string, data: map<A, V>, store: Store<V>, a: A, v: Option<V>, expiresAt: Option<real>)
    requires Injective(key) && Agrees(key, data, store)
    ensures Agrees(key, Write(data, a, v), store - {key(a)})
    ensures Agrees(key, Write(data, a, v), store[key(a) := Entry(v, expiresAt)])
    ensures v == Read(data, a) ==> Agrees(key, data, store[key(a) := Entry(v, expiresAt)])
  {
  }

  /** What the primary holds matters only while it may still serve. */
  ghost predicate PrimarySound<A(!new), V>(up: Outages, key: A -> string, data: map<A, V>, primary: Store<V>, ops: nat) {
    && (Agrees(key, data, primary) || Gone(up, ops))
    && ((forall n: nat :: n < ops ==> up(n).Refused?) ==> primary == map[])
  }

  /** An operation whose effect would leave the primary in agreement keeps it sound, whatever the response. */
  lemma PrimaryStaysSound<A(!new), V>(up: Outages, key: A -> string, before: map<A, V>, primary: Store<V>,
                                      data: map<A, V>, after: Store<V>, ops: nat)
    requires Steady(up) && PrimarySound(up, key, before, primary, ops)
    requires Agrees(key, before, primary) ==> Agrees(key, data, after)
    ensures PrimarySound(up, key, data, if up(ops).Refused? then primary else after, ops + 1)
  {
    hide Steady, Agrees;
    EmptyAgrees(key, data, primary);
    if up(ops).Refused? && !forall n: nat :: n < ops ==> up(n).Refused? {
      RefusalIsFinal(up, ops);
    }
  }

  lemma EmptyAgrees<A(!new), V>(key: A -> string, data: map<A, V>, store: Store<V>)
    ensures store == map[] ==> Agrees(key, data, store)
  {
  }

  lemma GetCoherent<A(!new), V>(up: Outages, key: A -> string, w: World<A, V>, a: A)
    requires Coherent(up, key, w) && (w.backend.Managed? ==> Steady(up))
    ensures var (cached, b) := GetFrom(up, w.backend, key(a), w.now);
      Coherent(up, key, w.(backend := b)) && (cached.Some? ==> cached == Read(w.data, a))
  {
    hide Agrees, Fetch, Steady, PrimarySound;
    match w.backend
    case Memory(store) => FetchAgrees(key, w.data, store, a, w.now);
    case Managed(primary, fallback, ops) =>
      FetchAgrees(key, w.data, fallback, a, w.now);
      var fetched := Fetch(primary, key(a), w.now);
      if Agrees(key, w.data, primary) { FetchAgrees(key, w.data, primary, a, w.now); }
      PrimaryStaysSound(up, key, w.data, primary, w.data, fetched.1, ops);
      if up(ops).Served? { ServedIsSound(up, key, w.data, primary, ops); }
  }

  lemma ServedIsSound<A(!new), V>(up: Outages, key: A -> string, data: map<A, V>, primary: Store<V>, ops: nat)
    requires PrimarySound(up, key, data, primary, ops) && up(ops).Served?
    ensures Agrees(key, data, primary)
  {
  }

  lemma PutCoherent<A(!new), V>(up: Outages, key: A -> string, w: World<A, V>, a: A, v: Option<V>, expiresAt: Option<real>)
    requires Injective(key) && Coherent(up, key, w) && (w.backend.Managed? ==> Steady(up))
    ensures Coherent(up, key, World(Write(w.data, a, v), PutInto(up, w.backend, key(a), Entry(v, expiresAt)), w.now))
    ensures v == Read(w.data, a) ==> Coherent(up, key, w.(backend := PutInto(up, w.backend, key(a), Entry(v, expiresAt))))
  {
    hide Injective, Agrees, Steady, PrimarySound;
    match w.backend
    case Memory(store) => WriteAgrees(key, w.data, store, a, v, expiresAt);
    case Managed(primary, fallback, ops) =>
      WriteAgrees(key, w.data, fallback, a, v, expiresAt);
      if Agrees(key, w.data, primary) { WriteAgrees(key, w.data, primary, a, v, expiresAt); }
      PrimaryStaysSound(up, key, w.data, primary, Write(w.data, a, v), primary[key(a) := Entry(v, expiresAt)], ops);
      if v == Read(w.data, a) {
        PrimaryStaysSound(up, key, w.data, primary, w.data, primary[key(a) := Entry(v, expiresAt)], ops);
      }
  }

  /** Over a coherent cache a decorated read answers as the source would. */
  lemma ReadCoherent<A(!new), V>(up: Outages, key: A -> string, w: World<A, V>, a: A, ttl: Option<real>)
    requires Injective(key) && Coherent(up, key, w) && (w.backend.Managed? ==> Steady(up))
    ensures ReadCached(up, key, w, a, ttl).0 == Read(w.data, a)
    ensures Coherent(up, key, ReadCached(up, key, w, a, ttl).1)
  {
    hide Injective, Coherent, GetFrom, PutInto, Steady;
    GetCoherent(up, key, w, a);
    var (cached, b) := GetFrom(up, w.backend, key(a), w.now);
    GetManaged(up, w.backend, key(a), w.now);
    PutCoherent(up, key, w.(backend := b), a, Read(w.data, a), Expiry(ttl, w.now));
  }

  lemma GetManaged<V>(up: Outages, b: Backend<V>, key: string, now: real)
    ensures GetFrom(up, b, key, now).1.Managed? == b.Managed?
  {
  }

  lemma UpdateCoherent<A(!new), V>(up: Outages, key: A -> string, w: World<A, V>, step: Step<A, V>)
    requires Injective(key) && Coherent(up, key, w) && (w.backend.Managed? ==> Steady(up))
    requires !step.CachedRead?
    ensures Coherent(up, key, Next(up, key, w, step))
  {
    hide Injective, Agrees, Steady, PrimarySound, PutInto;
    match step
    case EvictingUpdate(a, v) =>
      match w.backend {
        case Memory(store) => WriteAgrees(key, w.data, store, a, v, None);
        case Managed(primary, fallback, ops) =>
          WriteAgrees(key, w.data, fallback, a, v, None);
          if Agrees(key, w.data, primary) { WriteAgrees(key, w.data, primary, a, v, None); }
          PrimaryStaysSound(up, key, w.data, primary, Write(w.data, a, v), primary - {key(a)}, ops);
      }
    case PuttingUpdate(a, v, ttl) => PutCoherent(up, key, w, a, v, Expiry(ttl, w.now));
    case ClearingUpdate(data) =>
      EmptyAgrees<A, V>(key, data, map[]);
      if w.backend.Managed? {
        PrimaryStaysSound(up, key, w.data, w.backend.primary, data, map[], w.backend.ops);
      }
    case Advance(_) =>
  }

  /** Every step keeps the cache coherent, and a coherent cache answers as the source would. */
  lemma NextCoherent<A(!new), V>(up: Outages, key: A -> string, w: World<A, V>, step: Step<A, V>)
    requires Injective(key) && Coherent(up, key, w) && (w.backend.Managed? ==> Steady(up))
    ensures Coherent(up, key, Next(up, key, w, step))
    ensures step.CachedRead? ==> ReadCached(up, key, w, step.a, step.ttl).0 == Read(w.data, step.a)
  {
    hide Injective, Coherent, ReadCached;
    if step.CachedRead? {
      ReadCoherent(up, key, w, step.a, step.ttl);
    } else {
      UpdateCoherent(up, key, w, step);
    }
  }

  lemma {:induction false} RunHonest<A(!new), V>(up: Outages, key: A -> string, w: World<A, V>, steps: seq<Step<A, V>>)
    requires Injective(key) && Coherent(up, key, w) && (w.backend.Managed? ==> Steady(up))
    ensures Honest(up, key, w, steps)
    decreases steps
  {
    hide Injective, Coherent, Next, ReadCached;
    if steps != [] {
      NextCoherent(up, key, w, steps[0]);
      NextManaged(up, key, w, steps[0]);
      RunHonest(up, key, Next(up, key, w, steps[0]), steps[1..]);
    }
  }

  lemma NextManaged<A, V>(up: Outages, key: A -> string, w: World<A, V>, step: Step<A, V>)
    ensures Next(up, key, w, step).backend.Managed? == w.backend.Managed?
  {
  }

  /** Over a single in-memory cache every run is honest. */
  lemma MemoryHonest<A(!new), V>(up: Outages, key: A -> string, data: map<A, V>, now: real, steps: seq<Step<A, V>>)
    requires Injective(key)
    ensures Honest(up, key, World(data, Memory(map[]), now), steps)
  {
    RunHonest(up, key, World(data, Memory(map[]), now), steps);
  }

  ghost predicate AlwaysHonest<A(!new), V(!new)>(up: Outages, key: A -> string, w: World<A, V>) {
    forall steps :: Honest(up, key, w, steps)
  }

  /**
   Behind the manager every run is honest exactly when the primary, once it has refused an operation
   after one that took effect, never serves again. Crash-stop is the plain case of this.
   */
  lemma ManagerHonestIffSteady<A(!new), V(!new)>(up: Outages, key: A -> string, data: map<A, V>, now: real, a: A, v: V, other: V)
    requires Injective(key) && v != other
    ensures AlwaysHonest(up, key, World(data, Managed(map[], map[], 0), now)) <==> Steady(up)
  {
    hide Honest, Injective;
    var w := World(data, Managed(map[], map[], 0), now);
    if Steady(up) {
      forall steps: seq<Step<A, V>> ensures Honest(up, key, w, steps) {
        RunHonest(up, key, w, steps);
      }
    } else {
      var i, j, k :| 0 <= i < j < k && !up(i).Refused? && up(j).Refused? && up(k).Served?;
      var back := FirstServed(up, j, k);
      StaleRead(up, key, data, now, a, v, other, i, j, back);
      assert !Honest(up, key, w, StaleRun(a, v, other, j, back));
    }
  }

  /** In particular a primary that serves up to some operation and nothing from then on. */
  lemma CrashStopSteady(up: Outages, crash: nat)
    requires forall n: nat :: n < crash ==> up(n).Served?
    requires forall n :: n >= crash ==> !up(n).Served?
    ensures Steady(up)
  {
  }

  lemma FirstServed(up: Outages, j: nat, k: nat) returns (back: nat)
    requires j < k && !up(j).Served? && up(k).Served?
    ensures j < back <= k && up(back).Served? && forall n :: j <= n < back ==> !up(n).Served?
  {
    back := j + 1;
    while !up(back).Served?
      invariant j < back <= k && forall n :: j <= n < back ==> !up(n).Served?
      decreases k - back
    {
      back := back + 1;
    }
  }

  // ---- A primary that comes back serves what it missed ----

  function Repeat<A, V>(step: Step<A, V>, n: nat): seq<Step<A, V>> {
    seq(n, _ => step)
  }

  /** Updates to `v`, an update to `other` that the primary refuses, then reads until it serves again. */
  function StaleRun<A, V>(a: A, v: V, other: V, out: nat, back: nat): seq<Step<A, V>>
    requires out < back
  {
    Repeat(PuttingUpdate(a, Some(v), None), out)
    + ([PuttingUpdate(a, Some(other), None)]
    + (Repeat(CachedRead(a, None), back - out - 1)
    + [CachedRead(a, None)]))
  }

  function RunOf<A, V>(up: Outages, key: A -> string, w: World<A, V>, steps: seq<Step<A, V>>): World<A, V>
    decreases steps
  {
    if steps == [] then w else RunOf(up, key, Next(up, key, w, steps[0]), steps[1..])
  }

  lemma {:induction false} HonestPrefix<A, V>(up: Outages, key: A -> string, w: World<A, V>, first: seq<Step<A, V>>, rest: seq<Step<A, V>>)
    ensures Honest(up, key, w, first + rest) ==> Honest(up, key, RunOf(up, key, w, first), rest)
    decreases first
  {
    hide Next, ReadCached;
    if first == [] {
      assert first + rest == rest;
    } else {
      assert (first + rest)[1..] == first[1..] + rest;
      HonestPrefix(up, key, Next(up, key, w, first[0]), first[1..], rest);
    }
  }

  /** The store holds `v` for the key, for good. */
  ghost predicate Keeps<V>(store: Store<V>, key: string, v: V) {
    key in store && store[key] == Entry(Some(v), None)
  }

  /** Repeated updates reach the primary as soon as one of them takes effect. */
  lemma {:induction false} UpdatesRun<A, V>(up: Outages, key: A -> string, w: World<A, V>, a: A, v: V, n: nat)
    requires w.backend.Managed?
    ensures var after := RunOf(up, key, w, Repeat(PuttingUpdate(a, Some(v), None), n));
      && after.backend.Managed? && after.backend.ops == w.backend.ops + n && after.now == w.now
      && (Keeps(w.backend.primary, key(a), v) ==> Keeps(after.backend.primary, key(a), v))
      && ((exists i :: w.backend.ops <= i < w.backend.ops + n && !up(i).Refused?) ==> Keeps(after.backend.primary, key(a), v))
    decreases n
  {
    if n > 0 {
      var step := PuttingUpdate(a, Some(v), None);
      assert Repeat(step, n)[1..] == Repeat(step, n - 1);
      UpdatesRun(up, key, Next(up, key, w, step), a, v, n - 1);
    }
  }

  /** While the primary does not serve, reads come from the fallback and change nothing. */
  lemma {:induction false} ReadsRun<A, V>(up: Outages, key: A -> string, w: World<A, V>, a: A, v: V, other: V, n: nat)
    requires w.backend.Managed? && Keeps(w.backend.primary, key(a), v) && Keeps(w.backend.fallback, key(a), other)
    requires forall i :: w.backend.ops <= i < w.backend.ops + n ==> !up(i).Served?
    ensures RunOf(up, key, w, Repeat(CachedRead(a, None), n)) ==
      w.(backend := Managed(w.backend.primary, w.backend.fallback, w.backend.ops + n))
    decreases n
  {
    if n > 0 {
      var step := CachedRead(a, None);
      assert Repeat(step, n)[1..] == Repeat(step, n - 1);
      var next := Next(up, key, w, step);
      assert next == w.(backend := Managed(w.backend.primary, w.backend.fallback, w.backend.ops + 1));
      ReadsRun(up, key, next, a, v, other, n - 1);
    }
  }

  lemma OneStep<A, V>(up: Outages, key: A -> string, w: World<A, V>, step: Step<A, V>)
    ensures RunOf(up, key, w, [step]) == Next(up, key, w, step)
  {
    hide Next;
    assert [step][1..] == [];
  }

  lemma StaleRead<A, V>(up: Outages, key: A -> string, data: map<A, V>, now: real, a: A, v: V, other: V, i: nat, out: nat, back: nat)
    requires v != other && i < out < back && !up(i).Refused? && up(out).Refused? && up(back).Served?
    requires forall n :: out <= n < back ==> !up(n).Served?
    ensures !Honest(up, key, World(data, Managed(map[], map[], 0), now), StaleRun(a, v, other, out, back))
  {
    hide RunOf, Repeat, Next;
    var w0 := World(data, Managed(map[], map[], 0), now);
    var puts, put := Repeat(PuttingUpdate(a, Some(v), None), out), PuttingUpdate(a, Some(other), None);
    var rereads, last := Repeat(CachedRead(a, None), back - out - 1), [CachedRead(a, None)];
    UpdatesRun(up, key, w0, a, v, out);
    var w1 := RunOf(up, key, w0, puts);
    OneStep(up, key, w1, put);
    var w2 := RunOf(up, key, w1, [put]);
    RefusedUpdate(up, key, w1, a, other);
    ReadsRun(up, key, w2, a, v, other, back - out - 1);
    var w3 := RunOf(up, key, w2, rereads);
    HonestPrefix(up, key, w0, puts, [put] + (rereads + last));
    HonestPrefix(up, key, w1, [put], rereads + last);
    HonestPrefix(up, key, w2, rereads, last);
  }

  lemma RefusedUpdate<A, V>(up: Outages, key: A -> string, w: World<A, V>, a: A, other: V)
    requires w.backend.Managed? && up(w.backend.ops).Refused?
    ensures Next(up, key, w, PuttingUpdate(a, Some(other), None)) ==
      World(w.data[a := other],
            Managed(w.backend.primary, w.backend.fallback[key(a) := Entry(Some(other), None)], w.backend.ops + 1), w.now)
  {
  }

  // ---- The adapters as objects ----

  class Clock {
    var now: real

    method Tick(span: Span)
      modifies this
      ensures now == old(now) + span
    {
      now := now + span;
    }
  }

  class InMemoryCache<V> {
    const clock: Clock
    var store: Store<V>

    constructor (clock: Clock)
      ensures store == map[] && this.clock == clock
    {
      this.clock, store := clock, map[];
    }

    method Get(key: string) returns (value: Option<V>)
      modifies this
      ensures (value, store) == Fetch(old(store), key, clock.now)
    {
      if key !in store { return None; }
      var entry := store[key];
      if Expired(entry, clock.now) {
        store := store - {key};
        return None;
      }
      value := entry.value;
    }

    method Put(key: string, value: Option<V>, ttl: Option<real>)
      modifies this
      ensures store == old(store)[key := Entry(value, Expiry(ttl, clock.now))]
    {
      var expiresAt: Option<real> := None;
      if ttl.Some? { expiresAt := Some(clock.now + ttl.value); }
      store := store[key := Entry(value, expiresAt)];
    }

    method Evict(key: string) returns (existed: bool)
      modifies this
      ensures existed == (key in old(store)) && store == old(store) - {key}
    {
      existed := key in store;
      if existed { store := store - {key}; }
    }

    /** True exactly when the entry would still be served; agrees with `Get` on what it drops. */
    method Exists(key: string) returns (present: bool)
      modifies this
      ensures present == (key in old(store) && !Expired(old(store)[key], clock.now))
      ensures store == Fetch(old(store), key, clock.now).1
    {
      if key !in store { return false; }
      if Expired(store[key], clock.now) {
        store := store - {key};
        return false;
      }
      present := true;
    }

    method Clear()
      modifies this
      ensures store == map[]
    {
      store := map[];
    }
  }

  /** A primary whose operations may raise, before or after they have taken effect. */
  class Primary<V> {
    const cache: InMemoryCache<V>
    const up: Outages
    var ops: nat

    constructor (cache: InMemoryCache<V>, up: Outages)
      ensures this.cache == cache && this.up == up && ops == 0
    {
      this.cache, this.up, ops := cache, up, 0;
    }

    method Get(key: string) returns (r: Result<Option<V>, ()>)
      modifies this, cache
      ensures ops == old(ops) + 1 && r.Ok? == up(old(ops)).Served?
      ensures cache.store == if up(old(ops)).Refused? then old(cache.store) else Fetch(old(cache.store), key, cache.clock.now).1
      ensures r.Ok? ==> r.value == Fetch(old(cache.store), key, cache.clock.now).0
    {
      ops := ops + 1;
      if up(ops - 1).Refused? { return Err(()); }
      var value := cache.Get(key);
      r := if up(ops - 1).Served? then Ok(value) else Err(());
    }

    method Put(key: string, value: Option<V>, ttl: Option<real>) returns (r: Result<(), ()>)
      modifies this, cache
      ensures ops == old(ops) + 1 && r.Ok? == up(old(ops)).Served?
      ensures cache.store ==
        if up(old(ops)).Refused? then old(cache.store) else old(cache.store)[key := Entry(value, Expiry(ttl, cache.clock.now))]
    {
      ops := ops + 1;
      if up(ops - 1).Refused? { return Err(()); }
      cache.Put(key, value, ttl);
      r := if up(ops - 1).Served? then Ok(()) else Err(());
    }

    method Evict(key: string) returns (r: Result<bool, ()>)
      modifies this, cache
      ensures ops == old(ops) + 1 && r.Ok? == up(old(ops)).Served?
      ensures cache.store == if up(old(ops)).Refused? then old(cache.store) else old(cache.store) - {key}
      ensures r.Ok? ==> r.value == (key in old(cache.store))
    {
      ops := ops + 1;
      if up(ops - 1).Refused? { return Err(()); }
      var existed := cache.Evict(key);
      r := if up(ops - 1).Served? then Ok(existed) else Err(());
    }

    method Clear() returns (r: Result<(), ()>)
      modifies this, cache
      ensures ops == old(ops) + 1 && r.Ok? == up(old(ops)).Served?
      ensures cache.store == if up(old(ops)).Refused? then old(cache.store) else map[]
    {
      ops := ops + 1;
      if up(ops - 1).Refused? { return Err(()); }
      cache.Clear();
      r := if up(ops - 1).Served? then Ok(()) else Err(());
    }
  }

  class CacheManager<V> {
    const primary: Primary<V>
    const fallback: InMemoryCache<V>

    constructor (primary: Primary<V>, fallback: InMemoryCache<V>)
      ensures this.primary == primary && this.fallback == fallback
    {
      this.primary, this.fallback := primary, fallback;
    }

    ghost predicate Valid() {
      primary.cache != fallback && primary.cache.clock == fallback.clock
    }

    ghost function Model(): Backend<V>
      reads primary, primary.cache, fallback
    {
      Managed(primary.cache.store, fallback.store, primary.ops)
    }

    method Get(key: string) returns (value: Option<V>)
      requires Valid()
      modifies primary, primary.cache, fallback
      ensures (value, Model()) == GetFrom(primary.up, old(Model()), key, fallback.clock.now)
    {
      var r := primary.Get(key);
      if r.Ok? && r.value.Some? { return r.value; }
      value := fallback.Get(key);
    }

    method Put(key: string, value: Option<V>, ttl: Option<real>)
      requires Valid()
      modifies primary, primary.cache, fallback
      ensures Model() == PutInto(primary.up, old(Model()), key, Entry(value, Expiry(ttl, fallback.clock.now)))
    {
      var _ := primary.Put(key, value, ttl);
      fallback.Put(key, value, ttl);
    }

    method Evict(key: string) returns (existed: bool)
      requires Valid()
      modifies primary, primary.cache, fallback
      ensures (existed, Model()) == EvictFrom(primary.up, old(Model()), key)
    {
      var primaryResult := false;
      var r := primary.Evict(key);
      if r.Ok? { primaryResult := r.value; }
      var fallbackResult := fallback.Evict(key);
      existed := primaryResult || fallbackResult;
    }

    method Clear()
      requires Valid()
      modifies primary, primary.cache, fallback
      ensures Model() == ClearAll(primary.up, old(Model()))
    {
      var _ := primary.Clear();
      fallback.Clear();
    }
  }

  /** The cache a decorator is given. */
  datatype Adapter<V> = Plain(cache: InMemoryCache<V>) | WithFailover(manager: CacheManager<V>)

  /** A repository of values, and its decorated functions over one adapter. */
  class Service<A(==), V> {
    const key: A -> string
    const adapter: Adapter<V>
    const clock: Clock
    var data: map<A, V>

    constructor (key: A -> string, adapter: Adapter<V>, clock: Clock, data: map<A, V>)
      requires match adapter
        case Plain(cache) => cache.clock == clock
        case WithFailover(manager) => manager.Valid() && manager.fallback.clock == clock
      ensures this.key == key && this.adapter == adapter && this.data == data && Valid()
    {
      this.key, this.adapter, this.clock, this.data := key, adapter, clock, data;
    }

    ghost function Repr(): set<object> {
      match adapter
      case Plain(cache) => {cache}
      case WithFailover(manager) => {manager.primary, manager.primary.cache, manager.fallback}
    }

    /** The outages of the primary, when there is one. */
    ghost function Up(): Outages {
      match adapter
      case Plain(_) => (_: nat) => Served
      case WithFailover(manager) => manager.primary.up
    }

    ghost predicate Valid() {
      match adapter
      case Plain(cache) => cache.clock == clock
      case WithFailover(manager) => manager.Valid() && manager.fallback.clock == clock
    }

    ghost function Model(): World<A, V>
      reads this, clock, Repr()
    {
      World(data, match adapter case Plain(cache) => Memory(cache.store) case WithFailover(manager) => manager.Model(), clock.now)
    }

    /** The decorated read: the cached value, or the function's result, which is then cached. */
    method Cached(a: A, ttl: Option<real>) returns (result: Option<V>)
      requires Valid()
      modifies Repr()
      ensures (result, Model()) == ReadCached(Up(), key, old(Model()), a, ttl)
    {
      var resolvedKey := key(a);
      var cached;
      match adapter {
        case Plain(cache) => cached := cache.Get(resolvedKey);
        case WithFailover(manager) => cached := manager.Get(resolvedKey);
      }
      if cached.Some? { return cached; }
      result := if a in data then Some(data[a]) else None;
      match adapter {
        case Plain(cache) => cache.Put(resolvedKey, result, ttl);
        case WithFailover(manager) => manager.Put(resolvedKey, result, ttl);
      }
    }

    method UpdateEvicting(a: A, v: Option<V>)
      requires Valid()
      modifies this, Repr()
      ensures Model() == Next(Up(), key, old(Model()), EvictingUpdate(a, v))
    {
      data := if v.Some? then data[a := v.value] else data - {a};
      match adapter {
        case Plain(cache) => var _ := cache.Evict(key(a));
        case WithFailover(manager) => var _ := manager.Evict(key(a));
      }
    }

    method UpdateClearing(replacement: map<A, V>)
      requires Valid()
      modifies this, Repr()
      ensures Model() == Next(Up(), key, old(Model()), ClearingUpdate(replacement))
    {
      data := replacement;
      match adapter {
        case Plain(cache) => cache.Clear();
        case WithFailover(manager) => manager.Clear();
      }
    }

    method UpdatePutting(a: A, v: Option<V>, ttl: Option<real>) returns (result: Option<V>)
      requires Valid()
      modifies this, Repr()
      ensures Model() == Next(Up(), key, old(Model()), PuttingUpdate(a, v, ttl)) && result == v
    {
      data := if v.Some? then data[a := v.value] else data - {a};
      result := v;
      match adapter {
        case Plain(cache) => cache.Put(key(a), result, ttl);
        case WithFailover(manager) => manager.Put(key(a), result, ttl);
      }
    }
  }
}
