/** Topological ordering of the factory methods of one configuration class (Kahn's algorithm). */
module BeanMethods {
  import opened Wrappers
  import opened Sequences

  /** A `@bean` method: its attribute name, return annotation and parameter types. */
  datatype BeanMethod = BeanMethod(name: string, produces: Option<TypeId>, params: seq<TypeId>)

  /** The method that produces `t`: the last one declared. */
  function Producer(ms: seq<BeanMethod>, t: TypeId): Option<string> {
    if ms == [] then None
    else if ms[|ms| - 1].produces == Some(t) then Some(ms[|ms| - 1].name)
    else Producer(ms[..|ms| - 1], t)
  }

  /** The other methods of the class whose products `m` takes as parameters. */
  function DependsOn(ms: seq<BeanMethod>, m: BeanMethod): set<string> {
    ProducersOf(ms, m.name, m.params)
  }

  function ProducersOf(ms: seq<BeanMethod>, name: string, ts: seq<TypeId>): set<string> {
    set t | t in ts && Producer(ms, t).Some? && Producer(ms, t).value != name :: Producer(ms, t).value
  }

  function Names(ms: seq<BeanMethod>): seq<string> {
    seq(|ms|, i requires 0 <= i < |ms| => ms[i].name)
  }

  ghost predicate IsDepMap<K(!new)>(names: seq<K>, deps: map<K, set<K>>) {
    && NoDuplicates(names)
    && (forall n :: n in deps <==> n in names)
    && (forall n :: n in deps ==> deps[n] <= deps.Keys)
  }

  ghost predicate NoEdges<K(!new)>(deps: map<K, set<K>>) {
    forall n :: n in deps ==> deps[n] == {}
  }

  ghost predicate IsCycle<K(!new)>(deps: map<K, set<K>>, walk: seq<K>) {
    && IsClosed(walk)
    && (forall i :: 0 <= i < |walk| ==> walk[i] in deps)
    && (forall i :: 0 <= i < |walk| - 1 ==> walk[i + 1] in deps[walk[i]])
  }

  ghost predicate Cyclic<K(!new)>(deps: map<K, set<K>>) {
    exists walk :: IsCycle(deps, walk)
  }

  function Elements<K(==,!new)>(s: seq<K>): set<K> {
    set x | x in s
  }

  /** Every name comes after everything it depends on. */
  ghost predicate DependenciesFirst<K(!new)>(deps: map<K, set<K>>, ordered: seq<K>) {
    forall i, d :: 0 <= i < |ordered| && ordered[i] in deps && d in deps[ordered[i]] ==> d in ordered[..i]
  }

  ghost predicate Waits<K(!new)>(deps: map<K, set<K>>, ordered: seq<K>, n: K) {
    n in deps && exists d :: d in deps[n] && d !in ordered
  }

  /** Whatever is left out still waits for something else left out. */
  ghost predicate StuckOutside<K(!new)>(deps: map<K, set<K>>, ordered: seq<K>) {
    forall n {:trigger Waits(deps, ordered, n)} :: n in deps && n !in ordered ==> Waits(deps, ordered, n)
  }

  /** Names still waiting for nothing and not yet emitted: what the queue holds. */
  ghost predicate Ready<K(!new)>(names: seq<K>, deps: map<K, set<K>>, emitted: seq<K>, queue: seq<K>) {
    NoDuplicates(queue) && forall n :: n in queue <==> n in names && n !in emitted && n in deps && deps[n] == {}
  }

  /** `deps` is `graph` less what was emitted, and `inDegree` counts it. */
  ghost predicate Tracks<K(!new)>(graph: map<K, set<K>>, emitted: seq<K>, deps: map<K, set<K>>, inDegree: map<K, int>) {
    Counts(graph, deps, inDegree) && Less(graph, emitted, deps)
  }

  ghost predicate Less<K(!new)>(graph: map<K, set<K>>, emitted: seq<K>, deps: map<K, set<K>>) {
    deps.Keys == graph.Keys && forall n :: n in deps ==> deps[n] == graph[n] - Elements(emitted)
  }

  ghost predicate Counts<K(!new)>(graph: map<K, set<K>>, deps: map<K, set<K>>, inDegree: map<K, int>) {
    deps.Keys == inDegree.Keys == graph.Keys && forall n :: n in deps ==> inDegree[n] == |deps[n]|
  }

  /** Striking one dependency of a name keeps the queue right. */
  lemma StrikeReady<K(!new)>(names: seq<K>, deps: map<K, set<K>>, emitted: seq<K>, queue: seq<K>, n: K, node: K)
    requires Ready(names, deps, emitted, queue)
    requires n in names && n !in emitted && n in deps && node in deps[n]
    ensures Ready(names, deps[n := deps[n] - {node}], emitted,
                  if deps[n] - {node} == {} then queue + [n] else queue)
  {
  }

  lemma StrikeCounts<K(!new)>(graph: map<K, set<K>>, deps: map<K, set<K>>, inDegree: map<K, int>, n: K, node: K)
    requires Counts(graph, deps, inDegree) && n in deps && node in deps[n]
    ensures Counts(graph, deps[n := deps[n] - {node}], inDegree[n := inDegree[n] - 1])
  {
  }

  /** In the middle of the inner loop: the names in `done` have `node` struck, the others not yet. */
  ghost predicate Halfway<K(!new)>(graph: map<K, set<K>>, ordered: seq<K>, node: K, done: seq<K>, deps: map<K, set<K>>) {
    forall n :: n in graph && n in deps ==>
      deps[n] == graph[n] - Elements(ordered) - (if n in done then {node} else {})
  }

  lemma StrikeHalfway<K(!new)>(graph: map<K, set<K>>, ordered: seq<K>, node: K, done: seq<K>, deps: map<K, set<K>>, n: K)
    requires Halfway(graph, ordered, node, done, deps) && n in graph && n in deps && n !in done
    ensures Halfway(graph, ordered, node, done + [n], deps[n := deps[n] - {node}])
    ensures node !in deps[n] ==> Halfway(graph, ordered, node, done + [n], deps)
  {
  }

  /** The inner loop's state once `done` is dealt with. */
  ghost predicate Striking<K(!new)>(names: seq<K>, graph: map<K, set<K>>, ordered: seq<K>, node: K, done: seq<K>,
                                    deps: map<K, set<K>>, queue: seq<K>)
  {
    && deps.Keys == graph.Keys
    && Halfway(graph, ordered, node, done, deps)
    && Ready(names, deps, ordered + [node], queue)
    && (forall n :: n in ordered + [node] && n in deps ==> deps[n] == {})
  }

  lemma StartStriking<K(!new)>(names: seq<K>, graph: map<K, set<K>>, deps: map<K, set<K>>, queue: seq<K>, ordered: seq<K>)
    requires IsDepMap(names, graph) && Less(graph, ordered, deps)
    requires DependenciesFirst(graph, ordered)
    requires queue != [] && Ready(names, deps, ordered, queue)
    ensures Striking(names, graph, ordered, queue[0], [], deps, queue[1..])
  {
  }

  lemma Strike<K(!new)>(names: seq<K>, graph: map<K, set<K>>, ordered: seq<K>, node: K, i: nat,
                        deps: map<K, set<K>>, queue: seq<K>)
    requires IsDepMap(names, graph) && i < |names|
    requires Striking(names, graph, ordered, node, names[..i], deps, queue)
    ensures names[i] in graph
    ensures var n := names[i];
            if node in deps[n] then
              Striking(names, graph, ordered, node, names[..i + 1], deps[n := deps[n] - {node}],
                       if deps[n] - {node} == {} then queue + [n] else queue)
            else Striking(names, graph, ordered, node, names[..i + 1], deps, queue)
  {
    hide Halfway, Ready;
    var n := names[i];
    assert names[..i + 1] == names[..i] + [n];
    StrikeHalfway(graph, ordered, node, names[..i], deps, n);
    if node in deps[n] {
      StrikeReady(names, deps, ordered + [node], queue, n, node);
    }
  }

  /** The inner loop: strike `node`, the head of the queue, from every dependency set. */
  method Release<K(==,!new)>(names: seq<K>, graph: map<K, set<K>>, deps0: map<K, set<K>>, inDegree0: map<K, int>,
                 queue0: seq<K>, ordered: seq<K>)
    returns (deps: map<K, set<K>>, inDegree: map<K, int>, queue: seq<K>)
    requires IsDepMap(names, graph) && Tracks(graph, ordered, deps0, inDegree0)
    requires DependenciesFirst(graph, ordered)
    requires queue0 != [] && Ready(names, deps0, ordered, queue0)
    ensures Tracks(graph, ordered + [queue0[0]], deps, inDegree)
    ensures Ready(names, deps, ordered + [queue0[0]], queue)
    ensures NoEdges(graph) ==> queue == queue0[1..]
  {
    hide Ready, DependenciesFirst, Less, IsDepMap, Striking;
    var node := queue0[0];
    deps, inDegree, queue := deps0, inDegree0, queue0[1..];
    StartStriking(names, graph, deps, queue0, ordered);
    if NoEdges(graph) { NothingLess(graph, ordered, deps); }
    for i := 0 to |names|
      invariant Counts(graph, deps, inDegree)
      invariant Striking(names, graph, ordered, node, names[..i], deps, queue)
      invariant NoEdges(graph) ==> deps == graph && queue == queue0[1..]
    {
      var n := names[i];
      Strike(names, graph, ordered, node, i, deps, queue);
      if node in deps[n] {
        StrikeCounts(graph, deps, inDegree, n, node);
        deps := deps[n := deps[n] - {node}];
        inDegree := inDegree[n := inDegree[n] - 1];
        if inDegree[n] == 0 {
          queue := queue + [n];
        }
      }
    }
    assert names[..|names|] == names;
    AllStruck(names, graph, ordered, node, deps, queue);
  }

  lemma NothingLess<K(!new)>(graph: map<K, set<K>>, ordered: seq<K>, deps: map<K, set<K>>)
    requires NoEdges(graph) && Less(graph, ordered, deps)
    ensures deps == graph
  {
    forall n | n in deps ensures deps[n] == graph[n] {
      assert graph[n] == {};
    }
  }

  lemma AllStruck<K(!new)>(names: seq<K>, graph: map<K, set<K>>, ordered: seq<K>, node: K,
                           deps: map<K, set<K>>, queue: seq<K>)
    requires IsDepMap(names, graph) && Striking(names, graph, ordered, node, names, deps, queue)
    ensures Less(graph, ordered + [node], deps) && Ready(names, deps, ordered + [node], queue)
  {
  }

  /** Emitting a name whose dependencies are all out keeps the order right and makes progress. */
  lemma Emit<K(!new)>(names: seq<K>, graph: map<K, set<K>>, ordered: seq<K>, node: K)
    requires IsDepMap(names, graph) && node in names && node !in ordered
    requires NoDuplicates(ordered) && DependenciesFirst(graph, ordered) && forall d :: d in graph[node] ==> d in ordered
    ensures NoDuplicates(ordered + [node]) && DependenciesFirst(graph, ordered + [node])
    ensures Elements(names) - Elements(ordered + [node]) < Elements(names) - Elements(ordered)
  {
    var all := ordered + [node];
    forall i, d | 0 <= i < |all| && all[i] in graph && d in graph[all[i]] ensures d in all[..i] {
      assert all[..i] == ordered[..i];
    }
    assert node in Elements(names) && node in Elements(all) && Elements(ordered) <= Elements(all);
  }

  method Kahn<K(==,!new)>(names: seq<K>, graph: map<K, set<K>>) returns (ordered: seq<K>)
    requires IsDepMap(names, graph)
    ensures NoDuplicates(ordered) && forall n :: n in ordered ==> n in names
    ensures DependenciesFirst(graph, ordered) && StuckOutside(graph, ordered)
    ensures NoEdges(graph) ==> ordered == names
  {
    hide DependenciesFirst, StuckOutside, Ready, NoDuplicates, Elements, Waits, IsDepMap, Less, NoEdges;
    var deps := graph;
    var inDegree: map<K, int> := map n | n in deps :: |deps[n]|;
    var queue := FirstReady(names, graph, inDegree);
    ordered := [];
    EmptyOrder(graph);
    while queue != []
      invariant Tracks(graph, ordered, deps, inDegree)
      invariant Ready(names, deps, ordered, queue)
      invariant NoDuplicates(ordered) && forall n :: n in ordered ==> n in names
      invariant DependenciesFirst(graph, ordered)
      invariant NoEdges(graph) ==> ordered + queue == names
      decreases Elements(names) - Elements(ordered)
    {
      var node := queue[0];
      assert ordered + queue == (ordered + [node]) + queue[1..];
      HeadIsFree(names, graph, deps, ordered, queue);
      Emit(names, graph, ordered, node);
      deps, inDegree, queue := Release(names, graph, deps, inDegree, queue, ordered);
      ordered := ordered + [node];
    }
    assert ordered + [] == ordered;
    Leftover(names, graph, deps, ordered);
  }

  lemma HeadIsFree<K(!new)>(names: seq<K>, graph: map<K, set<K>>, deps: map<K, set<K>>, ordered: seq<K>, queue: seq<K>)
    requires IsDepMap(names, graph) && Less(graph, ordered, deps)
    requires queue != [] && Ready(names, deps, ordered, queue)
    ensures queue[0] in names && queue[0] !in ordered && forall d :: d in graph[queue[0]] ==> d in ordered
  {
    var node := queue[0];
    forall d | d in graph[node] ensures d in ordered {
      assert d !in deps[node];
    }
  }

  /** When the queue runs empty, every name not emitted still waits. */
  lemma Leftover<K(!new)>(names: seq<K>, graph: map<K, set<K>>, deps: map<K, set<K>>, ordered: seq<K>)
    requires IsDepMap(names, graph) && Less(graph, ordered, deps)
    requires Ready(names, deps, ordered, [])
    ensures StuckOutside(graph, ordered)
  {
  }

  lemma EmptyOrder<K(!new)>(graph: map<K, set<K>>)
    ensures DependenciesFirst(graph, []) && NoDuplicates<K>([])
    ensures Less(graph, [], graph)
  {
  }

  lemma ReadyNext<K(!new)>(names: seq<K>, graph: map<K, set<K>>, i: nat, queue: seq<K>)
    requires IsDepMap(names, graph) && i < |names|
    requires Ready(names[..i], graph, [], queue)
    ensures names[i] in graph
    ensures Ready(names[..i + 1], graph, [], if graph[names[i]] == {} then queue + [names[i]] else queue)
  {
  }

  /** The initial queue: every name without dependencies, in declaration order. */
  method FirstReady<K(==,!new)>(names: seq<K>, graph: map<K, set<K>>, inDegree: map<K, int>) returns (queue: seq<K>)
    requires IsDepMap(names, graph) && Counts(graph, graph, inDegree)
    ensures Ready(names, graph, [], queue)
    ensures NoEdges(graph) ==> queue == names
  {
    hide IsDepMap, Ready;
    queue := [];
    assert Ready(names[..0], graph, [], queue) by { NothingReady(graph); }
    for i := 0 to |names|
      invariant Ready(names[..i], graph, [], queue)
      invariant NoEdges(graph) ==> queue == names[..i]
    {
      ReadyNext(names, graph, i, queue);
      if inDegree[names[i]] == 0 {
        queue := queue + [names[i]];
      }
    }
    assert names[..|names|] == names;
  }

  lemma NothingReady<K(!new)>(graph: map<K, set<K>>)
    ensures Ready<K>([], graph, [], [])
  {
  }

  function Position<K(==,!new)>(s: seq<K>, x: K): (i: nat)
    requires x in s
    ensures i < |s| && s[i] == x
    ensures forall k :: 0 <= k <= |s| && x in s[..k] ==> i < k
  {
    if s[0] == x then 0
    else
      assert forall k :: 0 < k <= |s| ==> s[1..][..k - 1] == s[..k][1..];
      1 + Position(s[1..], x)
  }

  /** Along a walk of dependencies, positions in a sound order only go down. */
  lemma {:induction false} WalkDescends<K(!new)>(graph: map<K, set<K>>, ordered: seq<K>, walk: seq<K>, k: nat)
    requires DependenciesFirst(graph, ordered) && forall n :: n in graph ==> n in ordered
    requires IsCycle(graph, walk) && k < |walk|
    ensures Position(ordered, walk[k]) + k <= Position(ordered, walk[0])
  {
    if k > 0 {
      WalkDescends(graph, ordered, walk, k - 1);
      assert walk[k] in graph[walk[k - 1]];
      assert walk[k] in ordered[..Position(ordered, walk[k - 1])];
    }
  }

  lemma CompleteMeansAcyclic<K(!new)>(graph: map<K, set<K>>, ordered: seq<K>)
    requires DependenciesFirst(graph, ordered) && forall n :: n in graph ==> n in ordered
    ensures !Cyclic(graph)
  {
    forall walk | IsCycle(graph, walk) ensures false {
      WalkDescends(graph, ordered, walk, |walk| - 1);
    }
  }

  /** From a name left out one can walk on through names left out, as far as one likes. */
  lemma {:induction false} StuckWalk<K(!new)>(names: seq<K>, graph: map<K, set<K>>, ordered: seq<K>, n: K, steps: nat)
    returns (walk: seq<K>)
    requires IsDepMap(names, graph) && StuckOutside(graph, ordered) && n in graph && n !in ordered
    ensures |walk| == steps + 1 && walk[0] == n
    ensures forall i :: 0 <= i <= steps ==> walk[i] in graph
    ensures forall i :: 0 <= i < steps ==> walk[i + 1] in graph[walk[i]]
  {
    walk := [n];
    if steps > 0 {
      assert Waits(graph, ordered, n);
      var d :| d in graph[n] && d !in ordered;
      var rest := StuckWalk(names, graph, ordered, d, steps - 1);
      walk := [n] + rest;
    }
  }

  lemma IncompleteMeansCyclic<K(!new)>(names: seq<K>, graph: map<K, set<K>>, ordered: seq<K>, n: K)
    requires IsDepMap(names, graph) && StuckOutside(graph, ordered) && n in graph && n !in ordered
    ensures Cyclic(graph)
  {
    var walk := StuckWalk(names, graph, ordered, n, |graph.Keys|);
    hide IsDepMap;
    var i, j := Repeats(walk, graph.Keys);
    var cycle := walk[i..j + 1];
    forall k | 0 <= k < |cycle| - 1 ensures cycle[k + 1] in graph[cycle[k]] {
      assert walk[i + k + 1] in graph[walk[i + k]];
    }
    assert IsCycle(graph, cycle);
  }

  /** The length test succeeds exactly when the dependencies have no cycle. */
  lemma LengthDecides<K(!new)>(names: seq<K>, graph: map<K, set<K>>, ordered: seq<K>)
    requires IsDepMap(names, graph) && NoDuplicates(ordered) && forall n :: n in ordered ==> n in names
    requires DependenciesFirst(graph, ordered) && StuckOutside(graph, ordered)
    ensures |ordered| == |names| <==> !Cyclic(graph)
    ensures |ordered| == |names| ==> forall n :: n in names ==> n in ordered
  {
    hide DependenciesFirst, StuckOutside;
    DistinctFit(ordered, graph.Keys);
    DistinctCount(names);
    assert (set n | n in names) == graph.Keys;
    if |ordered| == |names| {
      CompleteMeansAcyclic(graph, ordered);
    } else {
      var n := LeftOut(ordered, graph.Keys);
      IncompleteMeansCyclic(names, graph, ordered, n);
    }
  }

  /** The dependency graph of the class, by attribute name. */
  function Dependencies(all: seq<BeanMethod>, ms: seq<BeanMethod>): map<string, set<string>> {
    if ms == [] then map[]
    else
      var last := ms[|ms| - 1];
      Dependencies(all, ms[..|ms| - 1])[last.name := DependsOn(all, last)]
  }

  ghost predicate IsProducerMap(ms: seq<BeanMethod>, producers: map<TypeId, string>) {
    forall t :: Producer(ms, t) == if t in producers then Some(producers[t]) else None
  }

  lemma {:induction false} DependenciesAt(all: seq<BeanMethod>, ms: seq<BeanMethod>, k: nat)
    requires NoDuplicates(Names(ms)) && k < |ms|
    ensures ms[k].name in Dependencies(all, ms) && Dependencies(all, ms)[ms[k].name] == DependsOn(all, ms[k])
  {
    if k < |ms| - 1 {
      var rest := ms[..|ms| - 1];
      assert forall i :: 0 <= i < |rest| ==> Names(rest)[i] == Names(ms)[i];
      DependenciesAt(all, rest, k);
      assert Names(ms)[k] != Names(ms)[|ms| - 1];
    }
  }

  lemma {:induction false} ProducerNamed(ms: seq<BeanMethod>, t: TypeId)
    ensures Producer(ms, t).Some? ==> Producer(ms, t).value in Names(ms)
  {
    if ms != [] {
      ProducerNamed(ms[..|ms| - 1], t);
      assert Names(ms) == Names(ms[..|ms| - 1]) + [ms[|ms| - 1].name];
    }
  }

  lemma {:induction false} DependenciesClosed(all: seq<BeanMethod>, ms: seq<BeanMethod>)
    ensures forall n :: n in Dependencies(all, ms) <==> n in Names(ms)
    ensures forall n :: n in Dependencies(all, ms) ==> forall d :: d in Dependencies(all, ms)[n] ==> d in Names(all)
  {
    if ms != [] {
      var rest, last := ms[..|ms| - 1], ms[|ms| - 1];
      DependenciesClosed(all, rest);
      assert Names(ms) == Names(rest) + [last.name];
      forall t | t in last.params { ProducerNamed(all, t); }
    }
  }

  lemma GraphOf(ms: seq<BeanMethod>)
    requires NoDuplicates(Names(ms))
    ensures IsDepMap(Names(ms), Dependencies(ms, ms))
  {
    DependenciesClosed(ms, ms);
  }

  method FindProducers(ms: seq<BeanMethod>) returns (producers: map<TypeId, string>)
    ensures IsProducerMap(ms, producers)
  {
    producers := map[];
    for i := 0 to |ms|
      invariant IsProducerMap(ms[..i], producers)
    {
      assert ms[..i + 1][..i] == ms[..i];
      if ms[i].produces.Some? {
        producers := producers[ms[i].produces.value := ms[i].name];
      }
    }
    assert ms[..|ms|] == ms;
  }

  method FindDependencies(ms: seq<BeanMethod>, m: BeanMethod, producers: map<TypeId, string>) returns (found: set<string>)
    requires IsProducerMap(ms, producers)
    ensures found == DependsOn(ms, m)
  {
    found := {};
    for i := 0 to |m.params|
      invariant found == ProducersOf(ms, m.name, m.params[..i])
    {
      var t := m.params[i];
      assert m.params[..i + 1] == m.params[..i] + [t];
      assert Producer(ms, t) == if t in producers then Some(producers[t]) else None;
      if t in producers && producers[t] != m.name {
        found := found + {producers[t]};
      }
    }
    assert m.params[..|m.params|] == m.params;
  }

  method BuildGraph(ms: seq<BeanMethod>) returns (deps: map<string, set<string>>)
    ensures deps == Dependencies(ms, ms)
  {
    var producers := FindProducers(ms);
    deps := map[];
    for i := 0 to |ms|
      invariant deps == Dependencies(ms, ms[..i])
    {
      assert ms[..i + 1][..i] == ms[..i];
      var found := FindDependencies(ms, ms[i], producers);
      deps := deps[ms[i].name := found];
    }
    assert ms[..|ms|] == ms;
  }

  function Named(ms: seq<BeanMethod>, name: string): (m: BeanMethod)
    requires name in Names(ms)
    ensures m in ms && m.name == name
  {
    if ms[0].name == name then ms[0]
    else
      assert Names(ms) == [ms[0].name] + Names(ms[1..]);
      Named(ms[1..], name)
  }

  lemma {:induction false} NamedUnique(ms: seq<BeanMethod>, k: nat)
    requires NoDuplicates(Names(ms)) && k < |ms|
    ensures ms[k].name in Names(ms) && Named(ms, ms[k].name) == ms[k]
  {
    assert Names(ms)[k] == ms[k].name;
    var m := Named(ms, ms[k].name);
    var j :| 0 <= j < |ms| && ms[j] == m;
    assert Names(ms)[j] == Names(ms)[k];
  }

  /** Looking the names of a complete order up again gives a permutation of the methods. */
  lemma SortedMethods(ms: seq<BeanMethod>, ordered: seq<string>, r: seq<BeanMethod>)
    requires NoDuplicates(Names(ms)) && NoDuplicates(ordered)
    requires forall n :: n in ordered <==> n in Names(ms)
    requires |r| == |ordered| && forall i :: 0 <= i < |r| ==> r[i] == Named(ms, ordered[i])
    ensures multiset(r) == multiset(ms)
    ensures Names(r) == ordered
    ensures ordered == Names(ms) ==> r == ms
  {
    forall i, j | 0 <= i < j < |ms| ensures ms[i] != ms[j] {
      assert Names(ms)[i] != Names(ms)[j];
    }
    forall m | m in ms ensures m in r {
      var k :| 0 <= k < |ms| && ms[k] == m;
      NamedUnique(ms, k);
      assert m.name in ordered;
      var i :| 0 <= i < |ordered| && ordered[i] == m.name;
      assert r[i] == m;
    }
    SameElements(r, ms);
    if ordered == Names(ms) {
      forall k | 0 <= k < |ms| ensures r[k] == ms[k] { NamedUnique(ms, k); }
    }
  }

  /** In the sorted list every method comes after the producers of its parameters. */
  lemma ProducersFirst(ms: seq<BeanMethod>, ordered: seq<string>, r: seq<BeanMethod>)
    requires NoDuplicates(Names(ms)) && Names(r) == ordered && forall m :: m in r ==> m in ms
    requires DependenciesFirst(Dependencies(ms, ms), ordered)
    ensures forall i, d :: 0 <= i < |r| && d in DependsOn(ms, r[i]) ==> d in Names(r[..i])
  {
    forall i, d | 0 <= i < |r| && d in DependsOn(ms, r[i]) ensures d in Names(r[..i]) {
      assert r[i] in ms && Names(r)[i] == r[i].name;
      var k :| 0 <= k < |ms| && ms[k] == r[i];
      DependenciesAt(ms, ms, k);
      assert d in ordered[..i];
      assert Names(r[..i]) == Names(r)[..i];
    }
  }

  /** Topologically sorted when that is possible, and otherwise, or when nothing depends on anything, untouched. */
  method SortBeanMethods(ms: seq<BeanMethod>) returns (r: seq<BeanMethod>)
    requires NoDuplicates(Names(ms))
    ensures multiset(r) == multiset(ms)
    ensures !Cyclic(Dependencies(ms, ms)) ==>
              forall i, d :: 0 <= i < |r| && d in DependsOn(ms, r[i]) ==> d in Names(r[..i])
    ensures Cyclic(Dependencies(ms, ms)) || NoEdges(Dependencies(ms, ms)) ==> r == ms
  {
    hide DependenciesFirst, StuckOutside, NoEdges, Cyclic, NoDuplicates, DependsOn, Dependencies, IsDepMap;
    var graph := BuildGraph(ms);
    GraphOf(ms);
    var ordered := Kahn(Names(ms), graph);
    LengthDecides(Names(ms), graph, ordered);
    if |ordered| != |ms| {
      return ms;
    }
    r := seq(|ordered|, i requires 0 <= i < |ordered| => Named(ms, ordered[i]));
    SortedMethods(ms, ordered, r);
    ProducersFirst(ms, ordered, r);
  }
}
