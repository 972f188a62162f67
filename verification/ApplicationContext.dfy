/** Startup: the context's own beans, `@configuration` classes with their factory methods, and the eager pass. */
module ApplicationContext {
  import opened Wrappers
  import opened BeanGraph
  import opened Rewiring
  import Container

  const CONFIG: TypeId := "Config"
  const CONTAINER: TypeId := "Container"

  datatype Bean = Bean(cls: TypeId, scope: Scope, name: string)

  /** A `@bean` method; `produces` is the class of what it returns, `returnType` its annotation. */
  datatype BeanMethod = BeanMethod(
    params: seq<Param>, scope: Scope, beanName: string, produces: TypeId, returnType: Option<TypeId>)

  datatype Configuration = Configuration(cls: TypeId, methods: seq<BeanMethod>)

  // ---- Startup on graphs ----

  /** How far startup is: the bean graph, the types handed in, and what has been reached by building. */
  datatype Stage = Stage(classes: map<TypeId, ClassDef>, graph: Graph, given: set<TypeId>, zone: set<TypeId>)
  {
    function BeanName(cls: TypeId, name: string): string {
      if name != "" then name else ClassOf(classes, cls).beanName
    }

    function Enter(cls: TypeId, name: string): Stage {
      Stage(classes, Enrolled(graph, cls, ClassOf(classes, cls), BeanName(cls, name)), given - {cls}, zone)
    }

    function Give(cls: TypeId, name: string): Stage {
      if ClassOf(classes, cls).scope.GetOr(Singleton).Singleton? then
        Stage(classes, Enrolled(graph, cls, Opaque(ClassOf(classes, cls)), BeanName(cls, name)), given + {cls}, zone + {cls})
      else Enter(cls, name)
    }

    function Publish(cls: TypeId, scope: Scope, name: string): Stage {
      if scope.Singleton? then Give(cls, name) else Enter(cls, name)
    }

    function BindTo(interface: TypeId, impl: TypeId): Stage {
      this.(graph := Bound(graph, interface, impl))
    }

    ghost function Ask(wanted: set<TypeId>): Stage {
      this.(zone := zone + Reach(graph, wanted))
    }

    /** What has been built so far stays as it is. */
    ghost predicate Keeps(next: Stage) {
      Undisturbed(graph, next.graph, zone)
    }

    ghost predicate MayPublish(cls: TypeId, scope: Scope, name: string) {
      Keeps(Publish(cls, scope, name)) && (scope.Singleton? ==> cls in given || cls !in Known(graph))
    }
  }

  function Unopened(classes: map<TypeId, ClassDef>): Stage {
    Stage(classes, Graph({}, map[], map[], classes), {}, {})
  }

  function Opening(classes: map<TypeId, ClassDef>): Stage {
    Unopened(classes).Give(CONFIG, "").Give(CONTAINER, "")
  }

  function AfterBeans(s: Stage, beans: seq<Bean>): Stage {
    if beans == [] then s
    else AfterBeans(s, beans[..|beans| - 1]).Enter(beans[|beans| - 1].cls, beans[|beans| - 1].name)
  }

  /** The result, its binding to the return type, and the registration of the return type itself. */
  function AfterResult(s: Stage, m: BeanMethod, returnType: TypeId): Stage {
    var bound := AfterBinding(s, m, returnType);
    if returnType in bound.graph.registered then bound else bound.Publish(returnType, m.scope, "")
  }

  function AfterBinding(s: Stage, m: BeanMethod, returnType: TypeId): Stage {
    var published := s.Publish(m.produces, m.scope, m.beanName);
    if returnType == m.produces then published else published.BindTo(returnType, m.produces)
  }

  ghost predicate SafeResult(s: Stage, m: BeanMethod, returnType: TypeId) {
    var bound := AfterBinding(s, m, returnType);
    && s.MayPublish(m.produces, m.scope, m.beanName)
    && s.Publish(m.produces, m.scope, m.beanName).Keeps(bound)
    && (returnType in bound.graph.registered || bound.MayPublish(returnType, m.scope, ""))
  }

  ghost function ArgRequests(g: Graph, params: seq<Param>): set<TypeId> {
    set p, t | p in params && t in Requests(g, p.annotation) :: t
  }

  ghost function Called(s: Stage, m: BeanMethod): Stage {
    s.Ask(ArgRequests(s.graph, m.params))
  }

  ghost function AfterMethod(s: Stage, m: BeanMethod): Stage {
    if m.returnType.None? then s else AfterResult(Called(s, m), m, m.returnType.value)
  }

  ghost predicate SafeMethod(s: Stage, m: BeanMethod) {
    m.returnType.Some? ==> SafeResult(Called(s, m), m, m.returnType.value)
  }

  /** Every argument of the method is found. */
  ghost predicate Callable(s: Stage, owner: TypeId, m: BeanMethod) {
    m.returnType.Some? ==>
      var args := Args(s.graph, Limit(s.graph), owner, m.params);
      args.Ends? && args.result.Ok?
  }

  ghost function AfterMethods(s: Stage, ms: seq<BeanMethod>): Stage {
    if ms == [] then s else AfterMethod(AfterMethods(s, ms[..|ms| - 1]), ms[|ms| - 1])
  }

  ghost function Resolved(s: Stage, c: Configuration): Stage {
    s.Ask(Chosen(Candidate(s.graph, c.cls)))
  }

  ghost function AfterConfiguration(s: Stage, c: Configuration): Stage {
    AfterMethods(Resolved(s, c), c.methods)
  }

  ghost predicate SafeConfiguration(s: Stage, c: Configuration) {
    forall i :: 0 <= i < |c.methods| ==> SafeMethod(AfterMethods(Resolved(s, c), c.methods[..i]), c.methods[i])
  }

  ghost predicate Resolvable(s: Stage, cls: TypeId) {
    ByType(s.graph, Limit(s.graph), cls).Ends? && ByType(s.graph, Limit(s.graph), cls).result.Ok?
  }

  /** The configuration class can be built, and each of its methods called when its turn comes. */
  ghost predicate Runs(s: Stage, c: Configuration) {
    && Resolvable(s, c.cls)
    && forall i :: 0 <= i < |c.methods| ==> Callable(AfterMethods(Resolved(s, c), c.methods[..i]), c.cls, c.methods[i])
  }

  ghost function AfterConfigurations(s: Stage, cs: seq<Configuration>): Stage {
    if cs == [] then s else AfterConfiguration(AfterConfigurations(s, cs[..|cs| - 1]), cs[|cs| - 1])
  }

  ghost predicate SafeConfigurations(s: Stage, cs: seq<Configuration>) {
    forall i :: 0 <= i < |cs| ==> SafeConfiguration(AfterConfigurations(s, cs[..i]), cs[i])
  }

  ghost predicate AllRun(s: Stage, cs: seq<Configuration>) {
    forall i :: 0 <= i < |cs| ==> Runs(AfterConfigurations(s, cs[..i]), cs[i])
  }

  // ---- When a factory result disturbs nothing ----

  /** Nobody has heard of the type. */
  ghost predicate New(s: Stage, t: TypeId) {
    t !in s.zone && t !in Known(s.graph) && Unbound(s.graph, t)
  }

  ghost predicate Unasked(s: Stage, t: TypeId, name: string) {
    forall c :: c in s.zone ==> !ClassAsks(s.graph, c, t, s.BeanName(t, name))
  }

  lemma UnaskedPublish(s: Stage, t: TypeId, scope: Scope, name: string)
    requires Closed(s.graph, s.zone) && New(s, t) && Unasked(s, t, name)
    ensures s.MayPublish(t, scope, name)
    ensures var next := s.Publish(t, scope, name);
      && Closed(next.graph, next.zone) && next.zone <= s.zone + {t} && next.classes == s.classes
      && next.graph.bindings == s.graph.bindings && Known(next.graph) <= Known(s.graph) + {t}
      && forall c :: c in next.zone ==>
           next.graph.Class(c) == if c == t then Opaque(ClassOf(s.classes, t)) else s.graph.Class(c)
  {
    hide Closed, Undisturbed, ClassAsks;
    var next := s.Publish(t, scope, name);
    var def := next.graph.Class(t);
    assert next.graph == Enrolled(s.graph, t, def, s.BeanName(t, name));
    UnaskedUndisturbed(s.graph, s.zone, t, def, s.BeanName(t, name));
    StillClosed(s.graph, next.graph, s.zone);
    if next.zone != s.zone {
      NoDeps(next.graph, t);
      ClosedWith(next.graph, s.zone, t);
    }
  }

  /** A result of a new class disturbs nothing when nobody built so far asks for it, or for the return type. */
  lemma UnaskedResult(s: Stage, m: BeanMethod, returnType: TypeId)
    requires Closed(s.graph, s.zone)
    requires New(s, m.produces) && Unasked(s, m.produces, m.beanName)
    requires returnType != m.produces ==>
               && (returnType in s.graph.registered || New(s, returnType)) && Unasked(s, returnType, "")
               && forall c :: c in s.zone ==> !ClassWants(s.graph, c, returnType)
    ensures SafeResult(s, m, returnType)
  {
    hide Closed, Undisturbed, Deps;
    var published, bound := s.Publish(m.produces, m.scope, m.beanName), AfterBinding(s, m, returnType);
    UnaskedPublish(s, m.produces, m.scope, m.beanName);
    if returnType == m.produces {
      SameKept(published);
    } else {
      UnwantedUndisturbed(published.graph, published.zone, returnType, m.produces);
      StillClosed(published.graph, bound.graph, published.zone);
      if returnType !in bound.graph.registered {
        assert New(bound, returnType);
        UnaskedPublish(bound, returnType, m.scope, "");
      }
    }
  }

  lemma {:induction false} SameAsked(g: Graph, a: Annotation)
    ensures SameRequests(g, g, a)
  {
    if a.Annotated? && a.qualifier.None? { SameAsked(g, a.base); }
  }

  lemma SameKept(s: Stage)
    requires Closed(s.graph, s.zone)
    ensures s.Keeps(s)
  {
    hide Closed, SameRequests;
    forall a ensures SameRequests(s.graph, s.graph, a) { SameAsked(s.graph, a); }
  }

  // ---- Startup on the container ----

  /** The container is valid, idle, and where `s` says. */
  ghost predicate Stands(container: Container.Container, s: Stage)
    reads container, container.regs
  {
    && container.Valid() && container.resolving == [] && container.classes == s.classes
    && container.Wiring() == s.graph && container.zone == s.zone
    && (forall t :: container.IsOpaque(t) <==> t in s.given)
  }

  method PublishBean(container: Container.Container, cls: TypeId, scope: Scope, name: string, ghost s: Stage)
    requires Stands(container, s) && s.MayPublish(cls, scope, name)
    modifies container
    ensures Stands(container, s.Publish(cls, scope, name))
    ensures fresh(container.regs - old(container.regs))
    ensures cls in container.registrations
    ensures container.registrations == old(container.registrations)[cls := container.registrations[cls]]
    ensures container.registrations[cls].instance == if scope.Singleton? then Some(Obj(cls, [], [])) else None
  {
    hide Undisturbed, Known, Opaque, Enrolled;
    hide Container.Container.Wired, Container.Container.Handed, Container.Container.CacheSound, Container.Container.BuiltOnce;
    hide Container.Container.Zoned, Container.Container.Wiring, Container.Container.IsOpaque, StackSound;
    if scope.Singleton? {
      container.HandIn(cls, name);
    } else {
      container.Register(cls, scope, name);
    }
  }

  lemma OpaqueKept(s: Stage, next: Stage)
    requires Closed(s.graph, s.zone)
    requires forall c :: c in s.zone ==> next.graph.Class(c) == s.graph.Class(c)
    requires forall c :: c in s.zone ==> s.graph.Class(c).params == [] && s.graph.Class(c).fields == []
    ensures s.Keeps(next)
  {
  }

  /** Nothing that was handed in can be changed by registering another type. */
  lemma BeansKept(s: Stage, t: TypeId, name: string)
    requires Closed(s.graph, s.zone) && t !in s.zone
    requires forall c :: c in s.zone ==> s.graph.Class(c).params == [] && s.graph.Class(c).fields == []
    ensures s.Keeps(s.Enter(t, name)) && s.Keeps(s.Give(t, name))
  {
    hide Undisturbed, Closed;
    OpaqueKept(s, s.Enter(t, name));
    OpaqueKept(s, s.Give(t, name));
  }

  lemma OpeningSafe(classes: map<TypeId, ClassDef>)
    ensures Unopened(classes).MayPublish(CONFIG, Singleton, "")
    ensures Unopened(classes).Give(CONFIG, "").MayPublish(CONTAINER, Singleton, "")
    ensures Opening(classes).zone <= {CONFIG, CONTAINER} && Closed(Opening(classes).graph, Opening(classes).zone)
    ensures forall c :: c in Opening(classes).zone ==>
              Opening(classes).graph.Class(c).params == [] && Opening(classes).graph.Class(c).fields == []
  {
    var s := Unopened(classes).Give(CONFIG, "");
    assert s.zone <= {CONFIG} && Known(s.graph) <= {CONFIG};
    BeansKept(Unopened(classes), CONFIG, "");
    forall c | c in s.zone ensures Deps(s.graph, c) == {} { NoDeps(s.graph, c); }
    BeansKept(s, CONTAINER, "");
    forall c | c in Opening(classes).zone ensures Deps(Opening(classes).graph, c) == {} { NoDeps(Opening(classes).graph, c); }
  }

  /** `__init__`: the configuration and the container itself are there from the start. */
  method NewContext(classes: map<TypeId, ClassDef>) returns (container: Container.Container)
    ensures Stands(container, Opening(classes)) && fresh(container) && fresh(container.regs)
    ensures CONFIG in container.registrations && container.registrations[CONFIG].instance == Some(Obj(CONFIG, [], []))
    ensures CONTAINER in container.registrations && container.registrations[CONTAINER].instance == Some(Obj(CONTAINER, [], []))
  {
    hide Undisturbed, Known, Opaque, Enrolled, Stage.MayPublish, Stage.Give;
    hide Container.Container.Valid, Container.Container.Wiring;
    container := new Container.Container(classes);
    OpeningSafe(classes);
    PublishBean(container, CONFIG, Singleton, "", Unopened(classes));
    PublishBean(container, CONTAINER, Singleton, "", Unopened(classes).Give(CONFIG, ""));
  }

  ghost predicate SafeBeans(s: Stage, beans: seq<Bean>) {
    forall i :: 0 <= i < |beans| ==> AfterBeans(s, beans[..i]).Keeps(AfterBeans(s, beans[..i + 1]))
  }

  method RegisterBeans(container: Container.Container, beans: seq<Bean>, ghost s: Stage)
    requires Stands(container, s) && SafeBeans(s, beans)
    modifies container
    ensures Stands(container, AfterBeans(s, beans))
    ensures fresh(container.regs - old(container.regs))
  {
    hide Undisturbed, Known, Opaque, Enrolled;
    hide Container.Container.Wired, Container.Container.Handed, Container.Container.CacheSound, Container.Container.BuiltOnce;
    hide Container.Container.Zoned, Container.Container.Wiring, Container.Container.IsOpaque, StackSound;
    for i := 0 to |beans|
      invariant Stands(container, AfterBeans(s, beans[..i]))
      invariant fresh(container.regs - old(container.regs))
    {
      assert beans[..i + 1][..i] == beans[..i];
      container.Register(beans[i].cls, beans[i].scope, beans[i].name);
    }
    assert beans[..|beans|] == beans;
  }

  /** What building `wanted` can lead to may always be added to the zone. */
  lemma Asked(container: Container.Container, wanted: set<TypeId>)
    requires container.Valid()
    ensures wanted <= Reach(container.Wiring(), wanted)
    ensures Closed(container.Wiring(), container.zone + Reach(container.Wiring(), wanted))
  {
    hide Closed, Reach;
    hide Container.Container.Wired, Container.Container.Handed, Container.Container.CacheSound, Container.Container.BuiltOnce;
    hide Container.Container.Wiring, Container.Container.IsOpaque, StackSound;
    ReachClosed(container.Wiring(), wanted);
    ClosedUnion(container.Wiring(), container.zone, Reach(container.Wiring(), wanted));
  }

  /** `get_bean`: from every valid idle container the plain outcome, or the circular error when that never ends. */
  method GetBean(container: Container.Container, cls: TypeId) returns (r: Res<Obj>)
    requires container.Valid() && container.resolving == []
    modifies container`resolving, container`creations, container`zone, container.regs
    ensures container.Valid() && container.Steady()
    ensures r.Err? && r.error.InCreation? <==> ByType(container.Wiring(), Limit(container.Wiring()), cls).Diverges?
    ensures !(r.Err? && r.error.InCreation?) ==> ByType(container.Wiring(), Limit(container.Wiring()), cls) == Ends(r)
    ensures r.Ok? && cls in container.registrations && container.registrations[cls].scope.Singleton? ==>
              container.registrations[cls].instance == Some(r.value)
  {
    hide Undisturbed, Reach, Stuck, RealCycle, Candidate, PlainBuild, Deps;
    hide Container.Container.Valid, Container.Container.Wiring, Container.Container.IsOpaque;
    ghost var g, impl := container.Wiring(), Candidate(container.Wiring(), cls);
    Asked(container, Chosen(impl));
    container.Widen(container.zone + Reach(g, Chosen(impl)));
    r := container.Resolve(cls);
    container.CircularIffEndless(r, impl);
  }

  method GetBeanByName(container: Container.Container, name: string) returns (r: Res<Obj>)
    requires container.Valid() && container.resolving == []
    modifies container`resolving, container`creations, container`zone, container.regs
    ensures container.Valid() && container.Steady()
    ensures r.Err? && r.error.InCreation? <==> ByName(container.Wiring(), Limit(container.Wiring()), name).Diverges?
    ensures !(r.Err? && r.error.InCreation?) ==> ByName(container.Wiring(), Limit(container.Wiring()), name) == Ends(r)
  {
    hide Undisturbed, Reach, Stuck, RealCycle, Named, PlainBuild, Deps;
    hide Container.Container.Valid, Container.Container.Wiring, Container.Container.IsOpaque;
    ghost var g, impl := container.Wiring(), Named(container.Wiring(), name);
    Asked(container, Chosen(impl));
    container.Widen(container.zone + Reach(g, Chosen(impl)));
    r := container.ResolveByName(name);
    container.CircularIffEndless(r, impl);
  }

  /** The result under its own class, bound to the return type, and under the return type if that is still free. */
  method PublishResult(container: Container.Container, m: BeanMethod, returnType: TypeId, ghost s: Stage)
    requires Stands(container, s) && SafeResult(s, m, returnType)
    modifies container
    ensures Stands(container, AfterResult(s, m, returnType))
    ensures fresh(container.regs - old(container.regs))
  {
    hide Undisturbed, Known, Opaque, Enrolled, Stage.Enter, Stage.Give, Stage.Publish, Bound;
    hide Container.Container.Wired, Container.Container.Handed, Container.Container.CacheSound, Container.Container.BuiltOnce;
    hide Container.Container.Zoned, Container.Container.Wiring, Container.Container.IsOpaque, StackSound;
    PublishBean(container, m.produces, m.scope, m.beanName, s);
    if returnType != m.produces {
      container.Bind(returnType, m.produces);
    }
    container.WiredParts();
    if returnType !in container.registrations {
      PublishBean(container, returnType, m.scope, "", AfterBinding(s, m, returnType));
    }
  }

  lemma FoundIff(g: Graph, r: Res<seq<(string, Value)>>, owner: TypeId, params: seq<Param>)
    requires r.Err? && r.error.InCreation? ==> Stuck(g, [], r.error.current, ArgsQuery(owner, params))
    requires !(r.Err? && r.error.InCreation?) ==> Args(g, Limit(g), owner, params) == Ends(r)
    ensures r.Ok? <==> Args(g, Limit(g), owner, params).Ends? && Args(g, Limit(g), owner, params).result.Ok?
  {
    if r.Err? && r.error.InCreation? {
      StuckForGood(g, r.error.current, ArgsQuery(owner, params));
    }
  }

  /** One factory method: inject, call, publish the result. */
  method ProcessMethod(container: Container.Container, owner: TypeId, m: BeanMethod, ghost s: Stage) returns (r: Res<()>)
    requires Stands(container, s) && SafeMethod(s, m)
    modifies container, container.regs
    ensures r.Ok? ==> Stands(container, AfterMethod(s, m))
    ensures r.Ok? <==> Callable(s, owner, m)
    ensures fresh(container.regs - old(container.regs))
  {
    hide Undisturbed, Known, Opaque, Enrolled, Reach, Args, Stuck, RealCycle, Requests;
    hide Container.Container.Valid, Container.Container.Wiring, Container.Container.IsOpaque;
    if m.returnType.None? {
      return Ok(());
    }
    var returnType := m.returnType.value;
    ghost var called := Called(s, m);
    Asked(container, ArgRequests(s.graph, m.params));
    container.Widen(called.zone);
    forall p | p in m.params ensures container.MayRequest(Requests(container.Wiring(), p.annotation)) {
      assert Requests(s.graph, p.annotation) <= ArgRequests(s.graph, m.params);
    }
    var kwargs := container.ResolveArgs(owner, m.params);
    FoundIff(s.graph, kwargs, owner, m.params);
    if kwargs.Err? {
      return Err(kwargs.error);
    }
    PublishResult(container, m, returnType, called);
    r := Ok(());
  }

  /** A `@configuration` class: resolve it, then its factory methods one by one. */
  method ProcessConfiguration(container: Container.Container, c: Configuration, ghost s: Stage) returns (r: Res<()>)
    requires Stands(container, s) && SafeConfiguration(s, c)
    modifies container, container.regs
    ensures r.Ok? ==> Stands(container, AfterConfiguration(s, c))
    ensures r.Ok? <==> Runs(s, c)
    ensures fresh(container.regs - old(container.regs))
  {
    hide Resolvable, Resolved, SafeMethod, AfterMethods, Callable, Stands;
    var o := ResolveConfiguration(container, c, s);
    if o.Err? {
      return Err(o.error);
    }
    r := ProcessMethods(container, c.cls, c.methods, Resolved(s, c));
  }

  method ProcessMethods(container: Container.Container, owner: TypeId, ms: seq<BeanMethod>, ghost s: Stage) returns (r: Res<()>)
    requires Stands(container, s) && forall i :: 0 <= i < |ms| ==> SafeMethod(AfterMethods(s, ms[..i]), ms[i])
    modifies container, container.regs
    ensures r.Ok? ==> Stands(container, AfterMethods(s, ms))
    ensures r.Ok? <==> forall i :: 0 <= i < |ms| ==> Callable(AfterMethods(s, ms[..i]), owner, ms[i])
    ensures fresh(container.regs - old(container.regs))
  {
    hide SafeMethod, AfterMethod, Callable, Stands;
    for i := 0 to |ms|
      invariant Stands(container, AfterMethods(s, ms[..i]))
      invariant fresh(container.regs - old(container.regs))
      invariant forall j :: 0 <= j < i ==> Callable(AfterMethods(s, ms[..j]), owner, ms[j])
    {
      assert ms[..i + 1][..i] == ms[..i];
      r := ProcessMethod(container, owner, ms[i], AfterMethods(s, ms[..i]));
      if r.Err? {
        return;
      }
    }
    assert ms[..|ms|] == ms;
    r := Ok(());
  }

  method ResolveConfiguration(container: Container.Container, c: Configuration, ghost s: Stage) returns (o: Res<Obj>)
    requires Stands(container, s)
    modifies container, container.regs
    ensures o.Ok? <==> Resolvable(s, c.cls)
    ensures Stands(container, Resolved(s, c)) && container.regs == old(container.regs)
  {
    hide Undisturbed, Reach, Stuck, RealCycle, Candidate, PlainBuild, Deps;
    hide Container.Container.Valid, Container.Container.Wiring, Container.Container.IsOpaque;
    Asked(container, Chosen(Candidate(s.graph, c.cls)));
    container.Widen(Resolved(s, c).zone);
    o := container.Resolve(c.cls);
    container.CircularIffEndless(o, Candidate(s.graph, c.cls));
  }

  method ProcessConfigurations(container: Container.Container, cs: seq<Configuration>, ghost s: Stage) returns (r: Res<()>)
    requires Stands(container, s) && SafeConfigurations(s, cs)
    modifies container, container.regs
    ensures r.Ok? ==> Stands(container, AfterConfigurations(s, cs))
    ensures r.Ok? <==> AllRun(s, cs)
    ensures fresh(container.regs - old(container.regs))
  {
    hide SafeConfiguration, AfterConfiguration, Runs, Stands;
    for i := 0 to |cs|
      invariant Stands(container, AfterConfigurations(s, cs[..i]))
      invariant fresh(container.regs - old(container.regs))
      invariant forall j :: 0 <= j < i ==> Runs(AfterConfigurations(s, cs[..j]), cs[j])
    {
      assert cs[..i + 1][..i] == cs[..i];
      r := ProcessConfiguration(container, cs[i], AfterConfigurations(s, cs[..i]));
      if r.Err? {
        return;
      }
    }
    assert cs[..|cs|] == cs;
    r := Ok(());
  }

  // ---- The eager pass ----

  /** The pure verdict on a registered class: its finished bean, if plain construction yields one. */
  ghost function Buildable(g: Graph, cls: TypeId): Option<Obj> {
    match PlainBuild(g, cls)
    case Ends(Ok(o)) => Some(o)
    case _ => None
  }

  /** The one failure the startup loop does not defer. */
  ghost predicate Fatal(g: Graph, cls: TypeId) {
    PlainBuild(g, cls).Ends? && PlainBuild(g, cls).result.Err? && PlainBuild(g, cls).result.error.DanglingBinding?
  }

  method EagerStart(container: Container.Container, entries: seq<TypeId>) returns (r: Res<()>)
    requires container.Valid() && container.resolving == []
    requires forall k :: k in entries <==> k in container.registrations
    modifies container`resolving, container`creations, container`zone, container.regs
    ensures container.Valid() && container.Steady()
    ensures r.Ok? <==> forall k :: k in container.registrations && container.registrations[k].scope.Singleton? ==>
                         !Fatal(container.Wiring(), k)
    ensures r.Ok? ==> forall k :: k in container.registrations && container.registrations[k].scope.Singleton? ==>
                        container.registrations[k].instance == Buildable(container.Wiring(), k)
  {
    hide Candidate, Known, Stuck, RealCycle, Closed, PlainBuild, Deps;
    hide Container.Container.Valid, Container.Container.Wiring, Container.Container.IsOpaque;
    ghost var g := container.Wiring();
    EverythingClosed(g, container.zone);
    container.WiredParts();
    container.Widen(container.zone + Known(g));
    for i := 0 to |entries|
      invariant container.Valid() && container.Steady() && Known(g) <= container.zone
      invariant forall j :: 0 <= j < i && container.registrations[entries[j]].scope.Singleton? ==>
                  && !Fatal(g, entries[j])
                  && (Buildable(g, entries[j]).Some? ==> container.registrations[entries[j]].instance.Some?)
    {
      var reg := container.registrations[entries[i]];
      container.Looked(entries[i]);
      if reg.scope.Singleton? && reg.instance.None? {
        RegisteredItself(g, entries[i]);
        var o := container.Resolve(entries[i]);
        container.CircularIffEndless(o, Candidate(g, entries[i]));
        if o.Err? && o.error.DanglingBinding? {
          return Err(o.error);
        }
      }
      container.CachedIsPlain(reg);
    }
    forall k | k in container.registrations && container.registrations[k].scope.Singleton?
      ensures container.registrations[k].instance == Buildable(g, k)
    {
      container.Looked(k);
      container.CachedIsPlain(container.registrations[k]);
    }
    r := Ok(());
  }

  lemma EverythingClosed(g: Graph, s: set<TypeId>)
    ensures Closed(g, s + Known(g))
  {
    hide Deps, Known;
    forall c ensures Deps(g, c) <= Known(g) { DepsKnown(g, c); }
  }

  lemma RegisteredItself(g: Graph, cls: TypeId)
    requires cls in g.registered
    ensures Candidate(g, cls) == Ok(cls) && cls in Known(g)
  {
  }

  // ---- A whole start ----

  function Registered(classes: map<TypeId, ClassDef>, beans: seq<Bean>): Stage {
    AfterBeans(Opening(classes), beans)
  }

  ghost function Started(classes: map<TypeId, ClassDef>, beans: seq<Bean>, cs: seq<Configuration>): Stage {
    AfterConfigurations(Registered(classes, beans), cs)
  }

  lemma {:induction false} BeansStep(s: Stage, beans: seq<Bean>)
    requires Closed(s.graph, s.zone) && forall b :: b in beans ==> b.cls !in s.zone
    requires forall c :: c in s.zone ==> s.graph.Class(c).params == [] && s.graph.Class(c).fields == []
    ensures AfterBeans(s, beans).zone == s.zone && AfterBeans(s, beans).classes == s.classes
    ensures forall c :: c in s.zone ==> AfterBeans(s, beans).graph.Class(c) == s.graph.Class(c)
    decreases |beans|
  {
    if beans != [] {
      BeansStep(s, beans[..|beans| - 1]);
    }
  }

  /** Before anything is built, every other type can be registered freely, in any order. */
  lemma BeansSafe(classes: map<TypeId, ClassDef>, beans: seq<Bean>)
    requires forall b :: b in beans ==> b.cls != CONFIG && b.cls != CONTAINER
    ensures SafeBeans(Opening(classes), beans)
  {
    hide SafeBeans, Opening, Closed;
    OpeningSafe(classes);
    FreelyRegistered(Opening(classes), beans);
  }

  lemma FreelyRegistered(s: Stage, beans: seq<Bean>)
    requires Closed(s.graph, s.zone) && forall b :: b in beans ==> b.cls !in s.zone
    requires forall c :: c in s.zone ==> s.graph.Class(c).params == [] && s.graph.Class(c).fields == []
    ensures SafeBeans(s, beans)
  {
    hide Undisturbed, Deps;
    forall i | 0 <= i < |beans| ensures AfterBeans(s, beans[..i]).Keeps(AfterBeans(s, beans[..i + 1])) {
      var before := AfterBeans(s, beans[..i]);
      BeansStep(s, beans[..i]);
      assert beans[..i + 1][..i] == beans[..i];
      forall c | c in before.zone ensures Deps(before.graph, c) == {} { NoDeps(before.graph, c); }
      BeansKept(before, beans[i].cls, beans[i].name);
    }
  }

  /** The order within one `@order` value is the dictionary's; here any order will do. */
  method Entries(container: Container.Container) returns (entries: seq<TypeId>)
    ensures forall k :: k in entries <==> k in container.registrations
  {
    entries := [];
    var left := container.registrations.Keys;
    while left != {}
      invariant forall k :: k in entries || k in left <==> k in container.registrations
    {
      var k :| k in left;
      entries, left := entries + [k], left - {k};
    }
  }

  ghost predicate NoneFatal(container: Container.Container)
    reads container, container.regs
    requires container.Valid()
  {
    forall k :: k in container.registrations && container.registrations[k].scope.Singleton? ==> !Fatal(container.Wiring(), k)
  }

  /**
   From nothing to a started context. Whenever it was built or handed in, at the end every singleton is
   what plain construction gives on the final graph.
   */
  method StartContext(classes: map<TypeId, ClassDef>, beans: seq<Bean>, cs: seq<Configuration>)
    returns (container: Container.Container, r: Res<()>)
    requires SafeBeans(Opening(classes), beans)
    requires SafeConfigurations(Registered(classes, beans), cs)
    ensures fresh(container)
    ensures AllRun(Registered(classes, beans), cs) ==>
              container.Valid() && container.Wiring() == Started(classes, beans, cs).graph
    ensures r.Ok? <==> AllRun(Registered(classes, beans), cs) && NoneFatal(container)
    ensures r.Ok? ==> forall k :: k in container.registrations && container.registrations[k].scope.Singleton? ==>
                        container.registrations[k].instance == Buildable(container.Wiring(), k)
  {
    hide SafeConfigurations, AllRun, AfterConfigurations, AfterBeans, Opening;
    hide Container.Container.Valid, Container.Container.Wiring, Container.Container.IsOpaque;
    container := NewContext(classes);
    RegisterBeans(container, beans, Opening(classes));
    r := ProcessConfigurations(container, cs, Registered(classes, beans));
    if r.Err? {
      return;
    }
    var entries := Entries(container);
    r := EagerStart(container, entries);
  }
}
