/**
 The dependency graph a container resolves over, and the plain recursive
 construction it promises: no cache, no in-creation stack, just "build every
 parameter, then build the object".
 */
module BeanGraph {
  import opened Wrappers
  import opened Sequences

  /** A parameter or field annotation, as `_resolve_param` tells them apart. */
  datatype Annotation =
    | Plain(cls: TypeId)
    | OptionalOf(cls: TypeId)
    | ListOf(cls: TypeId)
    | ClassRef(cls: TypeId)
    | Annotated(base: Annotation, qualifier: Option<string>)

  datatype Param = Param(name: string, annotation: Annotation, hasDefault: bool)

  /** An `Autowired` field: by qualifier, by `Annotated` type, or by type. */
  datatype Field =
    | Qualified(name: string, bean: string)
    | Marked(name: string, annotation: Annotation)
    | Typed(name: string, cls: TypeId, required: bool)

  datatype Scope = Singleton | Transient

  /** What the container reads off a class; the last two come from its decorators. */
  datatype ClassDef = ClassDef(
    params: seq<Param>, fields: seq<Field>, primary: bool, scope: Option<Scope>, beanName: string)

  const BARE_CLASS := ClassDef([], [], false, None, "")

  function ClassOf(classes: map<TypeId, ClassDef>, cls: TypeId): ClassDef {
    if cls in classes then classes[cls] else BARE_CLASS
  }

  datatype Graph = Graph(
    registered: set<TypeId>,
    named: map<string, TypeId>,
    bindings: map<TypeId, seq<TypeId>>,
    classes: map<TypeId, ClassDef>)
  {
    function Class(cls: TypeId): ClassDef {
      ClassOf(classes, cls)
    }

    function Impls(cls: TypeId): seq<TypeId> {
      if cls in bindings then bindings[cls] else []
    }
  }

  /** A constructed bean: its class and what was injected into it. */
  datatype Obj = Obj(cls: TypeId, args: seq<(string, Value)>, fields: seq<(string, Value)>)
  datatype Value = Bean(bean: Obj) | Beans(beans: seq<Obj>) | Nothing

  /**
   `Unsatisfied` is the NoSuchBeanError that names the requiring class and member;
   `DanglingBinding` is the KeyError of a bound implementation that is not registered.
   */
  datatype Error =
    | NoSuchType(cls: TypeId)
    | NoSuchName(name: string)
    | Unsatisfied(owner: TypeId, member: string)
    | NoUnique(cls: TypeId, candidates: seq<TypeId>)
    | InCreation(chain: seq<TypeId>, current: TypeId)
    | DanglingBinding(impl: TypeId)
  {
    /** The errors `except (NoSuchBeanError, NoUniqueBeanError)` catches. */
    predicate Caught() {
      NoSuchType? || NoSuchName? || Unsatisfied? || NoUnique?
    }
  }

  type Res<T> = Result<T, Error>

  /** What a construction without cycle detection does: it ends, or recurses for ever. */
  datatype Outcome<+T> = Ends(result: Result<T, Error>) | Diverges

  /** What building each class yields. */
  type Oracle = TypeId -> Outcome<Obj>

  function FirstPrimary(g: Graph, impls: seq<TypeId>): Option<TypeId> {
    if impls == [] then None
    else if g.Class(impls[0]).primary then Some(impls[0])
    else FirstPrimary(g, impls[1..])
  }

  function Registered(g: Graph, impl: TypeId): Res<TypeId> {
    if impl in g.registered then Ok(impl) else Err(DanglingBinding(impl))
  }

  /** The class that serves a request for `cls`. */
  function Candidate(g: Graph, cls: TypeId): Res<TypeId> {
    if cls in g.registered then Ok(cls)
    else
      var impls := g.Impls(cls);
      if impls == [] then Err(NoSuchType(cls))
      else if |impls| == 1 then Registered(g, impls[0])
      else match FirstPrimary(g, impls)
        case Some(impl) => Registered(g, impl)
        case None => Err(NoUnique(cls, impls))
  }

  function Named(g: Graph, name: string): Res<TypeId> {
    if name in g.named then Ok(g.named[name]) else Err(NoSuchName(name))
  }

  function ByRef(f: Oracle, impl: Res<TypeId>): Outcome<Obj> {
    match impl
    case Ok(i) => f(i)
    case Err(e) => Ends(Err(e))
  }

  function ByType(g: Graph, f: Oracle, cls: TypeId): Outcome<Obj> {
    ByRef(f, Candidate(g, cls))
  }

  function ByName(g: Graph, f: Oracle, name: string): Outcome<Obj> {
    ByRef(f, Named(g, name))
  }

  function AllOf(g: Graph, f: Oracle, impls: seq<TypeId>): Outcome<seq<Obj>> {
    if impls == [] then Ends(Ok([]))
    else
      var before := AllOf(g, f, impls[..|impls| - 1]);
      if !(before.Ends? && before.result.Ok?) then before
      else match ByRef(f, Registered(g, impls[|impls| - 1]))
        case Ends(Ok(o)) => Ends(Ok(before.result.value + [o]))
        case Ends(Err(e)) => Ends(Err(e))
        case Diverges => Diverges
  }

  function AsBean(o: Outcome<Obj>): Outcome<Value> {
    match o
    case Ends(Ok(b)) => Ends(Ok(Bean(b)))
    case Ends(Err(e)) => Ends(Err(e))
    case Diverges => Diverges
  }

  /** `Optional[T]`: a missing or ambiguous bean is None. */
  function OrNothing(o: Outcome<Value>): Outcome<Value> {
    if o.Ends? && o.result.Err? && o.result.error.Caught() then Ends(Ok(Nothing)) else o
  }

  function ByAnnotation(g: Graph, f: Oracle, a: Annotation): Outcome<Value> {
    match a
    case Plain(cls) => AsBean(ByType(g, f, cls))
    case OptionalOf(cls) => OrNothing(AsBean(ByType(g, f, cls)))
    case ListOf(cls) =>
      (match AllOf(g, f, g.Impls(cls))
       case Ends(Ok(os)) => Ends(Ok(Beans(os)))
       case Ends(Err(e)) => Ends(Err(e))
       case Diverges => Diverges)
    case ClassRef(cls) => Ends(Err(NoSuchType(cls)))
    case Annotated(base, Some(name)) => AsBean(ByName(g, f, name))
    case Annotated(base, None) => ByAnnotation(g, f, base)
  }

  /** One constructor parameter: None means the default value is left in place. */
  function Arg(g: Graph, f: Oracle, owner: TypeId, p: Param): Outcome<Option<Value>> {
    match ByAnnotation(g, f, p.annotation)
    case Ends(Ok(v)) => Ends(Ok(Some(v)))
    case Ends(Err(e)) =>
      if !e.Caught() then Ends(Err(e))
      else if p.hasDefault then Ends(Ok(None))
      else Ends(Err(Unsatisfied(owner, p.name)))
    case Diverges => Diverges
  }

  function Args(g: Graph, f: Oracle, owner: TypeId, ps: seq<Param>): Outcome<seq<(string, Value)>> {
    if ps == [] then Ends(Ok([]))
    else
      var before, p := Args(g, f, owner, ps[..|ps| - 1]), ps[|ps| - 1];
      if !(before.Ends? && before.result.Ok?) then before
      else match Arg(g, f, owner, p)
        case Ends(Ok(Some(v))) => Ends(Ok(before.result.value + [(p.name, v)]))
        case Ends(Ok(None)) => before
        case Ends(Err(e)) => Ends(Err(e))
        case Diverges => Diverges
  }

  function FieldValue(g: Graph, f: Oracle, owner: TypeId, fd: Field): Outcome<Value> {
    match fd
    case Qualified(_, bean) => AsBean(ByName(g, f, bean))
    case Marked(_, a) => ByAnnotation(g, f, a)
    case Typed(name, cls, required) =>
      var o := AsBean(ByType(g, f, cls));
      if !required then OrNothing(o)
      else if o.Ends? && o.result.Err? && o.result.error.Caught() then Ends(Err(Unsatisfied(owner, name)))
      else o
  }

  function Fields(g: Graph, f: Oracle, owner: TypeId, fds: seq<Field>): Outcome<seq<(string, Value)>> {
    if fds == [] then Ends(Ok([]))
    else
      var before, fd := Fields(g, f, owner, fds[..|fds| - 1]), fds[|fds| - 1];
      if !(before.Ends? && before.result.Ok?) then before
      else match FieldValue(g, f, owner, fd)
        case Ends(Ok(v)) => Ends(Ok(before.result.value + [(fd.name, v)]))
        case Ends(Err(e)) => Ends(Err(e))
        case Diverges => Diverges
  }

  /** Build one object, given what building each of its dependencies yields. */
  function Construct(g: Graph, f: Oracle, cls: TypeId): Outcome<Obj> {
    match Args(g, f, cls, g.Class(cls).params)
    case Ends(Ok(args)) =>
      (match Fields(g, f, cls, g.Class(cls).fields)
       case Ends(Ok(fields)) => Ends(Ok(Obj(cls, args, fields)))
       case Ends(Err(e)) => Ends(Err(e))
       case Diverges => Diverges)
    case Ends(Err(e)) => Ends(Err(e))
    case Diverges => Diverges
  }

  /** Plain construction, cut off below `depth` nested constructors. */
  function Build(g: Graph, cls: TypeId, depth: nat): Outcome<Obj>
    decreases depth, 0
  {
    if depth == 0 then Diverges else Construct(g, At(g, depth - 1), cls)
  }

  function At(g: Graph, depth: nat): Oracle
    decreases depth, 1
  {
    c => Build(g, c, depth)
  }

  /** Plain construction of `cls`, however deep it goes. */
  ghost function PlainBuild(g: Graph, cls: TypeId): Outcome<Obj> {
    if exists depth: nat :: Build(g, cls, depth).Ends? then
      var depth: nat :| Build(g, cls, depth).Ends?;
      Build(g, cls, depth)
    else Diverges
  }

  ghost function Limit(g: Graph): Oracle {
    c => PlainBuild(g, c)
  }

  /** `f` knows at most what `h` knows. */
  ghost predicate Below(f: Oracle, h: Oracle) {
    forall c :: f(c).Diverges? || f(c) == h(c)
  }

  lemma {:induction false} AllOfMonotone(g: Graph, f: Oracle, h: Oracle, impls: seq<TypeId>)
    requires Below(f, h)
    ensures AllOf(g, f, impls).Diverges? || AllOf(g, f, impls) == AllOf(g, h, impls)
  {
    if impls != [] {
      AllOfMonotone(g, f, h, impls[..|impls| - 1]);
    }
  }

  lemma {:induction false} AnnotationMonotone(g: Graph, f: Oracle, h: Oracle, a: Annotation)
    requires Below(f, h)
    ensures ByAnnotation(g, f, a).Diverges? || ByAnnotation(g, f, a) == ByAnnotation(g, h, a)
  {
    if a.ListOf? {
      AllOfMonotone(g, f, h, g.Impls(a.cls));
    } else if a.Annotated? {
      AnnotationMonotone(g, f, h, a.base);
    }
  }

  lemma {:induction false} ArgsMonotone(g: Graph, f: Oracle, h: Oracle, owner: TypeId, ps: seq<Param>)
    requires Below(f, h)
    ensures Args(g, f, owner, ps).Diverges? || Args(g, f, owner, ps) == Args(g, h, owner, ps)
  {
    if ps != [] {
      ArgsMonotone(g, f, h, owner, ps[..|ps| - 1]);
      AnnotationMonotone(g, f, h, ps[|ps| - 1].annotation);
    }
  }

  lemma {:induction false} FieldsMonotone(g: Graph, f: Oracle, h: Oracle, owner: TypeId, fds: seq<Field>)
    requires Below(f, h)
    ensures Fields(g, f, owner, fds).Diverges? || Fields(g, f, owner, fds) == Fields(g, h, owner, fds)
  {
    if fds != [] {
      FieldsMonotone(g, f, h, owner, fds[..|fds| - 1]);
      var fd := fds[|fds| - 1];
      if fd.Marked? {
        AnnotationMonotone(g, f, h, fd.annotation);
      }
    }
  }

  lemma ConstructMonotone(g: Graph, f: Oracle, h: Oracle, cls: TypeId)
    requires Below(f, h)
    ensures Construct(g, f, cls).Diverges? || Construct(g, f, cls) == Construct(g, h, cls)
  {
    ArgsMonotone(g, f, h, cls, g.Class(cls).params);
    FieldsMonotone(g, f, h, cls, g.Class(cls).fields);
  }

  /** Once a construction ends within some depth, a larger depth changes nothing. */
  lemma {:induction false} BuildMonotone(g: Graph, cls: TypeId, m: nat, n: nat)
    requires m <= n
    ensures Build(g, cls, m).Diverges? || Build(g, cls, m) == Build(g, cls, n)
    decreases m, 0
  {
    if m > 0 {
      AtMonotone(g, m - 1, n - 1);
      ConstructMonotone(g, At(g, m - 1), At(g, n - 1), cls);
    }
  }

  lemma {:induction false} AtMonotone(g: Graph, m: nat, n: nat)
    requires m <= n
    ensures Below(At(g, m), At(g, n))
    decreases m, 1
  {
    forall c ensures At(g, m)(c).Diverges? || At(g, m)(c) == At(g, n)(c) {
      BuildMonotone(g, c, m, n);
    }
  }

  lemma PlainIs(g: Graph, cls: TypeId, n: nat)
    requires Build(g, cls, n).Ends?
    ensures PlainBuild(g, cls) == Build(g, cls, n)
  {
    var depth: nat :| Build(g, cls, depth).Ends? && PlainBuild(g, cls) == Build(g, cls, depth);
    BuildMonotone(g, cls, depth, if depth <= n then n else depth);
    BuildMonotone(g, cls, n, if depth <= n then n else depth);
  }

  lemma AtBelowLimit(g: Graph, n: nat)
    ensures Below(At(g, n), Limit(g))
  {
    forall c ensures At(g, n)(c).Diverges? || At(g, n)(c) == Limit(g)(c) {
      if At(g, n)(c).Ends? {
        PlainIs(g, c, n);
      }
    }
  }

  /** Finite use of the limit needs only a finite depth: the continuity lemmas. */
  lemma RefDepth(g: Graph, impl: Res<TypeId>) returns (n: nat)
    requires ByRef(Limit(g), impl).Ends?
    ensures ByRef(At(g, n), impl) == ByRef(Limit(g), impl)
  {
    if impl.Ok? {
      n :| Build(g, impl.value, n).Ends? && PlainBuild(g, impl.value) == Build(g, impl.value, n);
    } else {
      n := 0;
    }
  }

  lemma {:induction false} AllOfDepth(g: Graph, impls: seq<TypeId>) returns (n: nat)
    requires AllOf(g, Limit(g), impls).Ends?
    ensures AllOf(g, At(g, n), impls) == AllOf(g, Limit(g), impls)
  {
    if impls == [] {
      n := 0;
    } else {
      var before := impls[..|impls| - 1];
      n := AllOfDepth(g, before);
      if AllOf(g, Limit(g), before).result.Ok? {
        var k := RefDepth(g, Registered(g, impls[|impls| - 1]));
        var m := if k <= n then n else k;
        AtMonotone(g, n, m);
        AtMonotone(g, k, m);
        AllOfMonotone(g, At(g, n), At(g, m), before);
        n := m;
      }
    }
  }

  lemma {:induction false} AnnotationDepth(g: Graph, a: Annotation) returns (n: nat)
    requires ByAnnotation(g, Limit(g), a).Ends?
    ensures ByAnnotation(g, At(g, n), a) == ByAnnotation(g, Limit(g), a)
  {
    match a
    case Plain(cls) => n := RefDepth(g, Candidate(g, cls));
    case OptionalOf(cls) => n := RefDepth(g, Candidate(g, cls));
    case ListOf(cls) => n := AllOfDepth(g, g.Impls(cls));
    case ClassRef(_) => n := 0;
    case Annotated(_, Some(name)) => n := RefDepth(g, Named(g, name));
    case Annotated(base, None) => n := AnnotationDepth(g, base);
  }

  lemma {:induction false} ArgsDepth(g: Graph, owner: TypeId, ps: seq<Param>) returns (n: nat)
    requires Args(g, Limit(g), owner, ps).Ends?
    ensures Args(g, At(g, n), owner, ps) == Args(g, Limit(g), owner, ps)
  {
    if ps == [] {
      n := 0;
    } else {
      var before, p := ps[..|ps| - 1], ps[|ps| - 1];
      n := ArgsDepth(g, owner, before);
      if Args(g, Limit(g), owner, before).result.Ok? {
        var k := AnnotationDepth(g, p.annotation);
        var m := if k <= n then n else k;
        AtMonotone(g, n, m);
        AtMonotone(g, k, m);
        ArgsMonotone(g, At(g, n), At(g, m), owner, before);
        AnnotationMonotone(g, At(g, k), At(g, m), p.annotation);
        n := m;
      }
    }
  }

  lemma FieldDepth(g: Graph, owner: TypeId, fd: Field) returns (n: nat)
    requires FieldValue(g, Limit(g), owner, fd).Ends?
    ensures FieldValue(g, At(g, n), owner, fd) == FieldValue(g, Limit(g), owner, fd)
  {
    match fd
    case Qualified(_, bean) => n := RefDepth(g, Named(g, bean));
    case Marked(_, a) => n := AnnotationDepth(g, a);
    case Typed(_, cls, _) => n := RefDepth(g, Candidate(g, cls));
  }

  lemma {:induction false} FieldsDepth(g: Graph, owner: TypeId, fds: seq<Field>) returns (n: nat)
    requires Fields(g, Limit(g), owner, fds).Ends?
    ensures Fields(g, At(g, n), owner, fds) == Fields(g, Limit(g), owner, fds)
  {
    if fds == [] {
      n := 0;
    } else {
      var before, fd := fds[..|fds| - 1], fds[|fds| - 1];
      n := FieldsDepth(g, owner, before);
      if Fields(g, Limit(g), owner, before).result.Ok? {
        var k := FieldDepth(g, owner, fd);
        var m := if k <= n then n else k;
        AtMonotone(g, n, m);
        AtMonotone(g, k, m);
        FieldsMonotone(g, At(g, n), At(g, m), owner, before);
        if fd.Marked? {
          AnnotationMonotone(g, At(g, k), At(g, m), fd.annotation);
        }
        n := m;
      }
    }
  }

  /** Plain construction is what its own recursion says: building from fully built dependencies. */
  lemma PlainBuildEquation(g: Graph, cls: TypeId)
    ensures PlainBuild(g, cls) == Construct(g, Limit(g), cls)
  {
    if exists depth: nat :: Build(g, cls, depth).Ends? {
      var depth: nat :| Build(g, cls, depth).Ends?;
      PlainIs(g, cls, depth);
      AtBelowLimit(g, depth - 1);
      ConstructMonotone(g, At(g, depth - 1), Limit(g), cls);
    } else if Construct(g, Limit(g), cls).Ends? {
      var n := ArgsDepth(g, cls, g.Class(cls).params);
      if Args(g, Limit(g), cls, g.Class(cls).params).result.Ok? {
        var k := FieldsDepth(g, cls, g.Class(cls).fields);
        var m := if k <= n then n else k;
        AtMonotone(g, n, m);
        AtMonotone(g, k, m);
        ArgsMonotone(g, At(g, n), At(g, m), cls, g.Class(cls).params);
        FieldsMonotone(g, At(g, k), At(g, m), cls, g.Class(cls).fields);
        n := m;
      }
      assert Build(g, cls, n + 1).Ends?;
      assert false;
    }
  }

  /** The classes a request can make the container build. */
  function Requests(g: Graph, a: Annotation): set<TypeId> {
    match a
    case Plain(cls) => Chosen(Candidate(g, cls))
    case OptionalOf(cls) => Chosen(Candidate(g, cls))
    case ListOf(cls) => set i | i in g.Impls(cls) && i in g.registered
    case ClassRef(_) => {}
    case Annotated(_, Some(name)) => Chosen(Named(g, name))
    case Annotated(base, None) => Requests(g, base)
  }

  function Chosen(impl: Res<TypeId>): set<TypeId> {
    if impl.Ok? then {impl.value} else {}
  }

  function FieldRequests(g: Graph, fd: Field): set<TypeId> {
    match fd
    case Qualified(_, bean) => Chosen(Named(g, bean))
    case Marked(_, a) => Requests(g, a)
    case Typed(_, cls, _) => Chosen(Candidate(g, cls))
  }

  /** The direct dependencies of a class: the edges of the bean graph. */
  function Deps(g: Graph, cls: TypeId): set<TypeId> {
    (set p, d | p in g.Class(cls).params && d in Requests(g, p.annotation) :: d) +
    (set fd, d | fd in g.Class(cls).fields && d in FieldRequests(g, fd) :: d)
  }

  lemma DepsCover(g: Graph, cls: TypeId, p: Param)
    requires p in g.Class(cls).params
    ensures Requests(g, p.annotation) <= Deps(g, cls)
  {
  }

  lemma FieldDepsCover(g: Graph, cls: TypeId, fd: Field)
    requires fd in g.Class(cls).fields
    ensures FieldRequests(g, fd) <= Deps(g, cls)
  {
  }

  /** Consecutive classes of `path` are joined by dependency edges. */
  ghost predicate IsPath(g: Graph, path: seq<TypeId>) {
    forall i :: 0 <= i < |path| - 1 ==> path[i + 1] in Deps(g, path[i])
  }

  /** The in-creation stack is a repetition-free path of dependency edges between known classes. */
  ghost predicate StackSound(g: Graph, universe: set<TypeId>, stack: seq<TypeId>) {
    NoDuplicates(stack) && IsPath(g, stack) && forall t :: t in stack ==> t in universe
  }

  lemma PathExtend(g: Graph, universe: set<TypeId>, stack: seq<TypeId>, next: TypeId)
    requires StackSound(g, universe, stack) && next in universe
    requires stack == [] || next in Deps(g, stack[|stack| - 1])
    ensures IsPath(g, stack + [next])
    ensures next !in stack ==> StackSound(g, universe, stack + [next])
  {
  }

  lemma PathShorten(g: Graph, universe: set<TypeId>, stack: seq<TypeId>, last: TypeId)
    requires StackSound(g, universe, stack + [last])
    ensures StackSound(g, universe, stack)
  {
    hide Deps;
    var all := stack + [last];
    assert forall i :: 0 <= i < |stack| ==> all[i] == stack[i];
    assert forall t :: t in stack ==> t in all;
  }

  /** What one resolver call computes. */
  datatype Query =
    | RefQuery(impl: Res<TypeId>)
    | ListQuery(impls: seq<TypeId>)
    | AnnotationQuery(annotation: Annotation)
    | ArgsQuery(owner: TypeId, params: seq<Param>)
    | FieldsQuery(owner: TypeId, fields: seq<Field>)
    | ConstructQuery(cls: TypeId)

  predicate Settles(g: Graph, f: Oracle, q: Query) {
    match q
    case RefQuery(impl) => ByRef(f, impl).Ends?
    case ListQuery(impls) => AllOf(g, f, impls).Ends?
    case AnnotationQuery(a) => ByAnnotation(g, f, a).Ends?
    case ArgsQuery(owner, params) => Args(g, f, owner, params).Ends?
    case FieldsQuery(owner, fields) => Fields(g, f, owner, fields).Ends?
    case ConstructQuery(cls) => Construct(g, f, cls).Ends?
  }

  /**
   Plain construction of `q` needs `current` at no greater depth. When `current` is
   itself under construction this ties the knot; otherwise `q` never ends.
   */
  ghost predicate Stuck(g: Graph, stack: seq<TypeId>, current: TypeId, q: Query) {
    if current in stack then
      forall n: nat :: Settles(g, At(g, n), q) ==> Build(g, current, n).Ends?
    else
      forall n: nat :: !Settles(g, At(g, n), q)
  }

  /** The circular error reports a real path of dependency edges that closes on itself. */
  ghost predicate RealCycle(g: Graph, stack: seq<TypeId>, chain: seq<TypeId>, current: TypeId) {
    stack <= chain && current in chain && IsPath(g, chain + [current])
  }

  lemma CycleBelow(g: Graph, stack: seq<TypeId>, cls: TypeId, chain: seq<TypeId>, current: TypeId)
    requires RealCycle(g, stack + [cls], chain, current)
    ensures RealCycle(g, stack, chain, current)
  {
  }

  lemma StuckAtOnce(g: Graph, stack: seq<TypeId>, cls: TypeId)
    requires cls in stack
    ensures Stuck(g, stack, cls, RefQuery(Ok(cls)))
  {
  }

  /** A cycle found while building `cls`, seen from the caller of that construction. */
  lemma StuckConstruct(g: Graph, stack: seq<TypeId>, cls: TypeId, current: TypeId)
    requires cls !in stack
    requires Stuck(g, stack + [cls], current, ConstructQuery(cls))
    ensures Stuck(g, stack, current, RefQuery(Ok(cls)))
  {
    forall n: nat | Settles(g, At(g, n), RefQuery(Ok(cls)))
      ensures current in stack && Build(g, current, n).Ends?
    {
      assert Build(g, cls, n).Ends? && Build(g, cls, n) == Construct(g, At(g, n - 1), cls);
      assert Settles(g, At(g, n - 1), ConstructQuery(cls));
      if current == cls {
        NeverBuilt(g, stack, cls, n);
        assert false;
      }
      BuildMonotone(g, current, n - 1, n);
    }
  }

  lemma {:induction false} NeverBuilt(g: Graph, stack: seq<TypeId>, cls: TypeId, n: nat)
    requires Stuck(g, stack + [cls], cls, ConstructQuery(cls))
    ensures Build(g, cls, n).Diverges?
    decreases n
  {
    if n > 0 {
      NeverBuilt(g, stack, cls, n - 1);
      assert cls in stack + [cls];
      assert !Settles(g, At(g, n - 1), ConstructQuery(cls));
    }
  }

  lemma {:induction false} ArgsPrefix(g: Graph, f: Oracle, owner: TypeId, ps: seq<Param>, i: nat)
    requires i <= |ps|
    requires Args(g, f, owner, ps[..i]).Diverges? || Args(g, f, owner, ps[..i]).result.Err?
    ensures Args(g, f, owner, ps) == Args(g, f, owner, ps[..i])
    decreases |ps|
  {
    if i < |ps| {
      assert ps[..|ps| - 1][..i] == ps[..i];
      ArgsPrefix(g, f, owner, ps[..|ps| - 1], i);
    } else {
      assert ps[..i] == ps;
    }
  }

  lemma {:induction false} FieldsPrefix(g: Graph, f: Oracle, owner: TypeId, fds: seq<Field>, i: nat)
    requires i <= |fds|
    requires Fields(g, f, owner, fds[..i]).Diverges? || Fields(g, f, owner, fds[..i]).result.Err?
    ensures Fields(g, f, owner, fds) == Fields(g, f, owner, fds[..i])
    decreases |fds|
  {
    if i < |fds| {
      assert fds[..|fds| - 1][..i] == fds[..i];
      FieldsPrefix(g, f, owner, fds[..|fds| - 1], i);
    } else {
      assert fds[..i] == fds;
    }
  }

  lemma {:induction false} AllOfPrefix(g: Graph, f: Oracle, impls: seq<TypeId>, i: nat)
    requires i <= |impls|
    requires AllOf(g, f, impls[..i]).Diverges? || AllOf(g, f, impls[..i]).result.Err?
    ensures AllOf(g, f, impls) == AllOf(g, f, impls[..i])
    decreases |impls|
  {
    if i < |impls| {
      assert impls[..|impls| - 1][..i] == impls[..i];
      AllOfPrefix(g, f, impls[..|impls| - 1], i);
    } else {
      assert impls[..i] == impls;
    }
  }

  /** One turn of collecting all implementations. */
  lemma AllOfTurn(g: Graph, impls: seq<TypeId>, i: nat, beans: seq<Obj>, o: Res<Obj>)
    requires i < |impls| && AllOf(g, Limit(g), impls[..i]) == Ends(Ok(beans))
    requires if impls[i] in g.registered then PlainBuild(g, impls[i]) == Ends(o) else o == Err(DanglingBinding(impls[i]))
    ensures o.Ok? ==> AllOf(g, Limit(g), impls[..i + 1]) == Ends(Ok(beans + [o.value]))
    ensures o.Err? ==> AllOf(g, Limit(g), impls) == Ends(Err(o.error))
  {
    hide PlainBuild;
    assert impls[..i + 1][..i] == impls[..i];
    if o.Err? {
      AllOfPrefix(g, Limit(g), impls, i + 1);
    }
  }

  /** A parameter stuck on a cycle makes the whole argument list stuck on it. */
  lemma StuckArgs(g: Graph, stack: seq<TypeId>, current: TypeId, owner: TypeId, ps: seq<Param>, i: nat)
    requires i < |ps|
    requires Args(g, Limit(g), owner, ps[..i]).Ends? && Args(g, Limit(g), owner, ps[..i]).result.Ok?
    requires Stuck(g, stack, current, AnnotationQuery(ps[i].annotation))
    ensures Stuck(g, stack, current, ArgsQuery(owner, ps))
  {
    forall n: nat | Settles(g, At(g, n), ArgsQuery(owner, ps))
      ensures Settles(g, At(g, n), AnnotationQuery(ps[i].annotation))
    {
      var f := At(g, n);
      AtBelowLimit(g, n);
      ArgsMonotone(g, f, Limit(g), owner, ps[..i]);
      assert ps[..i + 1][..i] == ps[..i];
      if Args(g, f, owner, ps[..i]).Diverges? {
        ArgsPrefix(g, f, owner, ps, i);
      } else if Args(g, f, owner, ps[..i + 1]).Diverges? {
        ArgsPrefix(g, f, owner, ps, i + 1);
      }
    }
  }

  function FieldQuery(g: Graph, fd: Field): Query {
    match fd
    case Qualified(_, bean) => RefQuery(Named(g, bean))
    case Marked(_, a) => AnnotationQuery(a)
    case Typed(_, cls, _) => RefQuery(Candidate(g, cls))
  }

  lemma StuckFields(g: Graph, stack: seq<TypeId>, current: TypeId, owner: TypeId, fds: seq<Field>, i: nat)
    requires i < |fds|
    requires Fields(g, Limit(g), owner, fds[..i]).Ends? && Fields(g, Limit(g), owner, fds[..i]).result.Ok?
    requires Stuck(g, stack, current, FieldQuery(g, fds[i]))
    ensures Stuck(g, stack, current, FieldsQuery(owner, fds))
  {
    forall n: nat | Settles(g, At(g, n), FieldsQuery(owner, fds))
      ensures Settles(g, At(g, n), FieldQuery(g, fds[i]))
    {
      var f := At(g, n);
      AtBelowLimit(g, n);
      FieldsMonotone(g, f, Limit(g), owner, fds[..i]);
      assert fds[..i + 1][..i] == fds[..i];
      if Fields(g, f, owner, fds[..i]).Diverges? {
        FieldsPrefix(g, f, owner, fds, i);
      } else if Fields(g, f, owner, fds[..i + 1]).Diverges? {
        FieldsPrefix(g, f, owner, fds, i + 1);
      }
    }
  }

  lemma StuckAllOf(g: Graph, stack: seq<TypeId>, current: TypeId, impls: seq<TypeId>, i: nat)
    requires i < |impls|
    requires AllOf(g, Limit(g), impls[..i]).Ends? && AllOf(g, Limit(g), impls[..i]).result.Ok?
    requires Stuck(g, stack, current, RefQuery(Registered(g, impls[i])))
    ensures Stuck(g, stack, current, ListQuery(impls))
  {
    forall n: nat | Settles(g, At(g, n), ListQuery(impls))
      ensures Settles(g, At(g, n), RefQuery(Registered(g, impls[i])))
    {
      var f := At(g, n);
      AtBelowLimit(g, n);
      AllOfMonotone(g, f, Limit(g), impls[..i]);
      assert impls[..i + 1][..i] == impls[..i];
      if AllOf(g, f, impls[..i]).Diverges? {
        AllOfPrefix(g, f, impls, i);
      } else if AllOf(g, f, impls[..i + 1]).Diverges? {
        AllOfPrefix(g, f, impls, i + 1);
      }
    }
  }

  /** Fields are injected only once every constructor argument is there. */
  lemma StuckInjection(g: Graph, stack: seq<TypeId>, current: TypeId, cls: TypeId)
    requires
      || Stuck(g, stack, current, ArgsQuery(cls, g.Class(cls).params))
      || (&& Args(g, Limit(g), cls, g.Class(cls).params).Ends?
          && Args(g, Limit(g), cls, g.Class(cls).params).result.Ok?
          && Stuck(g, stack, current, FieldsQuery(cls, g.Class(cls).fields)))
    ensures Stuck(g, stack, current, ConstructQuery(cls))
  {
    var params, fields := g.Class(cls).params, g.Class(cls).fields;
    forall n: nat | Settles(g, At(g, n), ConstructQuery(cls))
      ensures Settles(g, At(g, n), ArgsQuery(cls, params))
      ensures Args(g, Limit(g), cls, params).Ends? && Args(g, Limit(g), cls, params).result.Ok? ==>
                Settles(g, At(g, n), FieldsQuery(cls, fields))
    {
      AtBelowLimit(g, n);
      ArgsMonotone(g, At(g, n), Limit(g), cls, params);
    }
  }

  /** What is stuck on the empty stack is stuck for good: plain construction does not end either. */
  lemma StuckForGood(g: Graph, current: TypeId, q: Query)
    requires Stuck(g, [], current, q)
    ensures !Settles(g, Limit(g), q)
  {
    if Settles(g, Limit(g), q) {
      var n: nat;
      match q {
        case RefQuery(impl) => n := RefDepth(g, impl);
        case ListQuery(impls) => n := AllOfDepth(g, impls);
        case AnnotationQuery(a) => n := AnnotationDepth(g, a);
        case ArgsQuery(owner, params) => n := ArgsDepth(g, owner, params);
        case FieldsQuery(owner, fields) => n := FieldsDepth(g, owner, fields);
        case ConstructQuery(cls) =>
          PlainBuildEquation(g, cls);
          n := RefDepth(g, Ok(cls));
          n := n - 1;
      }
      assert Settles(g, At(g, n), q);
    }
  }

  /** A closed walk along dependency edges. */
  ghost predicate IsCycle(g: Graph, walk: seq<TypeId>) {
    IsClosed(walk) && IsPath(g, walk)
  }

  /** So on a graph without cycles the circular error is never raised. */
  lemma CircularMeansCycle(g: Graph, stack: seq<TypeId>, chain: seq<TypeId>, current: TypeId)
    returns (walk: seq<TypeId>)
    requires RealCycle(g, stack, chain, current)
    ensures IsCycle(g, walk)
  {
    hide Deps;
    var k :| 0 <= k < |chain| && chain[k] == current;
    var all := chain + [current];
    walk := all[k..];
    forall i | 0 <= i < |walk| - 1 ensures walk[i + 1] in Deps(g, walk[i]) {
      assert all[k + i + 1] in Deps(g, all[k + i]);
    }
  }

  lemma {:induction false} EndlessAllOf(g: Graph, impls: seq<TypeId>) returns (d: TypeId)
    requires AllOf(g, Limit(g), impls).Diverges?
    ensures d in impls && d in g.registered && PlainBuild(g, d).Diverges?
  {
    var before := impls[..|impls| - 1];
    if AllOf(g, Limit(g), before).Diverges? {
      d := EndlessAllOf(g, before);
    } else {
      d := impls[|impls| - 1];
    }
  }

  lemma {:induction false} EndlessRequest(g: Graph, a: Annotation) returns (d: TypeId)
    requires ByAnnotation(g, Limit(g), a).Diverges?
    ensures d in Requests(g, a) && PlainBuild(g, d).Diverges?
  {
    match a
    case Plain(cls) => d := Candidate(g, cls).value;
    case OptionalOf(cls) => d := Candidate(g, cls).value;
    case ListOf(cls) => d := EndlessAllOf(g, g.Impls(cls));
    case Annotated(_, Some(name)) => d := Named(g, name).value;
    case Annotated(base, None) => d := EndlessRequest(g, base);
  }

  lemma {:induction false} EndlessArgs(g: Graph, owner: TypeId, ps: seq<Param>) returns (p: Param)
    requires Args(g, Limit(g), owner, ps).Diverges?
    ensures p in ps && ByAnnotation(g, Limit(g), p.annotation).Diverges?
  {
    var before := ps[..|ps| - 1];
    if Args(g, Limit(g), owner, before).Diverges? {
      p := EndlessArgs(g, owner, before);
    } else {
      p := ps[|ps| - 1];
    }
  }

  lemma {:induction false} EndlessFields(g: Graph, owner: TypeId, fds: seq<Field>) returns (fd: Field)
    requires Fields(g, Limit(g), owner, fds).Diverges?
    ensures fd in fds && FieldValue(g, Limit(g), owner, fd).Diverges?
  {
    var before := fds[..|fds| - 1];
    if Fields(g, Limit(g), owner, before).Diverges? {
      fd := EndlessFields(g, owner, before);
    } else {
      fd := fds[|fds| - 1];
    }
  }

  /** Endless construction is always the fault of some direct dependency. */
  lemma EndlessDependency(g: Graph, cls: TypeId) returns (d: TypeId)
    requires PlainBuild(g, cls).Diverges?
    ensures d in Deps(g, cls) && PlainBuild(g, d).Diverges?
  {
    PlainBuildEquation(g, cls);
    if Args(g, Limit(g), cls, g.Class(cls).params).Diverges? {
      var p := EndlessArgs(g, cls, g.Class(cls).params);
      d := EndlessRequest(g, p.annotation);
      DepsCover(g, cls, p);
    } else {
      var fd := EndlessFields(g, cls, g.Class(cls).fields);
      FieldDepsCover(g, cls, fd);
      match fd
      case Qualified(_, bean) => d := Named(g, bean).value;
      case Marked(_, a) => d := EndlessRequest(g, a);
      case Typed(_, wanted, _) => d := Candidate(g, wanted).value;
    }
  }

  /** Whatever can be asked for is registered or named. */
  function Known(g: Graph): set<TypeId> {
    g.registered + g.named.Values
  }

  lemma {:induction false} RequestsKnown(g: Graph, a: Annotation)
    ensures Requests(g, a) <= Known(g)
  {
    if a.Annotated? && a.qualifier.None? {
      RequestsKnown(g, a.base);
    }
  }

  lemma DepsKnown(g: Graph, cls: TypeId)
    ensures Deps(g, cls) <= Known(g)
  {
    forall d | d in Deps(g, cls) ensures d in Known(g) {
      if p :| p in g.Class(cls).params && d in Requests(g, p.annotation) {
        RequestsKnown(g, p.annotation);
      } else {
        var fd :| fd in g.Class(cls).fields && d in FieldRequests(g, fd);
        if fd.Marked? { RequestsKnown(g, fd.annotation); }
      }
    }
  }

  lemma {:induction false} EndlessWalk(g: Graph, cls: TypeId, steps: nat) returns (walk: seq<TypeId>)
    requires PlainBuild(g, cls).Diverges?
    ensures |walk| == steps + 1 && walk[0] == cls && IsPath(g, walk)
    ensures forall i :: 0 < i <= steps ==> walk[i] in Known(g)
    decreases steps
  {
    hide Deps, PlainBuild, Known;
    walk := [cls];
    if steps > 0 {
      var d := EndlessDependency(g, cls);
      DepsKnown(g, cls);
      var rest := EndlessWalk(g, d, steps - 1);
      walk := [cls] + rest;
    }
  }

  /** Plain construction fails to end only on a cyclic graph. */
  lemma EndlessMeansCycle(g: Graph, cls: TypeId) returns (cycle: seq<TypeId>)
    requires PlainBuild(g, cls).Diverges?
    ensures IsCycle(g, cycle)
  {
    hide Deps, PlainBuild, Known;
    var walk := EndlessWalk(g, cls, |Known(g)| + 1);
    var i, j := Repeats(walk[1..], Known(g));
    cycle := walk[i + 1..j + 2];
    forall k | 0 <= k < |cycle| - 1 ensures cycle[k + 1] in Deps(g, cycle[k]) {
      assert walk[i + 1 + k + 1] in Deps(g, walk[i + 1 + k]);
    }
  }

  /** Everything injected into `o`, at any depth, is itself the complete construction of its class. */
  ghost predicate FullyBuilt(g: Graph, o: Obj) {
    && PlainBuild(g, o.cls) == Ends(Ok(o))
    && (forall i :: 0 <= i < |o.args| ==> ValueBuilt(g, o.args[i].1))
    && (forall i :: 0 <= i < |o.fields| ==> ValueBuilt(g, o.fields[i].1))
  }

  ghost predicate ValueBuilt(g: Graph, v: Value) {
    match v
    case Bean(o) => FullyBuilt(g, o)
    case Beans(os) => forall i :: 0 <= i < |os| ==> FullyBuilt(g, os[i])
    case Nothing => true
  }

  ghost predicate YieldsBuilt(g: Graph, f: Oracle) {
    forall c :: f(c).Ends? && f(c).result.Ok? ==> FullyBuilt(g, f(c).result.value)
  }

  lemma {:induction false} AllOfBuilt(g: Graph, f: Oracle, impls: seq<TypeId>)
    requires YieldsBuilt(g, f)
    requires AllOf(g, f, impls).Ends? && AllOf(g, f, impls).result.Ok?
    ensures ValueBuilt(g, Beans(AllOf(g, f, impls).result.value))
  {
    if impls != [] {
      AllOfBuilt(g, f, impls[..|impls| - 1]);
    }
  }

  lemma {:induction false} AnnotationBuilt(g: Graph, f: Oracle, a: Annotation)
    requires YieldsBuilt(g, f)
    requires ByAnnotation(g, f, a).Ends? && ByAnnotation(g, f, a).result.Ok?
    ensures ValueBuilt(g, ByAnnotation(g, f, a).result.value)
  {
    hide FullyBuilt;
    if a.ListOf? {
      AllOfBuilt(g, f, g.Impls(a.cls));
    } else if a.Annotated? && a.qualifier.None? {
      AnnotationBuilt(g, f, a.base);
    }
  }

  lemma {:induction false} ArgsBuilt(g: Graph, f: Oracle, owner: TypeId, ps: seq<Param>)
    requires YieldsBuilt(g, f)
    requires Args(g, f, owner, ps).Ends? && Args(g, f, owner, ps).result.Ok?
    ensures forall i :: 0 <= i < |Args(g, f, owner, ps).result.value| ==>
              ValueBuilt(g, Args(g, f, owner, ps).result.value[i].1)
  {
    hide FullyBuilt, ValueBuilt;
    if ps != [] {
      ArgsBuilt(g, f, owner, ps[..|ps| - 1]);
      if ByAnnotation(g, f, ps[|ps| - 1].annotation).result.Ok? {
        AnnotationBuilt(g, f, ps[|ps| - 1].annotation);
      }
    }
  }

  lemma {:induction false} FieldsBuilt(g: Graph, f: Oracle, owner: TypeId, fds: seq<Field>)
    requires YieldsBuilt(g, f)
    requires Fields(g, f, owner, fds).Ends? && Fields(g, f, owner, fds).result.Ok?
    ensures forall i :: 0 <= i < |Fields(g, f, owner, fds).result.value| ==>
              ValueBuilt(g, Fields(g, f, owner, fds).result.value[i].1)
  {
    hide FullyBuilt;
    if fds != [] {
      FieldsBuilt(g, f, owner, fds[..|fds| - 1]);
      if fds[|fds| - 1].Marked? {
        AnnotationBuilt(g, f, fds[|fds| - 1].annotation);
      }
    }
  }

  /** No half-built bean is ever handed out. */
  lemma {:induction false} PlainBuildComplete(g: Graph, cls: TypeId, n: nat)
    requires Build(g, cls, n).Ends? && Build(g, cls, n).result.Ok?
    ensures FullyBuilt(g, Build(g, cls, n).result.value)
    decreases n
  {
    PlainIs(g, cls, n);
    var f := At(g, n - 1);
    forall c | f(c).Ends? && f(c).result.Ok? ensures FullyBuilt(g, f(c).result.value) {
      PlainBuildComplete(g, c, n - 1);
    }
    ArgsBuilt(g, f, cls, g.Class(cls).params);
    FieldsBuilt(g, f, cls, g.Class(cls).fields);
  }
}
