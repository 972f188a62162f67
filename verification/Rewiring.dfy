/** Changing a bean graph under beans that are already built: when do they stay what plain construction gives? */
module Rewiring {
  import opened Wrappers
  import opened BeanGraph

  // ---- What registering, binding and removing do to a graph ----

  /** `t` is registered, as the class `def`, under its bean name when it has one. */
  function Enrolled(g: Graph, t: TypeId, def: ClassDef, name: string): Graph {
    Graph(g.registered + {t}, if name == "" then g.named else g.named[name := t], g.bindings, g.classes[t := def])
  }

  lemma EnrolledAgain(g: Graph, t: TypeId, def: ClassDef, other: ClassDef, name: string)
    ensures var h := Enrolled(g, t, def, name);
      h.(classes := h.classes[t := other]) == Enrolled(g, t, other, name) && h.(classes := h.classes[t := other]).Class(t) == other
  {
  }

  function Bound(g: Graph, interface: TypeId, impl: TypeId): Graph {
    var impls := g.Impls(interface);
    g.(bindings := g.bindings[interface := if impl in impls then impls else impls + [impl]])
  }

  /** A class whose instance is handed in: its constructor and fields are never looked at. */
  function Opaque(def: ClassDef): ClassDef {
    def.(params := [], fields := [])
  }

  // ---- Undisturbed classes ----

  ghost predicate SameRequests(g: Graph, h: Graph, a: Annotation) {
    match a
    case Plain(cls) => Candidate(g, cls) == Candidate(h, cls)
    case OptionalOf(cls) => Candidate(g, cls) == Candidate(h, cls)
    case ListOf(cls) =>
      g.Impls(cls) == h.Impls(cls) && forall i :: i in g.Impls(cls) ==> (i in g.registered <==> i in h.registered)
    case ClassRef(_) => true
    case Annotated(_, Some(name)) => Named(g, name) == Named(h, name)
    case Annotated(base, None) => SameRequests(g, h, base)
  }

  ghost predicate SameFieldRequests(g: Graph, h: Graph, fd: Field) {
    match fd
    case Qualified(_, bean) => Named(g, bean) == Named(h, bean)
    case Marked(_, a) => SameRequests(g, h, a)
    case Typed(_, cls, _) => Candidate(g, cls) == Candidate(h, cls)
  }

  ghost predicate Closed(g: Graph, s: set<TypeId>) {
    forall c :: c in s ==> Deps(g, c) <= s
  }

  /** The class is the same, and each of its requests has the same candidates, in both graphs. */
  ghost predicate SameClass(g: Graph, h: Graph, c: TypeId) {
    && g.Class(c) == h.Class(c)
    && (forall p :: p in g.Class(c).params ==> SameRequests(g, h, p.annotation))
    && (forall fd :: fd in g.Class(c).fields ==> SameFieldRequests(g, h, fd))
  }

  /** Nothing changes for the classes of `s`, which depend on each other only. */
  ghost predicate Undisturbed(g: Graph, h: Graph, s: set<TypeId>) {
    Closed(g, s) && forall c :: c in s ==> SameClass(g, h, c)
  }

  ghost predicate Agree(e: Oracle, f: Oracle, s: set<TypeId>) {
    forall c :: c in s ==> e(c) == f(c)
  }

  lemma {:induction false} AllOfSame(g: Graph, h: Graph, e: Oracle, f: Oracle, s: set<TypeId>, impls: seq<TypeId>)
    requires Agree(e, f, s)
    requires forall i :: i in impls ==> (i in g.registered <==> i in h.registered) && (i in g.registered ==> i in s)
    ensures AllOf(g, e, impls) == AllOf(h, f, impls)
  {
    if impls != [] {
      AllOfSame(g, h, e, f, s, impls[..|impls| - 1]);
    }
  }

  lemma {:induction false} AnnotationSame(g: Graph, h: Graph, e: Oracle, f: Oracle, s: set<TypeId>, a: Annotation)
    requires Agree(e, f, s) && SameRequests(g, h, a) && Requests(g, a) <= s
    ensures ByAnnotation(g, e, a) == ByAnnotation(h, f, a)
    ensures Requests(g, a) == Requests(h, a)
  {
    hide Candidate, AllOf;
    if a.ListOf? {
      AllOfSame(g, h, e, f, s, g.Impls(a.cls));
    } else if a.Annotated? && a.qualifier.None? {
      AnnotationSame(g, h, e, f, s, a.base);
    }
  }

  lemma {:induction false} ArgsSame(g: Graph, h: Graph, e: Oracle, f: Oracle, s: set<TypeId>, owner: TypeId, ps: seq<Param>)
    requires Agree(e, f, s)
    requires forall p :: p in ps ==> SameRequests(g, h, p.annotation) && Requests(g, p.annotation) <= s
    ensures Args(g, e, owner, ps) == Args(h, f, owner, ps)
  {
    hide ByAnnotation, SameRequests, Requests;
    if ps != [] {
      ArgsSame(g, h, e, f, s, owner, ps[..|ps| - 1]);
      AnnotationSame(g, h, e, f, s, ps[|ps| - 1].annotation);
    }
  }

  lemma FieldSame(g: Graph, h: Graph, e: Oracle, f: Oracle, s: set<TypeId>, owner: TypeId, fd: Field)
    requires Agree(e, f, s) && SameFieldRequests(g, h, fd) && FieldRequests(g, fd) <= s
    ensures FieldValue(g, e, owner, fd) == FieldValue(h, f, owner, fd)
    ensures FieldRequests(g, fd) == FieldRequests(h, fd)
  {
    hide Candidate, ByAnnotation, SameRequests, Requests;
    if fd.Marked? {
      AnnotationSame(g, h, e, f, s, fd.annotation);
    }
  }

  lemma {:induction false} FieldsSame(g: Graph, h: Graph, e: Oracle, f: Oracle, s: set<TypeId>, owner: TypeId, fds: seq<Field>)
    requires Agree(e, f, s)
    requires forall fd :: fd in fds ==> SameFieldRequests(g, h, fd) && FieldRequests(g, fd) <= s
    ensures Fields(g, e, owner, fds) == Fields(h, f, owner, fds)
  {
    hide FieldValue, SameFieldRequests, FieldRequests;
    if fds != [] {
      FieldsSame(g, h, e, f, s, owner, fds[..|fds| - 1]);
      FieldSame(g, h, e, f, s, owner, fds[|fds| - 1]);
    }
  }

  lemma ConstructSame(g: Graph, h: Graph, e: Oracle, f: Oracle, s: set<TypeId>, c: TypeId)
    requires Agree(e, f, s) && SameClass(g, h, c) && Deps(g, c) <= s
    ensures Construct(g, e, c) == Construct(h, f, c)
  {
    hide Agree, SameRequests, SameFieldRequests, Deps, Args, Fields, Requests, FieldRequests;
    var def := g.Class(c);
    forall p | p in def.params ensures Requests(g, p.annotation) <= s { DepsCover(g, c, p); }
    forall fd | fd in def.fields ensures FieldRequests(g, fd) <= s { FieldDepsCover(g, c, fd); }
    ArgsSame(g, h, e, f, s, c, def.params);
    FieldsSame(g, h, e, f, s, c, def.fields);
  }

  lemma {:induction false} BuildSame(g: Graph, h: Graph, s: set<TypeId>, c: TypeId, n: nat)
    requires Undisturbed(g, h, s) && c in s
    ensures Build(g, c, n) == Build(h, c, n)
    decreases n
  {
    hide SameClass, Deps, Construct;
    if n > 0 {
      forall d | d in s ensures At(g, n - 1)(d) == At(h, n - 1)(d) {
        BuildSame(g, h, s, d, n - 1);
      }
      ConstructSame(g, h, At(g, n - 1), At(h, n - 1), s, c);
    }
  }

  /** Beans of undisturbed classes stay what plain construction gives. */
  lemma PlainSame(g: Graph, h: Graph, s: set<TypeId>, c: TypeId)
    requires Undisturbed(g, h, s) && c in s
    ensures PlainBuild(g, c) == PlainBuild(h, c)
  {
    hide Undisturbed, Build, PlainBuild;
    if n: nat :| Build(g, c, n).Ends? {
      BuildSame(g, h, s, c, n);
      PlainIs(g, c, n);
      PlainIs(h, c, n);
    } else {
      forall n: nat ensures !Build(h, c, n).Ends? { BuildSame(g, h, s, c, n); }
      NeverEnds(g, c);
      NeverEnds(h, c);
    }
  }

  lemma NeverEnds(g: Graph, c: TypeId)
    requires forall n: nat :: !Build(g, c, n).Ends?
    ensures PlainBuild(g, c) == Diverges
  {
    hide Build;
  }

  lemma SameDeps(g: Graph, h: Graph, s: set<TypeId>, c: TypeId)
    requires SameClass(g, h, c) && Deps(g, c) <= s
    ensures Deps(g, c) == Deps(h, c)
  {
    hide SameRequests, SameFieldRequests, Requests, FieldRequests;
    var def := g.Class(c);
    var e: Oracle := _ => Diverges;
    forall p | p in def.params ensures Requests(g, p.annotation) == Requests(h, p.annotation) {
      DepsCover(g, c, p);
      AnnotationSame(g, h, e, e, s, p.annotation);
    }
    forall fd | fd in def.fields ensures FieldRequests(g, fd) == FieldRequests(h, fd) {
      FieldDepsCover(g, c, fd);
      FieldSame(g, h, e, e, s, c, fd);
    }
  }

  lemma StillClosed(g: Graph, h: Graph, s: set<TypeId>)
    requires Undisturbed(g, h, s)
    ensures Closed(h, s)
  {
    hide SameClass, Deps;
    forall c | c in s ensures Deps(h, c) <= s {
      SameDeps(g, h, s, c);
    }
  }

  lemma AllSame(g: Graph, h: Graph, s: set<TypeId>)
    requires Undisturbed(g, h, s)
    ensures Closed(h, s) && forall c :: c in s ==> PlainBuild(g, c) == PlainBuild(h, c)
  {
    hide Undisturbed, PlainBuild, Closed;
    StillClosed(g, h, s);
    forall c | c in s ensures PlainBuild(g, c) == PlainBuild(h, c) {
      PlainSame(g, h, s, c);
    }
  }

  lemma NoDeps(g: Graph, c: TypeId)
    requires g.Class(c).params == [] && g.Class(c).fields == []
    ensures Deps(g, c) == {}
  {
  }

  lemma OpaqueBuild(g: Graph, c: TypeId, def: ClassDef)
    requires g.Class(c) == Opaque(def)
    ensures PlainBuild(g, c) == Ends(Ok(Obj(c, [], []))) && Deps(g, c) == {}
  {
    hide PlainBuild;
    PlainBuildEquation(g, c);
    NoDeps(g, c);
  }

  lemma ClosedWith(g: Graph, s: set<TypeId>, c: TypeId)
    requires Closed(g, s) && Deps(g, c) <= s + {c}
    ensures Closed(g, s + {c})
  {
    hide Deps;
  }

  ghost predicate Reaches(g: Graph, s: set<TypeId>, t: TypeId) {
    exists path: seq<TypeId> :: path != [] && path[0] in s && path[|path| - 1] == t && IsPath(g, path)
  }

  /** What building the classes of `s` can lead to. */
  ghost function Reach(g: Graph, s: set<TypeId>): set<TypeId> {
    set t | t in s + Known(g) && Reaches(g, s, t)
  }

  lemma ReachesOn(g: Graph, s: set<TypeId>, t: TypeId, d: TypeId)
    requires Reaches(g, s, t) && d in Deps(g, t)
    ensures Reaches(g, s, d)
  {
    hide Deps;
    var path: seq<TypeId> :| path != [] && path[0] in s && path[|path| - 1] == t && IsPath(g, path);
    var longer := path + [d];
    assert longer[0] in s && longer[|longer| - 1] == d;
  }

  lemma ReachClosed(g: Graph, s: set<TypeId>)
    ensures s <= Reach(g, s) && Closed(g, Reach(g, s))
  {
    hide Deps, Known, Reaches;
    forall t | t in s ensures Reaches(g, s, t) {
      ReachesItself(g, s, t);
    }
    forall t, d | t in Reach(g, s) && d in Deps(g, t) ensures d in Reach(g, s) {
      DepsKnown(g, t);
      ReachesOn(g, s, t, d);
    }
  }

  lemma ReachesItself(g: Graph, s: set<TypeId>, t: TypeId)
    requires t in s
    ensures Reaches(g, s, t)
  {
    hide Deps;
    var path := [t];
    assert path[0] in s;
  }

  lemma ClosedUnion(g: Graph, s: set<TypeId>, t: set<TypeId>)
    requires Closed(g, s) && Closed(g, t)
    ensures Closed(g, s + t)
  {
    hide Deps;
  }

  // ---- A condition on what the classes ask for ----

  /** The request asks for the type itself, or by the bean name. */
  predicate Asks(a: Annotation, t: TypeId, name: string) {
    match a
    case Plain(cls) => cls == t
    case OptionalOf(cls) => cls == t
    case ListOf(_) => false
    case ClassRef(_) => false
    case Annotated(_, Some(wanted)) => name != "" && wanted == name
    case Annotated(base, None) => Asks(base, t, name)
  }

  predicate FieldAsks(fd: Field, t: TypeId, name: string) {
    match fd
    case Qualified(_, bean) => name != "" && bean == name
    case Marked(_, a) => Asks(a, t, name)
    case Typed(_, cls, _) => cls == t
  }

  ghost predicate ClassAsks(g: Graph, c: TypeId, t: TypeId, name: string) {
    || (exists p :: p in g.Class(c).params && Asks(p.annotation, t, name))
    || (exists fd :: fd in g.Class(c).fields && FieldAsks(fd, t, name))
  }

  /** No binding leads to the type yet. */
  ghost predicate Unbound(g: Graph, t: TypeId) {
    forall i :: i in g.bindings ==> t !in g.bindings[i]
  }

  lemma {:induction false} FirstPrimarySame(g: Graph, h: Graph, impls: seq<TypeId>)
    requires forall i :: i in impls ==> g.Class(i) == h.Class(i)
    ensures FirstPrimary(g, impls) == FirstPrimary(h, impls)
    ensures FirstPrimary(g, impls).Some? ==> FirstPrimary(g, impls).value in impls
  {
    if impls != [] {
      FirstPrimarySame(g, h, impls[1..]);
    }
  }

  lemma CandidateSame(g: Graph, t: TypeId, def: ClassDef, name: string, cls: TypeId)
    requires cls != t && Unbound(g, t)
    ensures Candidate(g, cls) == Candidate(Enrolled(g, t, def, name), cls)
  {
    FirstPrimarySame(g, Enrolled(g, t, def, name), g.Impls(cls));
  }

  lemma {:induction false} UnaskedSame(g: Graph, t: TypeId, def: ClassDef, name: string, a: Annotation)
    requires Unbound(g, t) && !Asks(a, t, name)
    ensures SameRequests(g, Enrolled(g, t, def, name), a)
  {
    hide Candidate;
    match a
    case Plain(cls) => CandidateSame(g, t, def, name, cls);
    case OptionalOf(cls) => CandidateSame(g, t, def, name, cls);
    case ListOf(_) =>
    case ClassRef(_) =>
    case Annotated(base, qualifier) => if qualifier.None? { UnaskedSame(g, t, def, name, base); }
  }

  /** Registering a new type that nobody in `s` asks for, by type or by name, leaves `s` undisturbed. */
  lemma UnaskedUndisturbed(g: Graph, s: set<TypeId>, t: TypeId, def: ClassDef, name: string)
    requires Closed(g, s) && t !in s && Unbound(g, t)
    requires forall c :: c in s ==> !ClassAsks(g, c, t, name)
    ensures Undisturbed(g, Enrolled(g, t, def, name), s)
  {
    hide Deps, Candidate, SameRequests, Asks, Unbound;
    var h := Enrolled(g, t, def, name);
    forall c | c in s ensures SameClass(g, h, c) {
      forall p | p in g.Class(c).params ensures SameRequests(g, h, p.annotation) {
        UnaskedSame(g, t, def, name, p.annotation);
      }
      forall fd | fd in g.Class(c).fields ensures SameFieldRequests(g, h, fd) {
        assert !FieldAsks(fd, t, name);
        match fd
        case Qualified(_, _) =>
        case Marked(_, a) => UnaskedSame(g, t, def, name, a);
        case Typed(_, cls, _) => CandidateSame(g, t, def, name, cls);
      }
    }
  }

  /** The request is served through the bindings of the interface, when the type itself is not registered. */
  predicate Wants(a: Annotation, interface: TypeId) {
    match a
    case Plain(cls) => cls == interface
    case OptionalOf(cls) => cls == interface
    case ListOf(cls) => cls == interface
    case ClassRef(_) => false
    case Annotated(_, Some(_)) => false
    case Annotated(base, None) => Wants(base, interface)
  }

  ghost predicate ClassWants(g: Graph, c: TypeId, interface: TypeId) {
    || (exists p :: p in g.Class(c).params && Wants(p.annotation, interface))
    || (exists fd :: fd in g.Class(c).fields && FieldWants(fd, interface))
  }

  predicate FieldWants(fd: Field, interface: TypeId) {
    match fd
    case Qualified(_, _) => false
    case Marked(_, a) => Wants(a, interface)
    case Typed(_, cls, _) => cls == interface
  }

  lemma {:induction false} UnwantedSame(g: Graph, interface: TypeId, impl: TypeId, a: Annotation)
    requires !Wants(a, interface)
    ensures SameRequests(g, Bound(g, interface, impl), a)
  {
    match a
    case Plain(cls) => BoundCandidate(g, interface, impl, cls);
    case OptionalOf(cls) => BoundCandidate(g, interface, impl, cls);
    case ListOf(_) =>
    case ClassRef(_) =>
    case Annotated(base, qualifier) => if qualifier.None? { UnwantedSame(g, interface, impl, base); }
  }

  lemma BoundCandidate(g: Graph, interface: TypeId, impl: TypeId, cls: TypeId)
    requires cls != interface
    ensures Candidate(g, cls) == Candidate(Bound(g, interface, impl), cls)
  {
    FirstPrimarySame(g, Bound(g, interface, impl), g.Impls(cls));
  }

  /** Binding an interface that nobody in `s` wants leaves `s` undisturbed. */
  lemma UnwantedUndisturbed(g: Graph, s: set<TypeId>, interface: TypeId, impl: TypeId)
    requires Closed(g, s) && forall c :: c in s ==> !ClassWants(g, c, interface)
    ensures Undisturbed(g, Bound(g, interface, impl), s)
  {
    hide Deps, Candidate, SameRequests, Wants;
    var h := Bound(g, interface, impl);
    forall c | c in s ensures SameClass(g, h, c) {
      forall p | p in g.Class(c).params ensures SameRequests(g, h, p.annotation) {
        UnwantedSame(g, interface, impl, p.annotation);
      }
      forall fd | fd in g.Class(c).fields ensures SameFieldRequests(g, h, fd) {
        assert !FieldWants(fd, interface);
        match fd
        case Qualified(_, _) =>
        case Marked(_, a) => UnwantedSame(g, interface, impl, a);
        case Typed(_, cls, _) => BoundCandidate(g, interface, impl, cls);
      }
    }
  }

  // ---- For a newcomer that can be built, the exact condition ----

  ghost predicate Built(g: Graph, c: TypeId) {
    PlainBuild(g, c).Ends? && PlainBuild(g, c).result.Ok?
  }

  /** What a value holds is of known classes. */
  ghost predicate Mentions(v: Value, t: TypeId) {
    v.Bean? && v.bean.cls == t
  }

  lemma BuiltClass(g: Graph, c: TypeId)
    requires Built(g, c)
    ensures PlainBuild(g, c).result.value.cls == c
    ensures Args(g, Limit(g), c, g.Class(c).params) == Ends(Ok(PlainBuild(g, c).result.value.args))
    ensures Fields(g, Limit(g), c, g.Class(c).fields) == Ends(Ok(PlainBuild(g, c).result.value.fields))
  {
    hide Args, Fields, PlainBuild;
    PlainBuildEquation(g, c);
  }

  /** When all arguments are found, each is, and its value is passed on. */
  lemma {:induction false} ArgsFound(g: Graph, f: Oracle, owner: TypeId, ps: seq<Param>, p: Param)
    requires p in ps && Args(g, f, owner, ps).Ends? && Args(g, f, owner, ps).result.Ok?
    ensures var o := ByAnnotation(g, f, p.annotation);
      && o.Ends? && (o.result.Err? ==> o.result.error.Caught())
      && (o.result.Ok? ==> (p.name, o.result.value) in Args(g, f, owner, ps).result.value)
    decreases |ps|
  {
    hide ByAnnotation;
    if p != ps[|ps| - 1] {
      ArgsFound(g, f, owner, ps[..|ps| - 1], p);
    }
  }

  lemma {:induction false} FieldsFound(g: Graph, f: Oracle, owner: TypeId, fds: seq<Field>, fd: Field)
    requires fd in fds && Fields(g, f, owner, fds).Ends? && Fields(g, f, owner, fds).result.Ok?
    ensures var o := FieldValue(g, f, owner, fd);
      o.Ends? && o.result.Ok? && (fd.name, o.result.value) in Fields(g, f, owner, fds).result.value
    decreases |fds|
  {
    hide FieldValue;
    if fd != fds[|fds| - 1] {
      FieldsFound(g, f, owner, fds[..|fds| - 1], fd);
    }
  }

  /** Beans injected from `g` are of classes `g` knows. */
  lemma {:induction false} AnnotationKnown(g: Graph, a: Annotation, t: TypeId)
    requires t !in Known(g)
    ensures var o := ByAnnotation(g, Limit(g), a); o.Ends? && o.result.Ok? ==> !Mentions(o.result.value, t)
  {
    hide PlainBuild;
    match a
    case Annotated(base, None) => AnnotationKnown(g, base, t);
    case ListOf(_) =>
    case ClassRef(_) =>
    case Plain(cls) => RefKnown(g, Candidate(g, cls), t);
    case OptionalOf(cls) => RefKnown(g, Candidate(g, cls), t);
    case Annotated(_, Some(name)) => RefKnown(g, Named(g, name), t);
  }

  lemma RefKnown(g: Graph, impl: Res<TypeId>, t: TypeId)
    requires t !in Known(g) && (impl.Ok? ==> impl.value in Known(g))
    ensures var o := ByRef(Limit(g), impl); o.Ends? && o.result.Ok? ==> o.result.value.cls != t
  {
    hide PlainBuild, Known;
    if impl.Ok? && Built(g, impl.value) { BuiltClass(g, impl.value); }
  }

  lemma {:induction false} ArgsKnown(g: Graph, owner: TypeId, ps: seq<Param>, t: TypeId)
    requires t !in Known(g) && Args(g, Limit(g), owner, ps).Ends? && Args(g, Limit(g), owner, ps).result.Ok?
    ensures forall n, v :: (n, v) in Args(g, Limit(g), owner, ps).result.value ==> !Mentions(v, t)
    decreases |ps|
  {
    hide ByAnnotation, Limit, Known, Mentions;
    if ps != [] {
      ArgsKnown(g, owner, ps[..|ps| - 1], t);
      AnnotationKnown(g, ps[|ps| - 1].annotation, t);
    }
  }

  lemma FieldKnown(g: Graph, owner: TypeId, fd: Field, t: TypeId)
    requires t !in Known(g)
    ensures var o := FieldValue(g, Limit(g), owner, fd); o.Ends? && o.result.Ok? ==> !Mentions(o.result.value, t)
  {
    hide PlainBuild, ByAnnotation;
    match fd
    case Qualified(_, bean) => RefKnown(g, Named(g, bean), t);
    case Marked(_, a) => AnnotationKnown(g, a, t);
    case Typed(_, cls, _) => RefKnown(g, Candidate(g, cls), t);
  }

  lemma {:induction false} FieldsKnown(g: Graph, owner: TypeId, fds: seq<Field>, t: TypeId)
    requires t !in Known(g) && Fields(g, Limit(g), owner, fds).Ends? && Fields(g, Limit(g), owner, fds).result.Ok?
    ensures forall n, v :: (n, v) in Fields(g, Limit(g), owner, fds).result.value ==> !Mentions(v, t)
    decreases |fds|
  {
    hide FieldValue, Limit, Known, Mentions;
    if fds != [] {
      FieldsKnown(g, owner, fds[..|fds| - 1], t);
      FieldKnown(g, owner, fds[|fds| - 1], t);
    }
  }

  /** Once registered, the newcomer is what such a request gets. */
  lemma {:induction false} AskedFound(g: Graph, t: TypeId, def: ClassDef, name: string, a: Annotation)
    requires Asks(a, t, name) && Built(Enrolled(g, t, def, name), t)
    ensures var h := Enrolled(g, t, def, name);
      var o := ByAnnotation(h, Limit(h), a);
      o.Ends? && o.result.Ok? && Mentions(o.result.value, t)
  {
    hide PlainBuild;
    BuiltClass(Enrolled(g, t, def, name), t);
    match a
    case Annotated(base, None) => AskedFound(g, t, def, name, base);
    case Annotated(_, Some(_)) =>
    case Plain(_) =>
    case OptionalOf(_) =>
  }

  lemma FieldAskedFound(g: Graph, t: TypeId, def: ClassDef, name: string, owner: TypeId, fd: Field)
    requires FieldAsks(fd, t, name) && Built(Enrolled(g, t, def, name), t)
    ensures var h := Enrolled(g, t, def, name);
      var o := FieldValue(h, Limit(h), owner, fd);
      o.Ends? && o.result.Ok? && Mentions(o.result.value, t)
  {
    hide PlainBuild;
    BuiltClass(Enrolled(g, t, def, name), t);
    if fd.Marked? { AskedFound(g, t, def, name, fd.annotation); }
  }

  /** A bean whose class asks for the newcomer would now be built with it. */
  lemma AskedDiffers(g: Graph, t: TypeId, def: ClassDef, name: string, c: TypeId)
    requires t !in Known(g) && t != c && Built(Enrolled(g, t, def, name), t)
    requires Built(g, c) && ClassAsks(g, c, t, name)
    ensures PlainBuild(Enrolled(g, t, def, name), c) != PlainBuild(g, c)
  {
    hide PlainBuild, Limit, Mentions, Known, Args, Fields, ByAnnotation, FieldValue, Asks, FieldAsks;
    var h := Enrolled(g, t, def, name);
    assert h.Class(c) == g.Class(c);
    BuiltClass(g, c);
    if PlainBuild(h, c) == PlainBuild(g, c) {
      BuiltClass(h, c);
      ArgsKnown(g, c, g.Class(c).params, t);
      FieldsKnown(g, c, g.Class(c).fields, t);
      if p :| p in g.Class(c).params && Asks(p.annotation, t, name) {
        AskedFound(g, t, def, name, p.annotation);
        ArgsFound(h, Limit(h), c, h.Class(c).params, p);
      } else {
        var fd :| fd in g.Class(c).fields && FieldAsks(fd, t, name);
        FieldAskedFound(g, t, def, name, c, fd);
        FieldsFound(h, Limit(h), c, h.Class(c).fields, fd);
      }
    }
  }

  /**
   Registering a new type that can be built leaves a set of built beans what plain construction gives
   exactly when none of their classes asks for it, by its type or by its bean name.
   */
  lemma RegisterKeepsIff(g: Graph, s: set<TypeId>, t: TypeId, def: ClassDef, name: string)
    requires Closed(g, s) && t !in s && t !in Known(g) && Unbound(g, t)
    requires (forall c :: c in s ==> Built(g, c)) && Built(Enrolled(g, t, def, name), t)
    ensures (forall c :: c in s ==> PlainBuild(Enrolled(g, t, def, name), c) == PlainBuild(g, c)) <==>
      (forall c :: c in s ==> !ClassAsks(g, c, t, name))
  {
    hide Closed, PlainBuild, ClassAsks, Undisturbed;
    if c :| c in s && ClassAsks(g, c, t, name) {
      AskedDiffers(g, t, def, name, c);
    } else {
      UnaskedUndisturbed(g, s, t, def, name);
      forall c | c in s ensures PlainBuild(Enrolled(g, t, def, name), c) == PlainBuild(g, c) {
        PlainSame(g, Enrolled(g, t, def, name), s, c);
      }
    }
  }

  // ---- A bean built too early ----

  const WAITING := ClassDef([Param("b", OptionalOf("B"), false)], [], false, None, "")
  const EARLY := Graph({"A"}, map[], map[], map["A" := WAITING])
  const LATE := Enrolled(EARLY, "B", BARE_CLASS, "")

  lemma OneParam(g: Graph, c: TypeId, p: Param, v: Value)
    requires g.Class(c).params == [p] && g.Class(c).fields == []
    requires ByAnnotation(g, Limit(g), p.annotation) == Ends(Ok(v))
    ensures PlainBuild(g, c) == Ends(Ok(Obj(c, [(p.name, v)], [])))
  {
    hide PlainBuild, ByAnnotation;
    PlainBuildEquation(g, c);
    var ps := g.Class(c).params;
    assert ps[..|ps| - 1] == [] && ps[|ps| - 1] == p;
    assert Args(g, Limit(g), c, ps[..|ps| - 1]) == Ends(Ok([]));
    assert Arg(g, Limit(g), c, p) == Ends(Ok(Some(v)));
    assert Args(g, Limit(g), c, ps) == Ends(Ok([] + [(p.name, v)]));
    assert [] + [(p.name, v)] == [(p.name, v)];
  }

  /** A bean with an optional dependency, built before the dependency is registered, goes without it for good. */
  lemma BuiltTooEarly()
    ensures PlainBuild(EARLY, "A") == Ends(Ok(Obj("A", [("b", Nothing)], [])))
    ensures PlainBuild(LATE, "A") == Ends(Ok(Obj("A", [("b", Bean(Obj("B", [], [])))], [])))
  {
    hide PlainBuild;
    OneParam(EARLY, "A", WAITING.params[0], Nothing);
    OpaqueBuild(LATE, "B", BARE_CLASS);
    OneParam(LATE, "A", WAITING.params[0], Bean(Obj("B", [], [])));
  }
}
