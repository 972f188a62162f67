/** The dependency-injection container: registrations, cached singletons and the in-creation stack. */
module Container {
  import opened Wrappers
  import opened BeanGraph
  import opened Rewiring

  class Registration {
    const implType: TypeId
    const scope: Scope
    const name: string
    var instance: Option<Obj>

    constructor (implType: TypeId, scope: Scope, name: string)
      ensures this.implType == implType && this.scope == scope && this.name == name
      ensures instance == None
    {
      this.implType, this.scope, this.name := implType, scope, name;
      instance := None;
    }
  }

  /** `dict.pop(key, None)` on the insertion-ordered `_resolving`. */
  function Pop(keys: seq<TypeId>, key: TypeId): seq<TypeId> {
    if keys == [] then []
    else if keys[0] == key then keys[1..]
    else [keys[0]] + Pop(keys[1..], key)
  }

  lemma {:induction false} PopLast(keys: seq<TypeId>, key: TypeId)
    ensures key !in keys ==> Pop(keys + [key], key) == keys
  {
    if keys != [] {
      assert (keys + [key])[1..] == keys[1..] + [key];
      PopLast(keys[1..], key);
    }
  }

  class Container {
    /** The bean classes: their constructors, `Autowired` fields and `@primary` marks. */
    const classes: map<TypeId, ClassDef>
    var registrations: map<TypeId, Registration>
    var named: map<string, Registration>
    var bindings: map<TypeId, seq<TypeId>>
    var resolving: seq<TypeId>
    /** Every registration object the dictionaries refer to. */
    ghost var regs: set<Registration>
    /** Completed constructions, by registration. */
    ghost var creations: multiset<Registration>
    /** The registrations whose instance was handed in. */
    ghost var supplied: set<Registration>
    /** Closed under dependencies; everything cached or under construction lies in it. */
    ghost var zone: set<TypeId>

    function RealClass(cls: TypeId): ClassDef {
      ClassOf(classes, cls)
    }

    /** The instance of the type was handed in. */
    ghost predicate IsOpaque(cls: TypeId)
      reads this`registrations, this`supplied
    {
      cls in registrations && registrations[cls] in supplied
    }

    ghost function Wiring(): Graph
      reads this`registrations, this`named, this`bindings, this`supplied
    {
      Graph(
        registrations.Keys,
        map n | n in named :: named[n].implType,
        bindings,
        map t | t in classes.Keys + registrations.Keys :: if IsOpaque(t) then Opaque(RealClass(t)) else RealClass(t))
    }

    lemma WiredClass(cls: TypeId)
      ensures Wiring().Class(cls) == if IsOpaque(cls) then Opaque(RealClass(cls)) else RealClass(cls)
      ensures Wiring().Class(cls).primary == RealClass(cls).primary
    {
    }

    lemma WiredParts()
      ensures Wiring().registered == registrations.Keys && Wiring().bindings == bindings
      ensures Wiring().named == map n | n in named :: named[n].implType
    {
    }

    ghost function Universe(): set<TypeId>
      reads this`regs
    {
      set r | r in regs :: r.implType
    }

    /** The registration objects the dictionaries refer to. */
    ghost function Reachable(): set<Registration>
      reads this`registrations, this`named
    {
      (set k | k in registrations :: registrations[k]) + (set n | n in named :: named[n])
    }

    ghost predicate Wired()
      reads this`registrations, this`named, this`regs
    {
      && regs == Reachable()
      && (forall k :: k in registrations ==> registrations[k].implType == k)
    }

    /** A handed-in instance is there for good, and serves every registration of its type. */
    ghost predicate Handed()
      reads this`registrations, this`supplied, this`regs, regs
    {
      && (forall r :: r in regs && r in supplied ==> Cached(r))
      && (forall r :: r in regs && IsOpaque(r.implType) ==> Cached(r) && r.instance == Some(Obj(r.implType, [], [])))
    }

    ghost predicate Cached(r: Registration)
      reads r
    {
      r.scope.Singleton? && r.instance.Some?
    }

    /** A cached instance is the plain construction of its class. */
    ghost predicate CacheSound()
      reads this`registrations, this`named, this`bindings, this`supplied, this`regs, regs
    {
      forall r :: r in regs && Cached(r) ==> PlainBuild(Wiring(), r.implType) == Ends(Ok(r.instance.value))
    }

    /**
     Every cached singleton that was not handed in was constructed to completion exactly once, every
     other one never; `pending` is one that is complete and about to be cached.
     */
    ghost predicate BuiltOnce(pending: set<Registration>)
      reads this`creations, this`supplied, this`regs, regs
    {
      forall r :: r in regs && r.scope.Singleton? ==>
        creations[r] == if (r.instance.Some? || r in pending) && r !in supplied then 1 else 0
    }

    ghost predicate CachedIn(s: set<TypeId>)
      reads this`regs, regs
    {
      forall r :: r in regs && Cached(r) ==> r.implType in s
    }

    ghost predicate Zoned()
      reads this`registrations, this`named, this`bindings, this`supplied, this`resolving, this`zone, this`regs, regs
    {
      && Closed(Wiring(), zone) && CachedIn(zone)
      && (forall t :: t in resolving ==> t in zone && !IsOpaque(t))
    }

    ghost predicate Valid()
      reads this, regs
    {
      Wired() && Handed() && CacheSound() && BuiltOnce({}) && StackSound(Wiring(), Universe(), resolving) && Zoned()
    }

    lemma Looked(cls: TypeId)
      requires Valid() && cls in registrations
      ensures registrations[cls] in regs && registrations[cls].implType == cls
    {
    }

    lemma CachedIsPlain(reg: Registration)
      requires Valid() && reg in regs
      ensures Cached(reg) ==> PlainBuild(Wiring(), reg.implType) == Ends(Ok(reg.instance.value))
    {
      hide Wired, Handed, BuiltOnce, StackSound, Zoned, Wiring, PlainBuild;
    }

    /** Whoever is being constructed may ask for `wanted`; otherwise it has to lie in the zone. */
    ghost predicate MayRequest(wanted: set<TypeId>)
      reads this
    {
      wanted <= if resolving == [] then zone else Deps(Wiring(), resolving[|resolving| - 1])
    }

    /** What every resolver call keeps, on normal and on exceptional exit. */
    twostate predicate Steady()
      reads this, regs
    {
      && resolving == old(resolving) && old(creations) <= creations
      && registrations == old(registrations) && named == old(named) && bindings == old(bindings) && regs == old(regs)
      && (forall r :: r in regs && (old(r.instance).Some? || r.implType in resolving) ==>
            r.instance == old(r.instance))
    }

    constructor (classes: map<TypeId, ClassDef>)
      ensures Valid() && resolving == [] && this.classes == classes
      ensures registrations == map[] && named == map[] && bindings == map[] && regs == {} && zone == {} && supplied == {}
      ensures Wiring() == Graph({}, map[], map[], classes)
    {
      this.classes := classes;
      registrations, named, bindings, resolving := map[], map[], map[], [];
      regs, creations, supplied, zone := {}, multiset{}, {}, {};
    }

    /** `reg` is the registration of `cls`, and under `name` when there is one; nothing else has changed. */
    twostate predicate Entered(new cls: TypeId, new name: string, new reg: Registration)
      reads this
    {
      && reg.implType == cls && reg !in supplied && supplied == old(supplied)
      && registrations == old(registrations)[cls := reg]
      && named == (if name == "" then old(named) else old(named)[name := reg])
      && bindings == old(bindings)
      && regs == Reachable()
    }

    twostate lemma EnteredRegs(new cls: TypeId, new name: string, new reg: Registration)
      requires old(Wired())
      requires Entered(cls, name, reg)
      ensures Wired()
      ensures regs <= old(regs) + {reg}
    {
      hide IsOpaque;
    }

    twostate lemma EnteredClasses(new cls: TypeId, new name: string, new reg: Registration)
      requires Entered(cls, name, reg)
      ensures Wiring().classes == old(Wiring()).classes[cls := RealClass(cls)]
      ensures Wiring().registered == old(Wiring()).registered + {cls} && Wiring().bindings == old(Wiring()).bindings
      ensures forall t :: IsOpaque(t) <==> t != cls && old(IsOpaque(t))
    {
      hide Opaque, Reachable;
    }

    twostate lemma EnteredNames(new cls: TypeId, new name: string, new reg: Registration)
      requires Entered(cls, name, reg)
      ensures Wiring().named == if name == "" then old(Wiring()).named else old(Wiring()).named[name := cls]
    {
      hide Opaque, Reachable, IsOpaque;
    }

    /** A change to the dictionaries that leaves the zone undisturbed leaves the container valid. */
    twostate lemma StillValid()
      requires old(Valid()) && resolving == [] && old(resolving) == [] && Wired()
      requires zone == old(zone) && supplied == old(supplied) && creations == old(creations)
      requires Undisturbed(old(Wiring()), Wiring(), zone)
      requires forall t :: IsOpaque(t) ==> old(IsOpaque(t))
      requires forall r :: r in regs && r in old(regs) ==> r.instance == old(r.instance)
      requires forall r :: r in regs && r !in old(regs) ==> !Cached(r) && r !in supplied && r !in creations && !IsOpaque(r.implType)
      ensures Valid()
    {
      hide Undisturbed, PlainBuild, Wiring, IsOpaque, Reachable, Closed;
      AllSame(old(Wiring()), Wiring(), zone);
    }

    twostate lemma EnteredValid(new cls: TypeId, new name: string, new reg: Registration)
      requires Wired() && Entered(cls, name, reg) && regs <= old(regs) + {reg} && reg !in creations && reg.instance.None?
      requires forall t :: IsOpaque(t) <==> t != cls && old(IsOpaque(t))
      requires zone == old(zone) && creations == old(creations) && resolving == old(resolving)
      requires forall r :: r in old(regs) ==> r.instance == old(r.instance)
      ensures old(Valid()) && resolving == [] && Undisturbed(old(Wiring()), Wiring(), zone) ==> Valid()
    {
      hide Valid, Undisturbed, Wiring, IsOpaque, Wired;
      if old(Valid()) && resolving == [] && Undisturbed(old(Wiring()), Wiring(), zone) {
        StillValid();
      }
    }

    /** The beans already cached stay sound exactly as far as the new registration leaves their classes undisturbed. */
    method Register(cls: TypeId, scope: Scope, name: string)
      requires Wired()
      modifies this`registrations, this`named, this`regs
      ensures Wired()
      ensures cls in registrations && fresh(registrations[cls]) && regs <= old(regs) + {registrations[cls]}
      ensures registrations == old(registrations)[cls := registrations[cls]]
      ensures registrations[cls].implType == cls && registrations[cls].instance == None
      ensures registrations[cls].scope == RealClass(cls).scope.GetOr(scope)
      ensures registrations[cls].name == if name != "" then name else RealClass(cls).beanName
      ensures named == if registrations[cls].name == "" then old(named)
                       else old(named)[registrations[cls].name := registrations[cls]]
      ensures Wiring() == Enrolled(old(Wiring()), cls, RealClass(cls), registrations[cls].name)
      ensures forall t :: IsOpaque(t) <==> t != cls && old(IsOpaque(t))
      ensures old(Valid()) && resolving == [] && Undisturbed(old(Wiring()), Wiring(), zone) ==> Valid()
    {
      hide Valid, Undisturbed, Wiring, IsOpaque, Wired;
      var def := RealClass(cls);
      var beanName := if name != "" then name else def.beanName;
      var beanScope := if def.scope.Some? then def.scope.value else scope;
      var reg := new Registration(cls, beanScope, beanName);
      registrations := registrations[cls := reg];
      if beanName != "" {
        named := named[beanName := reg];
      }
      regs := Reachable();
      EnteredRegs(cls, beanName, reg);
      EnteredClasses(cls, beanName, reg);
      EnteredNames(cls, beanName, reg);
      EnteredValid(cls, beanName, reg);
    }

    twostate lemma SuppliedWiring(new reg: Registration)
      requires Wired() && reg.implType in registrations && registrations[reg.implType] == reg
      requires registrations == old(registrations) && named == old(named) && bindings == old(bindings)
      requires supplied == old(supplied) + {reg}
      ensures Wiring() == old(Wiring()).(classes := old(Wiring()).classes[reg.implType := Opaque(RealClass(reg.implType))])
      ensures forall t :: IsOpaque(t) <==> t == reg.implType || old(IsOpaque(t))
    {
      hide Opaque, Reachable;
      assert forall t :: t in registrations && t != reg.implType ==> registrations[t] != reg;
    }

    lemma AllKnown()
      requires Wired()
      ensures forall r :: r in regs ==> r.implType in Known(Wiring())
    {
      WiredParts();
      forall r | r in regs ensures r.implType in Known(Wiring()) {
        if n :| n in named && named[n] == r {
          assert Wiring().named[n] == r.implType;
        }
      }
    }

    /** As `StillValid`, with a new instance `reg` that nobody constructs. */
    twostate lemma StillValidWith(new cls: TypeId, new reg: Registration)
      requires old(Valid()) && resolving == [] && old(resolving) == [] && Wired()
      requires zone == old(zone) + {cls} && supplied == old(supplied) + {reg} && creations == old(creations)
      requires Undisturbed(old(Wiring()), Wiring(), old(zone))
      requires Wiring().Class(cls) == Opaque(RealClass(cls))
      requires forall t :: IsOpaque(t) ==> t == cls || old(IsOpaque(t))
      requires regs <= old(regs) + {reg} && reg !in creations
      requires reg.scope.Singleton? && reg.instance == Some(Obj(cls, [], []))
      requires old(IsOpaque(cls)) || forall r :: r in old(regs) ==> r.implType != cls
      requires reg.implType == cls && reg !in old(regs) && forall r :: r in regs && r != reg ==> r.instance == old(r.instance)
      ensures Valid()
    {
      hide Undisturbed, PlainBuild, Wiring, IsOpaque, Reachable, Closed;
      AllSame(old(Wiring()), Wiring(), old(zone));
      OpaqueBuild(Wiring(), cls, RealClass(cls));
      ClosedWith(Wiring(), old(zone), cls);
    }

    /** `register`, and then the instance set from outside: for the context's own beans and for factory results. */
    method HandIn(cls: TypeId, name: string)
      requires Wired()
      modifies this`registrations, this`named, this`regs, this`supplied, this`zone
      ensures Wired()
      ensures cls in registrations && fresh(registrations[cls]) && regs <= old(regs) + {registrations[cls]}
      ensures registrations == old(registrations)[cls := registrations[cls]]
      ensures registrations[cls].instance == Some(Obj(cls, [], []))
      ensures registrations[cls].scope == RealClass(cls).scope.GetOr(Singleton)
      ensures registrations[cls].name == if name != "" then name else RealClass(cls).beanName
      ensures named == if registrations[cls].name == "" then old(named)
                       else old(named)[registrations[cls].name := registrations[cls]]
      ensures Wiring() == Enrolled(
                old(Wiring()), cls,
                if registrations[cls].scope.Singleton? then Opaque(RealClass(cls)) else RealClass(cls), registrations[cls].name)
      ensures zone == if registrations[cls].scope.Singleton? then old(zone) + {cls} else old(zone)
      ensures forall t :: IsOpaque(t) <==> if t == cls then registrations[cls].scope.Singleton? else old(IsOpaque(t))
      ensures (
        && old(Valid()) && resolving == [] && Undisturbed(old(Wiring()), Wiring(), old(zone))
        && (old(IsOpaque(cls)) || cls !in Known(old(Wiring())))) ==> Valid()
    {
      hide Valid, Undisturbed, Wiring, IsOpaque, Wired, Opaque, Known, Enrolled, Reachable;
      AllKnown();
      Register(cls, Singleton, name);
      var reg := registrations[cls];
      label Registered:
      reg.instance := Some(Obj(cls, [], []));
      if reg.scope.Singleton? {
        supplied, zone := supplied + {reg}, zone + {cls};
        SuppliedWiring@Registered(reg);
        EnrolledAgain(old(Wiring()), cls, RealClass(cls), Opaque(RealClass(cls)), reg.name);
        if
          && old(Valid()) && resolving == [] && Undisturbed(old(Wiring()), Wiring(), old(zone))
          && (old(IsOpaque(cls)) || cls !in Known(old(Wiring())))
        {
          StillValidWith(cls, reg);
        }
      } else if old(Valid()) && resolving == [] && Undisturbed(old(Wiring()), Wiring(), old(zone)) {
        StillValid();
      }
    }

    twostate lemma BoundWiring(new interface: TypeId, new implementation: TypeId)
      requires registrations == old(registrations) && named == old(named) && supplied == old(supplied)
      requires var impls := if interface in old(bindings) then old(bindings)[interface] else [];
        bindings == old(bindings)[interface := if implementation in impls then impls else impls + [implementation]]
      ensures Wiring() == Bound(old(Wiring()), interface, implementation)
    {
    }

    method Bind(interface: TypeId, implementation: TypeId)
      requires Wired()
      modifies this`bindings
      ensures Wiring() == Bound(old(Wiring()), interface, implementation)
      ensures old(Valid()) && resolving == [] && Undisturbed(old(Wiring()), Wiring(), zone) ==> Valid()
    {
      hide Valid, Undisturbed, Handed, CacheSound, BuiltOnce, StackSound, Zoned, Closed, Wiring, Opaque;
      if interface !in bindings {
        bindings := bindings[interface := []];
      }
      if implementation !in bindings[interface] {
        bindings := bindings[interface := bindings[interface] + [implementation]];
      }
      BoundWiring(interface, implementation);
      if old(Valid()) && resolving == [] && Undisturbed(old(Wiring()), Wiring(), zone) {
        StillValid();
      }
    }

    /** `_remove_registration` of the application context: bindings to the type are left dangling. */
    method Remove(cls: TypeId)
      requires Wired() && cls in registrations
      modifies this`registrations, this`named, this`regs
      ensures Wired() && regs <= old(regs)
      ensures registrations == old(registrations) - {cls}
      ensures named == if old(registrations)[cls].name == "" then old(named) else old(named) - {old(registrations)[cls].name}
      ensures old(Valid()) && resolving == [] && Undisturbed(old(Wiring()), Wiring(), zone) ==> Valid()
    {
      hide Valid, Undisturbed, Handed, CacheSound, BuiltOnce, StackSound, Zoned, Closed, Wiring, Opaque;
      var reg := registrations[cls];
      registrations := registrations - {cls};
      if reg.name != "" && reg.name in named {
        named := named - {reg.name};
      }
      regs := Reachable();
      if old(Valid()) && resolving == [] && Undisturbed(old(Wiring()), Wiring(), zone) {
        StillValid();
      }
    }

    ghost method Widen(s: set<TypeId>)
      requires Valid() && resolving == [] && zone <= s && Closed(Wiring(), s)
      modifies this`zone
      ensures Valid() && zone == s
    {
      hide Wired, Handed, CacheSound, BuiltOnce, StackSound, IsOpaque, Wiring, Closed;
      zone := s;
    }

    ghost predicate AboutToCache(reg: Registration)
      reads this, regs
    {
      && Wired() && Handed() && CacheSound() && StackSound(Wiring(), Universe(), resolving) && Zoned()
      && BuiltOnce({reg}) && reg.implType in zone && !IsOpaque(reg.implType) && reg !in supplied
    }

    lemma Creatable(reg: Registration)
      requires Valid() && reg in regs && MayRequest({reg.implType}) && !Cached(reg)
      ensures reg.implType in zone && !IsOpaque(reg.implType) && reg !in supplied
      ensures reg.implType in Universe() && (resolving == [] || reg.implType in Deps(Wiring(), resolving[|resolving| - 1]))
    {
      hide PlainBuild, Deps, Wiring, IsOpaque, Wired, CacheSound, BuiltOnce, StackSound;
    }

    lemma Circle(reg: Registration)
      requires Valid() && reg in regs && MayRequest({reg.implType}) && !Cached(reg) && reg.implType in resolving
      ensures RealCycle(Wiring(), resolving, resolving, reg.implType)
      ensures Stuck(Wiring(), resolving, reg.implType, RefQuery(Ok(reg.implType)))
    {
      hide Deps, Wiring, Handed, CacheSound, BuiltOnce, Wired, Zoned;
      Creatable(reg);
      PathExtend(Wiring(), Universe(), resolving, reg.implType);
      StuckAtOnce(Wiring(), resolving, reg.implType);
    }

    twostate lemma NowComplete(reg: Registration)
      requires old(Valid()) && reg in regs && !Cached(reg)
      requires reg.implType in zone && !IsOpaque(reg.implType) && reg !in supplied
      requires registrations == old(registrations) && named == old(named) && bindings == old(bindings) && regs == old(regs)
      requires supplied == old(supplied) && resolving == old(resolving) && zone == old(zone)
      requires creations == old(creations) + multiset{reg}
      requires forall r :: r in regs ==> r.instance == old(r.instance)
      ensures if reg.scope.Singleton? then AboutToCache(reg) else Valid()
    {
      hide PlainBuild, Deps, Wiring, IsOpaque, Reachable, Closed, StackSound;
      assert Wiring() == old(Wiring()) && forall t :: IsOpaque(t) == old(IsOpaque(t));
    }

    twostate lemma NowCached(reg: Registration)
      requires old(AboutToCache(reg))
      requires registrations == old(registrations) && named == old(named) && bindings == old(bindings) && regs == old(regs)
      requires supplied == old(supplied) && creations == old(creations) && resolving == old(resolving) && zone == old(zone)
      requires forall r :: r in regs && r != reg ==> r.instance == old(r.instance)
      requires reg.instance.Some? && PlainBuild(Wiring(), reg.implType) == Ends(Ok(reg.instance.value))
      ensures Valid()
    {
      hide PlainBuild, Deps, Wiring, IsOpaque, Reachable, Closed, StackSound;
      assert Wiring() == old(Wiring()) && forall t :: IsOpaque(t) == old(IsOpaque(t));
    }

    method ResolveRegistration(reg: Registration) returns (r: Res<Obj>)
      requires Valid() && reg in regs && MayRequest({reg.implType})
      modifies this`resolving, this`creations, regs
      ensures Valid() && Steady()
      ensures r.Err? && r.error.InCreation? ==>
                && RealCycle(Wiring(), resolving, r.error.chain, r.error.current)
                && Stuck(Wiring(), resolving, r.error.current, RefQuery(Ok(reg.implType)))
      ensures !(r.Err? && r.error.InCreation?) ==> PlainBuild(Wiring(), reg.implType) == Ends(r)
      ensures r.Ok? && reg.scope.Singleton? ==> reg.instance == Some(r.value)
      decreases Universe() - (set t | t in resolving), 1
    {
      hide PlainBuild, Deps, Wiring, IsOpaque, Reachable, Closed, StackSound, AboutToCache, RealCycle, Stuck;
      if reg.scope.Singleton? {
        if reg.instance.Some? {
          return Ok(reg.instance.value);
        }
        r := CreateInstance(reg);
        if r.Ok? {
          label Complete:
          reg.instance := Some(r.value);
          NowCached@Complete(reg);
        }
        return;
      }
      r := CreateInstance(reg);
    }

    method CreateInstance(reg: Registration) returns (r: Res<Obj>)
      requires Valid() && reg in regs && MayRequest({reg.implType})
      requires !Cached(reg)
      modifies this`resolving, this`creations, regs
      ensures if r.Ok? && reg.scope.Singleton? then AboutToCache(reg) else Valid()
      ensures Steady() && !Cached(reg) && (r.Ok? ==> reg.implType !in resolving)
      ensures r.Err? && r.error.InCreation? ==>
                && RealCycle(Wiring(), resolving, r.error.chain, r.error.current)
                && Stuck(Wiring(), resolving, r.error.current, RefQuery(Ok(reg.implType)))
      ensures !(r.Err? && r.error.InCreation?) ==> PlainBuild(Wiring(), reg.implType) == Ends(r)
      decreases Universe() - (set t | t in resolving), 0
    {
      hide PlainBuild, Deps, Wiring, IsOpaque, AboutToCache, RealCycle, Valid, MayRequest, Stuck;
      if reg.implType in resolving {
        Circle(reg);
        return Err(InCreation(resolving, reg.implType));
      }
      Creatable(reg);
      r := CreateGuarded(reg);
      if r.Ok? {
        label Built:
        creations := creations + multiset{reg};
        NowComplete@Built(reg);
      }
    }

    twostate lemma Pushed(new cls: TypeId)
      requires old(Valid()) && cls in zone && !IsOpaque(cls) && cls in Universe() && cls !in old(resolving)
      requires old(resolving) == [] || cls in Deps(Wiring(), old(resolving)[|old(resolving)| - 1])
      requires registrations == old(registrations) && named == old(named) && bindings == old(bindings) && regs == old(regs)
      requires supplied == old(supplied) && creations == old(creations) && zone == old(zone)
      requires forall r :: r in regs ==> r.instance == old(r.instance)
      requires resolving == old(resolving) + [cls]
      ensures Valid()
    {
      hide PlainBuild, Deps, Wiring, IsOpaque, Closed, StackSound, Reachable;
      assert Wiring() == old(Wiring()) && forall t :: IsOpaque(t) == old(IsOpaque(t));
      PathExtend(Wiring(), Universe(), old(resolving), cls);
    }

    twostate lemma Popped(new cls: TypeId)
      requires old(Valid()) && old(resolving) == resolving + [cls]
      requires registrations == old(registrations) && named == old(named) && bindings == old(bindings) && regs == old(regs)
      requires supplied == old(supplied) && creations == old(creations) && zone == old(zone)
      requires forall r :: r in regs ==> r.instance == old(r.instance)
      ensures Valid()
    {
      hide PlainBuild, Deps, Wiring, IsOpaque, Closed, StackSound, Reachable;
      assert Wiring() == old(Wiring()) && forall t :: IsOpaque(t) == old(IsOpaque(t));
      PathShorten(Wiring(), Universe(), resolving, cls);
    }

    /** The `try`/`finally` of `_create_instance`: push, assemble, pop. */
    method CreateGuarded(reg: Registration) returns (r: Res<Obj>)
      requires Valid() && reg in regs && MayRequest({reg.implType})
      requires !Cached(reg) && reg.implType !in resolving
      modifies this`resolving, this`creations, regs
      ensures Valid() && Steady()
      ensures !Cached(reg)
      ensures r.Err? && r.error.InCreation? ==>
                && RealCycle(Wiring(), resolving, r.error.chain, r.error.current)
                && Stuck(Wiring(), resolving, r.error.current, RefQuery(Ok(reg.implType)))
      ensures !(r.Err? && r.error.InCreation?) ==> PlainBuild(Wiring(), reg.implType) == Ends(r)
      decreases Universe() - (set t | t in resolving), 0, 0
    {
      hide PlainBuild, Construct, Deps, Stuck, ByRef, Wiring, Valid, Requests, Named, RealCycle, MayRequest, IsOpaque;
      ghost var g, stack, cls := Wiring(), resolving, reg.implType;
      Creatable(reg);
      PopLast(stack, cls);
      assert cls in Universe() - (set t | t in stack);
      PlainBuildEquation(g, cls);
      resolving := resolving + [reg.implType];
      Pushed(cls);
      label Pushed:
      r := Assemble(reg.implType);
      if r.Err? && r.error.InCreation? {
        StuckConstruct(g, stack, cls, r.error.current);
        CycleBelow(g, stack, cls, r.error.chain, r.error.current);
      }
      label Assembled:
      resolving := Pop(resolving, reg.implType);
      Popped@Assembled(cls);
    }

    lemma Constructed(cls: TypeId)
      requires Valid() && cls in resolving
      ensures !IsOpaque(cls)
    {
      hide Wired, Handed, CacheSound, BuiltOnce, StackSound, IsOpaque, Wiring;
    }

    /** The guarded part of `_create_instance`: arguments, constructor call, then fields. */
    method Assemble(cls: TypeId) returns (r: Res<Obj>)
      requires Valid() && resolving != [] && resolving[|resolving| - 1] == cls
      modifies this`resolving, this`creations, regs
      ensures Valid() && Steady()
      ensures r.Err? && r.error.InCreation? ==>
                && RealCycle(Wiring(), resolving, r.error.chain, r.error.current)
                && Stuck(Wiring(), resolving, r.error.current, ConstructQuery(cls))
      ensures !(r.Err? && r.error.InCreation?) ==> Construct(Wiring(), Limit(Wiring()), cls) == Ends(r)
      decreases Universe() - (set t | t in resolving), 7
    {
      hide Valid, Wiring, IsOpaque, Stuck, RealCycle, Args, Fields, Limit, Deps, Requests;
      Constructed(cls);
      WiredClass(cls);
      var def := RealClass(cls);
      ghost var g := Wiring();
      forall p | p in def.params ensures MayRequest(Requests(g, p.annotation)) {
        DepsCover(g, cls, p);
      }
      var args := ResolveArgs(cls, def.params);
      if args.Err? {
        r := Err(args.error);
        if args.error.InCreation? {
          StuckInjection(g, resolving, args.error.current, cls);
        }
        return;
      }
      var fields := InjectAutowiredFields(cls, def.fields);
      if fields.Err? {
        r := Err(fields.error);
        if fields.error.InCreation? {
          StuckInjection(g, resolving, fields.error.current, cls);
        }
        return;
      }
      r := Ok(Obj(cls, args.value, fields.value));
    }

    method ResolveArgs(cls: TypeId, params: seq<Param>) returns (r: Res<seq<(string, Value)>>)
      requires Valid() && forall p :: p in params ==> MayRequest(Requests(Wiring(), p.annotation))
      modifies this`resolving, this`creations, regs
      ensures Valid() && Steady()
      ensures r.Err? && r.error.InCreation? ==>
                && RealCycle(Wiring(), resolving, r.error.chain, r.error.current)
                && Stuck(Wiring(), resolving, r.error.current, ArgsQuery(cls, params))
      ensures !(r.Err? && r.error.InCreation?) ==> Args(Wiring(), Limit(Wiring()), cls, params) == Ends(r)
      decreases Universe() - (set t | t in resolving), 6
    {
      hide Stuck, RealCycle, Valid, Arg, ByAnnotation, FieldValue, PlainBuild, Requests, FieldRequests, Wiring, Deps;
      ghost var g, f := Wiring(), Limit(Wiring());
      var kwargs := [];
      for i := 0 to |params|
        invariant Valid() && Steady()
        invariant Args(g, f, cls, params[..i]) == Ends(Ok(kwargs))
      {
        assert params[..i + 1][..i] == params[..i];
        var v := ResolveArg(cls, params[i]);
        if v.Err? {
          r := Err(v.error);
          if v.error.InCreation? {
            StuckArgs(g, resolving, v.error.current, cls, params, i);
          } else {
            ArgsPrefix(g, f, cls, params, i + 1);
          }
          return;
        }
        if v.value.Some? {
          kwargs := kwargs + [(params[i].name, v.value.value)];
        }
      }
      assert params[..|params|] == params;
      r := Ok(kwargs);
    }

    /** One turn of the constructor-parameter loop: None keeps the parameter's default. */
    method ResolveArg(cls: TypeId, p: Param) returns (r: Res<Option<Value>>)
      requires Valid() && MayRequest(Requests(Wiring(), p.annotation))
      modifies this`resolving, this`creations, regs
      ensures Valid() && Steady()
      ensures r.Err? && r.error.InCreation? ==>
                && RealCycle(Wiring(), resolving, r.error.chain, r.error.current)
                && Stuck(Wiring(), resolving, r.error.current, AnnotationQuery(p.annotation))
      ensures !(r.Err? && r.error.InCreation?) ==> Arg(Wiring(), Limit(Wiring()), cls, p) == Ends(r)
      decreases Universe() - (set t | t in resolving), 5
    {
      var v := ResolveParam(p.annotation);
      if v.Ok? {
        r := Ok(Some(v.value));
      } else if v.error.Caught() {
        if p.hasDefault {
          r := Ok(None);
        } else {
          r := Err(Unsatisfied(cls, p.name));
        }
      } else {
        r := Err(v.error);
      }
    }

    method InjectAutowiredFields(cls: TypeId, fields: seq<Field>) returns (r: Res<seq<(string, Value)>>)
      requires Valid() && resolving != [] && resolving[|resolving| - 1] == cls
      requires fields == Wiring().Class(cls).fields
      modifies this`resolving, this`creations, regs
      ensures Valid() && Steady()
      ensures r.Err? && r.error.InCreation? ==>
                && RealCycle(Wiring(), resolving, r.error.chain, r.error.current)
                && Stuck(Wiring(), resolving, r.error.current, FieldsQuery(cls, fields))
      ensures !(r.Err? && r.error.InCreation?) ==> Fields(Wiring(), Limit(Wiring()), cls, fields) == Ends(r)
      decreases Universe() - (set t | t in resolving), 6
    {
      hide Stuck, RealCycle, Valid, Arg, ByAnnotation, FieldValue, PlainBuild, Requests, FieldRequests, Wiring, Deps;
      ghost var g, f := Wiring(), Limit(Wiring());
      var attributes := [];
      for i := 0 to |fields|
        invariant Valid() && Steady()
        invariant Fields(g, f, cls, fields[..i]) == Ends(Ok(attributes))
      {
        assert fields[..i + 1][..i] == fields[..i];
        FieldDepsCover(g, cls, fields[i]);
        var v := ResolveField(cls, fields[i]);
        if v.Err? {
          r := Err(v.error);
          if v.error.InCreation? {
            StuckFields(g, resolving, v.error.current, cls, fields, i);
          } else {
            FieldsPrefix(g, f, cls, fields, i + 1);
          }
          return;
        }
        attributes := attributes + [(fields[i].name, v.value)];
      }
      assert fields[..|fields|] == fields;
      r := Ok(attributes);
    }

    /** One turn of the `Autowired` loop. */
    method ResolveField(cls: TypeId, fd: Field) returns (r: Res<Value>)
      requires Valid() && MayRequest(FieldRequests(Wiring(), fd))
      modifies this`resolving, this`creations, regs
      ensures Valid() && Steady()
      ensures r.Err? && r.error.InCreation? ==>
                && RealCycle(Wiring(), resolving, r.error.chain, r.error.current)
                && Stuck(Wiring(), resolving, r.error.current, FieldQuery(Wiring(), fd))
      ensures !(r.Err? && r.error.InCreation?) ==> FieldValue(Wiring(), Limit(Wiring()), cls, fd) == Ends(r)
      decreases Universe() - (set t | t in resolving), 5
    {
      hide Stuck, RealCycle, Valid, Wiring, Deps, PlainBuild;
      match fd {
        case Qualified(_, bean) =>
          var o := ResolveByName(bean);
          r := if o.Ok? then Ok(Bean(o.value)) else Err(o.error);
        case Marked(_, annotation) =>
          r := ResolveParam(annotation);
        case Typed(name, wanted, required) =>
          var o := Resolve(wanted);
          if o.Ok? {
            r := Ok(Bean(o.value));
          } else if !o.error.Caught() {
            r := Err(o.error);
          } else if !required {
            r := Ok(Nothing);
          } else {
            r := Err(Unsatisfied(cls, name));
          }
      }
    }

    method ResolveParam(a: Annotation) returns (r: Res<Value>)
      requires Valid() && MayRequest(Requests(Wiring(), a))
      modifies this`resolving, this`creations, regs
      ensures Valid() && Steady()
      ensures r.Err? && r.error.InCreation? ==>
                && RealCycle(Wiring(), resolving, r.error.chain, r.error.current)
                && Stuck(Wiring(), resolving, r.error.current, AnnotationQuery(a))
      ensures !(r.Err? && r.error.InCreation?) ==> ByAnnotation(Wiring(), Limit(Wiring()), a) == Ends(r)
      decreases Universe() - (set t | t in resolving), 4, a
    {
      hide RealCycle, Valid, Wiring, Deps, IsOpaque, PlainBuild;
      match a {
        case Annotated(base, qualifier) =>
          if qualifier.Some? {
            var o := ResolveByName(qualifier.value);
            r := if o.Ok? then Ok(Bean(o.value)) else Err(o.error);
          } else {
            r := ResolveParam(base);
          }
        case OptionalOf(cls) =>
          var o := Resolve(cls);
          r := if o.Ok? then Ok(Bean(o.value)) else if o.error.Caught() then Ok(Nothing) else Err(o.error);
        case ListOf(cls) =>
          var os := ResolveAll(cls);
          r := if os.Ok? then Ok(Beans(os.value)) else Err(os.error);
        case ClassRef(cls) =>
          r := Err(NoSuchType(cls));
        case Plain(cls) =>
          var o := Resolve(cls);
          r := if o.Ok? then Ok(Bean(o.value)) else Err(o.error);
      }
    }

    method Resolve(cls: TypeId) returns (r: Res<Obj>)
      requires Valid() && MayRequest(Chosen(Candidate(Wiring(), cls)))
      modifies this`resolving, this`creations, regs
      ensures Valid() && Steady()
      ensures r.Err? && r.error.InCreation? ==>
                && RealCycle(Wiring(), resolving, r.error.chain, r.error.current)
                && Stuck(Wiring(), resolving, r.error.current, RefQuery(Candidate(Wiring(), cls)))
      ensures !(r.Err? && r.error.InCreation?) ==> ByType(Wiring(), Limit(Wiring()), cls) == Ends(r)
      ensures r.Ok? && cls in registrations && registrations[cls].scope.Singleton? ==>
                registrations[cls].instance == Some(r.value)
      decreases Universe() - (set t | t in resolving), 2
    {
      hide Stuck, RealCycle, Valid, Wiring, PlainBuild, Deps;
      WiredParts();
      if cls in registrations {
        Looked(cls);
        r := ResolveRegistration(registrations[cls]);
        return;
      }
      var impls := if cls in bindings then bindings[cls] else [];
      if impls == [] {
        return Err(NoSuchType(cls));
      }
      if |impls| == 1 {
        if impls[0] !in registrations {
          return Err(DanglingBinding(impls[0]));
        }
        Looked(impls[0]);
        r := ResolveRegistration(registrations[impls[0]]);
        return;
      }
      for i := 0 to |impls|
        invariant Valid() && Steady()
        invariant FirstPrimary(Wiring(), impls) == FirstPrimary(Wiring(), impls[i..])
      {
        assert impls[i..][1..] == impls[i + 1..];
        WiredClass(impls[i]);
        if impls[i] in classes && classes[impls[i]].primary {
          if impls[i] !in registrations {
            return Err(DanglingBinding(impls[i]));
          }
          Looked(impls[i]);
          r := ResolveRegistration(registrations[impls[i]]);
          return;
        }
      }
      return Err(NoUnique(cls, impls));
    }

    method ResolveByName(name: string) returns (r: Res<Obj>)
      requires Valid() && MayRequest(Chosen(Named(Wiring(), name)))
      modifies this`resolving, this`creations, regs
      ensures Valid() && Steady()
      ensures r.Err? && r.error.InCreation? ==>
                && RealCycle(Wiring(), resolving, r.error.chain, r.error.current)
                && Stuck(Wiring(), resolving, r.error.current, RefQuery(Named(Wiring(), name)))
      ensures !(r.Err? && r.error.InCreation?) ==> ByName(Wiring(), Limit(Wiring()), name) == Ends(r)
      decreases Universe() - (set t | t in resolving), 2
    {
      if name !in named {
        return Err(NoSuchName(name));
      }
      r := ResolveRegistration(named[name]);
    }

    method ResolveAll(cls: TypeId) returns (r: Res<seq<Obj>>)
      requires Valid() && MayRequest(Requests(Wiring(), ListOf(cls)))
      modifies this`resolving, this`creations, regs
      ensures Valid() && Steady()
      ensures r.Err? && r.error.InCreation? ==>
                && RealCycle(Wiring(), resolving, r.error.chain, r.error.current)
                && Stuck(Wiring(), resolving, r.error.current, ListQuery(Wiring().Impls(cls)))
      ensures !(r.Err? && r.error.InCreation?) ==>
                AllOf(Wiring(), Limit(Wiring()), Wiring().Impls(cls)) == Ends(r)
      decreases Universe() - (set t | t in resolving), 2
    {
      hide Stuck, RealCycle, Valid, Wiring, PlainBuild, Deps, Requests, Universe, Wired, Limit;
      ghost var g := Wiring();
      var impls := if cls in bindings then bindings[cls] else [];
      var beans := [];
      WiredParts();
      for i := 0 to |impls|
        invariant Valid() && Steady()
        invariant AllOf(g, Limit(g), impls[..i]) == Ends(Ok(beans))
      {
        MayRequestOne(cls, impls[i]);
        if impls[i] !in registrations {
          AllOfTurn(g, impls, i, beans, Err(DanglingBinding(impls[i])));
          return Err(DanglingBinding(impls[i]));
        }
        Looked(impls[i]);
        var o := ResolveRegistration(registrations[impls[i]]);
        if o.Err? && o.error.InCreation? {
          StuckAllOf(g, resolving, o.error.current, impls, i);
          return Err(o.error);
        }
        AllOfTurn(g, impls, i, beans, o);
        if o.Err? {
          return Err(o.error);
        }
        beans := beans + [o.value];
      }
      assert impls[..|impls|] == impls;
      r := Ok(beans);
    }

    /** With nothing under construction, the circular error means exactly that plain construction never ends. */
    lemma CircularIffEndless(r: Res<Obj>, impl: Res<TypeId>)
      requires resolving == []
      requires r.Err? && r.error.InCreation? ==>
                 Stuck(Wiring(), resolving, r.error.current, RefQuery(impl))
      requires !(r.Err? && r.error.InCreation?) ==> ByRef(Limit(Wiring()), impl) == Ends(r)
      ensures r.Err? && r.error.InCreation? <==> ByRef(Limit(Wiring()), impl).Diverges?
    {
      if r.Err? && r.error.InCreation? {
        StuckForGood(Wiring(), r.error.current, RefQuery(impl));
      }
    }

    lemma MayRequestOne(cls: TypeId, impl: TypeId)
      requires MayRequest(Requests(Wiring(), ListOf(cls)))
      requires impl in Wiring().Impls(cls)
      ensures impl in registrations ==> MayRequest({impl})
    {
    }
  }
}
