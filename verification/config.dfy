/** ContextConfig: the registry the components are bound in, the validation pass
    of getContext, and resolution through the returned context, where each
    constructor-injected component guards itself against cycles with a
    `constructing` flag. */
module Config {
  import opened Common
  import opened ClassTable
  import Injection

  // ---------------------------------------------------------------------------
  // Resolution as a function of the bindings
  // ---------------------------------------------------------------------------

  /** What a binding does when asked for its component: hand out a fixed instance,
      or construct `implementation` from the values bound to `params`. */
  datatype Plan = Given(value: Value) | Build(implementation: TypeId, params: seq<TypeId>)

  type Bindings = map<TypeId, Plan>

  /** Context.get(type) while the components in `active` are under construction.
      An unbound type is an empty Optional; so is a bound instance that is null,
      because Optional.map drops a null result. */
  function Resolve(view: Bindings, active: set<TypeId>, ty: TypeId): (r: Result<Option<Value>>)
    ensures r.Err? ==> r.error.CyclicDependencies? || r.error.DependencyNotFound?
    decreases view.Keys - active, 1
  {
    if ty !in view then Ok(None)
    else match view[ty]
      case Given(v) => if v == Null then Ok(None) else Ok(Some(v))
      case Build(_, _) =>
        match Construct(view, active, ty)
        case Ok(v) => Ok(Some(v))
        case Err(e) => Err(e)
  }

  /** The inner ConstructorInjectProvider.get of the component bound at `key`:
      a component already under construction reports a cycle naming itself; a
      cycle reported from below is reported again with this component in front. */
  function Construct(view: Bindings, active: set<TypeId>, key: TypeId): (r: Result<Value>)
    requires key in view && view[key].Build?
    ensures r.Err? ==> r.error.CyclicDependencies? || r.error.DependencyNotFound?
    decreases view.Keys - active, 0
  {
    if key in active then Err(CyclicDependencies([key]))
    else
      assert key in view.Keys - active;
      match ResolveArgs(view, active + {key}, key, view[key].params, [])
      case Ok(args) => Ok(New(view[key].implementation, args))
      case Err(CyclicDependencies(path)) => Err(CyclicDependencies([key] + path))
      case Err(e) => Err(e)
  }

  /** The constructor arguments of `component`, resolved left to right after the
      ones already in `args`; an empty lookup aborts with DependencyNotFound. */
  function ResolveArgs(view: Bindings, active: set<TypeId>, component: TypeId,
                       params: seq<TypeId>, args: seq<Value>): (r: Result<seq<Value>>)
    ensures r.Err? ==> r.error.CyclicDependencies? || r.error.DependencyNotFound?
    ensures r.Ok? ==> |r.value| == |args| + |params|
    decreases view.Keys - active, 2, |params|
  {
    if params == [] then Ok(args)
    else match Resolve(view, active, params[0])
      case Err(e) => Err(e)
      case Ok(None) => Err(DependencyNotFound(params[0], component))
      case Ok(Some(v)) => ResolveArgs(view, active, component, params[1..], args + [v])
  }

  /** Consecutive components of `path` depend on each other through a constructor parameter. */
  predicate DependencyChain(view: Bindings, path: seq<TypeId>) {
    forall i :: 0 <= i < |path| - 1 ==>
      path[i] in view && view[path[i]].Build? && path[i + 1] in view[path[i]].params
  }

  /** The last component of `path` was already under construction when the path
      reached it: it is active, or it occurs earlier on the path. */
  predicate Closes(active: set<TypeId>, path: seq<TypeId>) {
    |path| > 0 && (path[|path| - 1] in active || path[|path| - 1] in path[..|path| - 1])
  }

  /** Every cycle report is a chain of constructor dependencies starting at the
      requested type and ending at a component already under construction. */
  lemma {:induction false} ResolveCyclic(view: Bindings, active: set<TypeId>, ty: TypeId)
    ensures var r := Resolve(view, active, ty);
            r.Err? && r.error.CyclicDependencies? ==>
              var path := r.error.path;
              Closes(active, path) && path[0] == ty && DependencyChain(view, path)
    decreases view.Keys - active, 1
  {
    if ty in view && view[ty].Build? {
      ConstructCyclic(view, active, ty);
    }
  }

  lemma {:induction false} ConstructCyclic(view: Bindings, active: set<TypeId>, key: TypeId)
    requires key in view && view[key].Build?
    ensures var r := Construct(view, active, key);
            r.Err? && r.error.CyclicDependencies? ==>
              var path := r.error.path;
              Closes(active, path) && path[0] == key && DependencyChain(view, path)
    decreases view.Keys - active, 0
  {
    if key !in active {
      assert key in view.Keys - active;
      var inner := ResolveArgs(view, active + {key}, key, view[key].params, []);
      ArgsCyclic(view, active + {key}, key, view[key].params, []);
      if inner.Err? && inner.error.CyclicDependencies? {
        var tail := inner.error.path;
        var path := [key] + tail;
        assert Construct(view, active, key) == Err(CyclicDependencies(path));
        forall i | 0 <= i < |path| - 1
          ensures path[i] in view && view[path[i]].Build? && path[i + 1] in view[path[i]].params
        {
          if i > 0 {
            assert path[i] == tail[i - 1] && path[i + 1] == tail[i];
          }
        }
        var last := path[|path| - 1];
        assert last == tail[|tail| - 1];
        assert path[..|path| - 1] == [key] + tail[..|tail| - 1];
      }
    }
  }

  lemma {:induction false} ArgsCyclic(view: Bindings, active: set<TypeId>, component: TypeId,
                                      params: seq<TypeId>, args: seq<Value>)
    ensures var r := ResolveArgs(view, active, component, params, args);
            r.Err? && r.error.CyclicDependencies? ==>
              var path := r.error.path;
              Closes(active, path) && path[0] in params && DependencyChain(view, path)
    decreases view.Keys - active, 2, |params|
  {
    if params != [] {
      ResolveCyclic(view, active, params[0]);
      match Resolve(view, active, params[0])
      case Err(e) =>
      case Ok(None) =>
      case Ok(Some(v)) =>
        ArgsCyclic(view, active, component, params[1..], args + [v]);
    }
  }

  /** Nothing can be under construction before the first get: a cycle reported
      then revisits a component of its own path. */
  lemma ReportedCycleRevisits(view: Bindings, ty: TypeId)
    ensures var r := Resolve(view, {}, ty);
            r.Err? && r.error.CyclicDependencies? ==>
              var path := r.error.path;
              |path| >= 2 && path[0] == ty && path[|path| - 1] in path[..|path| - 1]
  {
    ResolveCyclic(view, {}, ty);
  }

  /** A bound type whose value is usable: constructed, or a non-null instance. */
  predicate Supplies(view: Bindings, d: TypeId) {
    d in view && view[d] != Given(Null)
  }

  /** DependencyNotFound(d, c) names a constructed component c, one of whose
      constructor parameters d is unbound or bound to null. */
  lemma {:induction false} ResolveNotFound(view: Bindings, active: set<TypeId>, ty: TypeId)
    ensures var r := Resolve(view, active, ty);
            r.Err? && r.error.DependencyNotFound? ==>
              var c := r.error.component;
              c in view && view[c].Build? && r.error.dependency in view[c].params &&
              !Supplies(view, r.error.dependency)
    decreases view.Keys - active, 1
  {
    if ty in view && view[ty].Build? {
      ConstructNotFound(view, active, ty);
    }
  }

  lemma {:induction false} ConstructNotFound(view: Bindings, active: set<TypeId>, key: TypeId)
    requires key in view && view[key].Build?
    ensures var r := Construct(view, active, key);
            r.Err? && r.error.DependencyNotFound? ==>
              var c := r.error.component;
              c in view && view[c].Build? && r.error.dependency in view[c].params &&
              !Supplies(view, r.error.dependency)
    decreases view.Keys - active, 0
  {
    if key !in active {
      assert key in view.Keys - active;
      ArgsNotFound(view, active + {key}, key, view[key].params, []);
    }
  }

  lemma {:induction false} ArgsNotFound(view: Bindings, active: set<TypeId>, component: TypeId,
                                        params: seq<TypeId>, args: seq<Value>)
    requires component in view && view[component].Build?
    requires forall d :: d in params ==> d in view[component].params
    ensures var r := ResolveArgs(view, active, component, params, args);
            r.Err? && r.error.DependencyNotFound? ==>
              var c := r.error.component;
              c in view && view[c].Build? && r.error.dependency in view[c].params &&
              !Supplies(view, r.error.dependency)
    decreases view.Keys - active, 2, |params|
  {
    if params != [] {
      ResolveNotFound(view, active, params[0]);
      match Resolve(view, active, params[0])
      case Err(e) =>
      case Ok(None) =>
      case Ok(Some(v)) =>
        ArgsNotFound(view, active, component, params[1..], args + [v]);
    }
  }

  /** Every constructor parameter of every constructed component is bound to a usable value. */
  predicate Satisfied(view: Bindings) {
    forall c, d :: c in view && view[c].Build? && d in view[c].params ==> Supplies(view, d)
  }

  /** Once every parameter is bound to something usable, resolution can still
      find a cycle but never a missing dependency. */
  lemma NeverNotFoundWhenSatisfied(view: Bindings, active: set<TypeId>, ty: TypeId)
    requires Satisfied(view)
    ensures var r := Resolve(view, active, ty);
            r.Err? ==> r.error.CyclicDependencies?
  {
    ResolveNotFound(view, active, ty);
  }

  // ---------------------------------------------------------------------------
  // The registry
  // ---------------------------------------------------------------------------

  /** What `providers` holds for a type: the instance of `bind(type, instance)`,
      or the provider object of `bind(type, implementation)`. */
  datatype Binding = Instance(value: Value) | Inject(provider: ConstructorInjectProvider)

  function PlanOf(b: Binding): Plan {
    match b
    case Instance(v) => Given(v)
    case Inject(p) => Build(p.implementation, p.ctor.params)
  }

  class ContextConfig {
    var providers: map<TypeId, Binding>
    var dependencies: map<TypeId, seq<TypeId>>

    /** Both maps have the same keys; an instance has no dependencies; a provider
        was created for its own key and lists its constructor's parameters. */
    predicate Valid()
      reads this
    {
      && providers.Keys == dependencies.Keys
      && (forall k :: k in providers && providers[k].Instance? ==> dependencies[k] == [])
      && (forall k :: k in providers && providers[k].Inject? ==>
            providers[k].provider.componentType == k &&
            dependencies[k] == providers[k].provider.ctor.params)
    }

    /** The provider objects currently bound. */
    function Injectors(): set<ConstructorInjectProvider>
      reads this
    {
      set k | k in providers && providers[k].Inject? :: providers[k].provider
    }

    /** The bound components whose provider is under construction. */
    function Active(): set<TypeId>
      reads this, Injectors()
    {
      set k | k in providers && providers[k].Inject? && providers[k].provider.constructing
    }

    /** What each binding does, independent of the construction flags. */
    function View(): Bindings
      reads this
    {
      map k | k in providers :: PlanOf(providers[k])
    }

    /** `p` is the provider bound at its own component type. */
    predicate Owns(p: ConstructorInjectProvider)
      reads this
    {
      p.componentType in providers && providers[p.componentType] == Inject(p)
    }

    /** Every listed dependency of every bound component is itself bound. */
    predicate DependenciesBound()
      reads this
    {
      forall c, d :: c in dependencies && d in dependencies[c] ==> d in dependencies
    }

    /** `deps[k]` is the first entry of `deps` that is not a bound key. */
    predicate FirstUnboundAt(deps: seq<TypeId>, k: int)
      reads this
    {
      0 <= k < |deps| && deps[k] !in dependencies &&
      forall j :: 0 <= j < k ==> deps[j] in dependencies
    }

    constructor()
      ensures providers == map[] && dependencies == map[]
      ensures Valid()
    {
      providers := map[];
      dependencies := map[];
    }

    /** bind(type, instance): the last bind of a type wins. */
    method BindInstance(ty: TypeId, instance: Value)
      requires Valid()
      modifies this
      ensures Valid()
      ensures providers == old(providers)[ty := Instance(instance)]
      ensures dependencies == old(dependencies)[ty := []]
    {
      providers := providers[ty := Instance(instance)];
      dependencies := dependencies[ty := []];
    }

    /** bind(type, implementation): selects the constructor first, so a component
        without a usable constructor is rejected before anything is stored. */
    method BindImplementation(t: Table, ty: TypeId, implementation: TypeId) returns (r: Outcome)
      requires Valid() && WellFormed(t) && implementation in t
      modifies this
      ensures Valid()
      ensures r.Pass? <==> Injection.SelectConstructor(t[implementation]).Ok?
      ensures r.Fail? ==> r.error == IllegalComponent
      ensures r.Fail? ==> providers == old(providers) && dependencies == old(dependencies)
      ensures r.Pass? ==>
        var ctor := Injection.SelectConstructor(t[implementation]).value;
        && ty in providers && providers[ty].Inject?
        && fresh(providers[ty].provider) && !providers[ty].provider.constructing
        && providers[ty].provider.implementation == implementation
        && providers[ty].provider.ctor == ctor
        && providers == old(providers)[ty := providers[ty]]
        && dependencies == old(dependencies)[ty := ctor.params]
    {
      var ctor := Injection.SelectConstructor(t[implementation]);
      if ctor.Err? {
        return Fail(IllegalComponent);
      }
      var p := new ConstructorInjectProvider(ty, implementation, ctor.value);
      providers := providers[ty := Inject(p)];
      dependencies := dependencies[ty := ctor.value.params];
      return Pass;
    }

    /** The validation loops of getContext: components in the map's own order,
        each one's dependencies in list order, stopping at the first unbound one. */
    method CheckDependencies() returns (r: Outcome)
      ensures r.Pass? <==> DependenciesBound()
      ensures r.Fail? ==> exists c, k :: c in dependencies && FirstUnboundAt(dependencies[c], k) &&
                                        r.error == DependencyNotFound(dependencies[c][k], c)
    {
      var remaining := dependencies.Keys;
      while remaining != {}
        invariant remaining <= dependencies.Keys
        invariant forall c, d :: c in dependencies && c !in remaining && d in dependencies[c] ==> d in dependencies
        decreases remaining
      {
        var component :| component in remaining;
        var deps := dependencies[component];
        var i := 0;
        while i < |deps|
          invariant 0 <= i <= |deps|
          invariant forall j :: 0 <= j < i ==> deps[j] in dependencies
        {
          if deps[i] !in dependencies {
            assert FirstUnboundAt(deps, i);
            return Fail(DependencyNotFound(deps[i], component));
          }
          i := i + 1;
        }
        remaining := remaining - {component};
      }
      return Pass;
    }

    /** getContext: validate, then hand out a context that reads this registry. */
    method GetContext() returns (r: Result<Context>)
      ensures r.Ok? <==> DependenciesBound()
      ensures r.Err? ==> exists c, k :: c in dependencies && FirstUnboundAt(dependencies[c], k) &&
                                        r.error == DependencyNotFound(dependencies[c][k], c)
      ensures r.Ok? ==> fresh(r.value) && r.value.config == this
    {
      var check := CheckDependencies();
      if check.Fail? {
        return Err(check.error);
      }
      var context := new Context(this);
      return Ok(context);
    }
  }

  /** The anonymous Context getContext returns: every get goes to the registry's
      current providers. */
  class Context {
    const config: ContextConfig

    constructor(config: ContextConfig)
      ensures this.config == config
    {
      this.config := config;
    }

    /** get(type): empty when unbound, otherwise what the bound provider yields. */
    method Get(ty: TypeId) returns (r: Result<Option<Value>>)
      requires config.Valid()
      modifies config.Injectors()
      decreases config.providers.Keys - config.Active(), 1
      ensures forall q :: q in config.Injectors() ==> q.constructing == old(q.constructing)
      ensures r == Resolve(config.View(), old(config.Active()), ty)
    {
      if ty !in config.providers {
        return Ok(None);
      }
      match config.providers[ty]
      case Instance(v) =>
        r := if v == Null then Ok(None) else Ok(Some(v));
      case Inject(p) =>
        var x := p.Get(this);
        r := if x.Ok? then Ok(Some(x.value)) else Err(x.error);
    }
  }

  /** ContextConfig.ConstructorInjectProvider: builds its component through the
      selected constructor, refusing re-entry while it is already doing so. */
  class ConstructorInjectProvider {
    const componentType: TypeId
    const implementation: TypeId
    const ctor: Ctor
    var constructing: bool

    constructor(componentType: TypeId, implementation: TypeId, ctor: Ctor)
      ensures this.componentType == componentType && this.implementation == implementation
      ensures this.ctor == ctor && !constructing
    {
      this.componentType := componentType;
      this.implementation := implementation;
      this.ctor := ctor;
      constructing := false;
    }

    /** get(context): the flag is raised for the duration of the build and
        lowered on every way out; a nested cycle is reported again with this
        component in front, a missing parameter as DependencyNotFound. */
    method Get(context: Context) returns (r: Result<Value>)
      requires context.config.Valid() && context.config.Owns(this)
      modifies context.config.Injectors()
      decreases context.config.providers.Keys - context.config.Active(), 0
      ensures forall q :: q in context.config.Injectors() ==> q.constructing == old(q.constructing)
      ensures r == Construct(context.config.View(), old(context.config.Active()), componentType)
    {
      var config := context.config;
      assert componentType in config.Active() <==> constructing;
      if constructing {
        return Err(CyclicDependencies([componentType]));
      }
      ghost var view := config.View();
      ghost var active := config.Active() + {componentType};
      assert view[componentType] == Build(implementation, ctor.params);
      assert this in config.Injectors();
      constructing := true;
      assert config.Active() == active;
      var args: seq<Value> := [];
      var i := 0;
      while i < |ctor.params|
        invariant 0 <= i <= |ctor.params|
        invariant constructing
        invariant forall q :: q in config.Injectors() && q != this ==> q.constructing == old(q.constructing)
        invariant config.Active() == active
        invariant ResolveArgs(view, active, componentType, ctor.params[i..], args)
               == ResolveArgs(view, active, componentType, ctor.params, [])
      {
        var d := context.Get(ctor.params[i]);
        if d.Err? {
          constructing := false;
          if d.error.CyclicDependencies? {
            return Err(CyclicDependencies([componentType] + d.error.path));
          }
          return Err(d.error);
        }
        if d.value.None? {
          constructing := false;
          return Err(DependencyNotFound(ctor.params[i], componentType));
        }
        assert ResolveArgs(view, active, componentType, ctor.params[i..], args)
            == ResolveArgs(view, active, componentType, ctor.params[i + 1..], args + [d.value.value]) by {
          assert ctor.params[i..][0] == ctor.params[i] && ctor.params[i..][1..] == ctor.params[i + 1..];
        }
        args := args + [d.value.value];
        i := i + 1;
      }
      constructing := false;
      return Ok(New(implementation, args));
    }
  }

  // ---------------------------------------------------------------------------
  // Validation and resolution together
  // ---------------------------------------------------------------------------

  /** A registry that passed getContext, with no null instance bound, never
      reports a missing dependency when resolving: only cycles remain. */
  lemma ValidatedNeverNotFound(config: ContextConfig, active: set<TypeId>, ty: TypeId)
    requires config.Valid() && config.DependenciesBound()
    requires forall k :: k in config.providers ==> config.providers[k] != Instance(Null)
    ensures var r := Resolve(config.View(), active, ty);
            r.Err? ==> r.error.CyclicDependencies?
  {
    var view := config.View();
    forall c, d | c in view && view[c].Build? && d in view[c].params
      ensures Supplies(view, d)
    {
      assert config.providers[c].Inject?;
      assert d in config.dependencies[c];
      assert config.providers[d] != Instance(Null);
    }
    NeverNotFoundWhenSatisfied(view, active, ty);
  }

  /** Component 1 takes a 2 and component 2 takes a 1: asking for 1 reports the
      path 1, 2, 1, whose distinct components are exactly the two of the cycle. */
  lemma TwoComponentCycle(impl1: TypeId, impl2: TypeId)
    ensures var view := map[1 := Build(impl1, [2]), 2 := Build(impl2, [1])];
            var r := Resolve(view, {}, 1);
            r == Err(CyclicDependencies([1, 2, 1])) && (set c | c in r.error.path) == {1, 2}
  {
    var view := map[1 := Build(impl1, [2]), 2 := Build(impl2, [1])];
    assert {1} + {2} == {1, 2} && {} + {1} == {1};
    assert Resolve(view, {1, 2}, 1) == Err(CyclicDependencies([1]));
    assert ResolveArgs(view, {1, 2}, 2, [1], []) == Err(CyclicDependencies([1]));
    assert Construct(view, {1}, 2) == Err(CyclicDependencies([2, 1]));
    assert Resolve(view, {1}, 2) == Err(CyclicDependencies([2, 1]));
    assert ResolveArgs(view, {1}, 1, [2], []) == Err(CyclicDependencies([2, 1]));
    assert Construct(view, {}, 1) == Err(CyclicDependencies([1, 2, 1]));
    var path: seq<TypeId> := [1, 2, 1];
    assert path[0] == 1 && path[1] == 2;
  }

  /** Components 1 -> 2 -> 3 -> 1, each taking the next: asking for 1 reports the
      path 1, 2, 3, 1, whose distinct components are exactly the three of the cycle. */
  lemma ThreeComponentCycle(impl1: TypeId, impl2: TypeId, impl3: TypeId)
    ensures var view := map[1 := Build(impl1, [2]), 2 := Build(impl2, [3]), 3 := Build(impl3, [1])];
            var r := Resolve(view, {}, 1);
            r == Err(CyclicDependencies([1, 2, 3, 1])) && (set c | c in r.error.path) == {1, 2, 3}
  {
    var view := map[1 := Build(impl1, [2]), 2 := Build(impl2, [3]), 3 := Build(impl3, [1])];
    assert {} + {1} == {1} && {1} + {2} == {1, 2} && {1, 2} + {3} == {1, 2, 3};
    assert Resolve(view, {1, 2, 3}, 1) == Err(CyclicDependencies([1]));
    assert ResolveArgs(view, {1, 2, 3}, 3, [1], []) == Err(CyclicDependencies([1]));
    assert Construct(view, {1, 2}, 3) == Err(CyclicDependencies([3, 1]));
    assert Resolve(view, {1, 2}, 3) == Err(CyclicDependencies([3, 1]));
    assert ResolveArgs(view, {1, 2}, 2, [3], []) == Err(CyclicDependencies([3, 1]));
    assert Construct(view, {1}, 2) == Err(CyclicDependencies([2, 3, 1]));
    assert Resolve(view, {1}, 2) == Err(CyclicDependencies([2, 3, 1]));
    assert ResolveArgs(view, {1}, 1, [2], []) == Err(CyclicDependencies([2, 3, 1]));
    assert Construct(view, {}, 1) == Err(CyclicDependencies([1, 2, 3, 1]));
    var path: seq<TypeId> := [1, 2, 3, 1];
    assert path[0] == 1 && path[1] == 2 && path[2] == 3;
  }

  /** bind an instance, validate, get: the same instance comes back, and every
      provider flag is as it was. */
  method BindThenGet(ty: TypeId, instance: Value) returns (r: Result<Option<Value>>)
    ensures instance != Null ==> r == Ok(Some(instance))
    ensures instance == Null ==> r == Ok(None)
  {
    var config := new ContextConfig();
    config.BindInstance(ty, instance);
    var context := config.GetContext();
    assert config.DependenciesBound();
    r := context.value.Get(ty);
  }
}
