/** The earliest Context: bindings are stored directly in the context, constructor
    arguments are fetched through `get` only when a component is requested, and
    nothing guards against a cycle, so a cyclic request recurses until the Java
    stack is exhausted. The stack is modelled as a budget of frames. */
module SimpleContext {
  import opened Common
  import opened ClassTable
  import Injection

  /** A stored provider: `() -> instance`, or the lambda of bind(type, implementation)
      that builds `implementation` from the values of `params`. */
  datatype Provider = Fixed(instance: Value) | Lazy(implementation: TypeId, params: seq<TypeId>)

  type Providers = map<TypeId, Provider>

  /** get(type) with `stack` frames left for nested providers. */
  function Lookup(providers: Providers, ty: TypeId, stack: nat): (r: Result<Option<Value>>)
    ensures r.Err? ==> r.error == DependencyMissing || r.error == StackOverflow
    decreases stack, 0
  {
    if ty !in providers then Ok(None)
    else match providers[ty]
      case Fixed(v) => if v == Null then Ok(None) else Ok(Some(v))
      case Lazy(impl, params) =>
        if stack == 0 then Err(StackOverflow)
        else match LazyArgs(providers, params, [], stack - 1)
          case Ok(args) => Ok(Some(New(impl, args)))
          case Err(e) => Err(e)
  }

  /** The lazy provider's arguments, after those already in `args`; an empty
      lookup aborts with the argument-less DependencyNotFoundException. */
  function LazyArgs(providers: Providers, params: seq<TypeId>, args: seq<Value>, stack: nat)
    : (r: Result<seq<Value>>)
    ensures r.Err? ==> r.error == DependencyMissing || r.error == StackOverflow
    ensures r.Ok? ==> |r.value| == |args| + |params| && r.value[..|args|] == args
    decreases stack, 1, |params|
  {
    if params == [] then Ok(args)
    else match Lookup(providers, params[0], stack)
      case Err(e) => Err(e)
      case Ok(None) => Err(DependencyMissing)
      case Ok(Some(v)) => LazyArgs(providers, params[1..], args + [v], stack)
  }

  /** A larger stack changes nothing for a request that did not overflow. */
  lemma {:induction false} LookupStackMonotone(providers: Providers, ty: TypeId, stack: nat, more: nat)
    requires stack <= more && Lookup(providers, ty, stack) != Err(StackOverflow)
    ensures Lookup(providers, ty, more) == Lookup(providers, ty, stack)
    decreases stack, 0
  {
    if ty in providers && providers[ty].Lazy? && stack > 0 {
      LazyArgsStackMonotone(providers, providers[ty].params, [], stack - 1, more - 1);
    }
  }

  lemma {:induction false} LazyArgsStackMonotone(providers: Providers, params: seq<TypeId>, args: seq<Value>,
                                                 stack: nat, more: nat)
    requires stack <= more && LazyArgs(providers, params, args, stack) != Err(StackOverflow)
    ensures LazyArgs(providers, params, args, more) == LazyArgs(providers, params, args, stack)
    decreases stack, 1, |params|
  {
    if params != [] {
      var first := Lookup(providers, params[0], stack);
      if first != Err(StackOverflow) {
        LookupStackMonotone(providers, params[0], stack, more);
        if first.Ok? && first.value.Some? {
          LazyArgsStackMonotone(providers, params[1..], args + [first.value.value], stack, more);
        }
      }
    }
  }

  /** A component whose first constructor parameter is its own type overflows
      the stack whatever its size. */
  lemma {:induction false} SelfDependencyOverflows(providers: Providers, ty: TypeId, stack: nat)
    requires ty in providers && providers[ty].Lazy?
    requires |providers[ty].params| > 0 && providers[ty].params[0] == ty
    ensures Lookup(providers, ty, stack) == Err(StackOverflow)
    decreases stack
  {
    if stack > 0 {
      SelfDependencyOverflows(providers, ty, stack - 1);
    }
  }

  /** Parameters bound to non-null instances: the arguments resolve exactly when
      every parameter is bound, and otherwise the failure is DependencyMissing. */
  lemma {:induction false} LazyArgsOverInstances(providers: Providers, params: seq<TypeId>,
                                                 args: seq<Value>, stack: nat)
    requires forall d :: d in params && d in providers ==>
               providers[d].Fixed? && providers[d].instance != Null
    ensures LazyArgs(providers, params, args, stack).Ok? <==> forall d :: d in params ==> d in providers
    ensures LazyArgs(providers, params, args, stack).Err? ==>
              LazyArgs(providers, params, args, stack).error == DependencyMissing
    decreases |params|
  {
    if params != [] && params[0] in providers {
      var v := providers[params[0]].instance;
      assert Lookup(providers, params[0], stack) == Ok(Some(v));
      LazyArgsOverInstances(providers, params[1..], args + [v], stack);
      assert forall d :: d in params <==> d == params[0] || d in params[1..];
    }
  }

  class Context {
    var providers: Providers

    constructor()
      ensures providers == map[]
    {
      providers := map[];
    }

    /** bind(type, instance): replaces any earlier binding of the type. */
    method BindInstance(ty: TypeId, instance: Value)
      modifies this
      ensures providers == old(providers)[ty := Fixed(instance)]
    {
      providers := providers[ty := Fixed(instance)];
    }

    /** bind(type, implementation): the constructor is selected now, its
        arguments only when the type is requested. */
    method BindImplementation(t: Table, ty: TypeId, implementation: TypeId) returns (r: Outcome)
      requires WellFormed(t) && implementation in t
      modifies this
      ensures r.Pass? <==> Injection.SelectConstructor(t[implementation]).Ok?
      ensures r.Fail? ==> r.error == IllegalComponent && providers == old(providers)
      ensures r.Pass? ==> providers == old(providers)[ty := Lazy(implementation,
                                          Injection.SelectConstructor(t[implementation]).value.params)]
    {
      var ctor := Injection.SelectConstructor(t[implementation]);
      if ctor.Err? {
        return Fail(IllegalComponent);
      }
      providers := providers[ty := Lazy(implementation, ctor.value.params)];
      return Pass;
    }

    /** get(type): looks the type up; a lazy provider fetches each constructor
        argument through a nested get, one stack frame deeper. */
    method Get(ty: TypeId, stack: nat) returns (r: Result<Option<Value>>)
      ensures r == Lookup(providers, ty, stack)
      decreases stack, 0
    {
      if ty !in providers {
        return Ok(None);
      }
      match providers[ty]
      case Fixed(v) =>
        r := if v == Null then Ok(None) else Ok(Some(v));
      case Lazy(impl, params) =>
        if stack == 0 {
          return Err(StackOverflow);
        }
        var args: seq<Value> := [];
        var i := 0;
        while i < |params|
          invariant 0 <= i <= |params|
          invariant LazyArgs(providers, params[i..], args, stack - 1) == LazyArgs(providers, params, [], stack - 1)
        {
          var d := Get(params[i], stack - 1);
          if d.Err? {
            return Err(d.error);
          }
          if d.value.None? {
            return Err(DependencyMissing);
          }
          assert params[i..][1..] == params[i + 1..];
          args := args + [d.value.value];
          i := i + 1;
        }
        r := Ok(Some(New(impl, args)));
    }
  }

  /** Two binds of one type, then a get: the later instance is the one returned. */
  method RebindThenGet(ty: TypeId, first: Value, second: Value, stack: nat) returns (r: Result<Option<Value>>)
    ensures second != Null ==> r == Ok(Some(second))
    ensures second == Null ==> r == Ok(None)
  {
    var context := new Context();
    context.BindInstance(ty, first);
    context.BindInstance(ty, second);
    r := context.Get(ty, stack);
  }
}
