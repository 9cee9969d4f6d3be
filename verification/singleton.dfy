/** SingletonProvider: a one-cell cache in front of another component provider. */
module Singleton {
  import opened Common

  /** The answer a provider whose script is `script` gives next: the first
      scripted outcome, or null once the script is used up. */
  function Next(script: seq<Result<Value>>): Result<Value> {
    if script == [] then Ok(Null) else script[0]
  }

  function Rest(script: seq<Result<Value>>): seq<Result<Value>> {
    if script == [] then [] else script[1..]
  }

  /** The wrapped provider, whose code lies outside this model: it answers each
      get with the next outcome of `script` (a value, or the exception its get
      throws, such as CyclicDependenciesFound or DependencyNotFoundException) and
      counts how often it was asked. */
  class ScriptedProvider {
    const dependencies: seq<TypeId>
    var script: seq<Result<Value>>
    var calls: nat

    constructor(dependencies: seq<TypeId>, script: seq<Result<Value>>)
      ensures this.dependencies == dependencies && this.script == script && calls == 0
    {
      this.dependencies := dependencies;
      this.script := script;
      calls := 0;
    }

    method Get() returns (r: Result<Value>)
      modifies this
      ensures r == Next(old(script)) && script == Rest(old(script))
      ensures calls == old(calls) + 1
    {
      if script == [] {
        r := Ok(Null);
      } else {
        r := script[0];
        script := script[1..];
      }
      calls := calls + 1;
    }
  }

  class SingletonProvider {
    var singleton: Value
    const provider: ScriptedProvider

    constructor(provider: ScriptedProvider)
      ensures this.provider == provider && singleton == Null
    {
      this.provider := provider;
      singleton := Null;
    }

    /** get: asks the wrapped provider only while nothing non-null is cached; an
        exception from the wrapped provider propagates and leaves the cache empty. */
    method Get() returns (r: Result<Value>)
      modifies this, provider
      ensures old(singleton) != Null ==>
        r == Ok(old(singleton)) && singleton == old(singleton) &&
        provider.script == old(provider.script) && provider.calls == old(provider.calls)
      ensures old(singleton) == Null ==>
        r == Next(old(provider.script)) &&
        provider.script == Rest(old(provider.script)) && provider.calls == old(provider.calls) + 1 &&
        singleton == (if r.Ok? then r.value else Null)
    {
      if singleton == Null {
        var answer := provider.Get();
        if answer.Err? {
          return answer;
        }
        singleton := answer.value;
      }
      r := Ok(singleton);
    }

    /** getDependencies: exactly those of the wrapped provider. */
    method GetDependencies() returns (d: seq<TypeId>)
      ensures d == provider.dependencies
    {
      d := provider.dependencies;
    }
  }

  /** Two gets through a fresh singleton over a provider that would answer with
      `script`: a non-null first value is reused and the provider is asked once;
      a null first value or a thrown exception is not cached, and the provider is
      asked again. */
  method GetTwice(dependencies: seq<TypeId>, script: seq<Result<Value>>)
    returns (first: Result<Value>, second: Result<Value>, calls: nat, deps: seq<TypeId>)
    ensures first == Next(script)
    ensures first.Ok? && first.value != Null ==> second == first && calls == 1
    ensures first.Err? || first == Ok(Null) ==> second == Next(Rest(script)) && calls == 2
    ensures deps == dependencies
  {
    var inner := new ScriptedProvider(dependencies, script);
    var cache := new SingletonProvider(inner);
    first := cache.Get();
    second := cache.Get();
    calls := inner.calls;
    deps := cache.GetDependencies();
  }
}
