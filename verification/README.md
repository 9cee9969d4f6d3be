# di-container core in Dafny

A model of the core of a small Java dependency-injection container (package
`org.cyb.di`). The container binds component types either to instances or to
implementation classes. It picks the constructor to inject through, and it
collects the `@Inject` fields and methods along the superclass chain. It
checks the bindings when a context is requested, and it builds components on
demand, detecting cyclic dependencies while it does so.

Classes are not reflected on. They are modelled as a finite class table (`ClassTable`):
- each type id maps to its superclass link, its abstract flag, and its declared
  constructors, fields and methods;
- each declaration carries its `@Inject` flag, and methods carry their name,
  parameter types and a flag for declared type parameters;
- `WellFormed` states what the Java language guarantees of declared classes and
  their members. The superclass relation ends in Object, and interfaces have no
  superclass and no constructors. A class does not declare two methods with one
  name and one list of parameter types. Synthetic bridge methods are not in
  the table (see "Left out").

Modules, one per source file or group of source files:

- `Common`: type ids, values, the error kinds the container throws,
  `Result`/`Option`, and the list helpers the streams use (`Filter`, `Reverse`,
  `EndsWith`).
- `ClassTable`: the class table and `ChainFold`, the superclass walk of
  `traverse`. The walk hands each step everything collected so far.
- `Injection`: `InjectProvider`. This covers:
  - constructor selection;
  - the field and method collection with both override filters;
  - the construction-time checks;
  - `getDependencies`;
  - `get`. Here the context is a map from type to value, and the result is the
    log of constructor call, field assignments and method invocations.
- `EarlyInjection`: the earlier `ConstructorInjectProvider`. It uses the same
  plan, written with explicit superclass loops. It has no abstract, final-field
  or generic-method check, and its no-inject filter compares names exactly. Its
  `get` and `getDependencies` are the same as `InjectProvider`'s and are
  modelled once, by `Injection.Get` and `Injection.Dependencies`.
- `Config`: `ContextConfig`, its nested `ConstructorInjectProvider` with the
  `constructing` flag, and the context `getContext` returns.
  - Resolution is specified by pure functions (`Resolve`, `Construct`,
    `ResolveArgs`) over the bindings and the set of components under
    construction.
  - The mutually recursive methods `Context.Get` and
    `ConstructorInjectProvider.Get` are proved equal to those functions. They
    leave every flag as they found it.
- `SimpleContext`: the earliest `Context`, which stores providers directly and
  has no cycle guard. The Java stack is modelled as a budget of frames, so a
  cyclic request ends in `StackOverflow`.
- `Singleton`: `SingletonProvider`, a one-cell cache in front of another provider.
- `Cycles`: `CyclicDependenciesFound` and the set of components it reports.

`getInjectFields` in both providers does not reverse the list, so the
component's own `@Inject` fields come first, then its superclass's, and so on
(`InheritedFields`).

## Model

| member | source | states |
|---|---|---|
| ClassTable.ChainFoldExtends | src/main/java/org/cyb/di/InjectProvider.java:83-91 | the superclass walk only appends: what was collected before is a prefix of the result |
| Injection.DefaultConstructor | src/main/java/org/cyb/di/InjectProvider.java:93-99 | yields a declared constructor without parameters when one exists, and nothing exactly when every constructor takes parameters |
| Injection.SelectConstructor | src/main/java/org/cyb/di/InjectProvider.java:48-56 | several `@Inject` constructors give IllegalComponent; exactly one gives that one; none gives the no-argument constructor if there is one, else IllegalComponent |
| Injection.Traverse | src/main/java/org/cyb/di/InjectProvider.java:83-91 | the loop from the component up to Object computes the superclass fold `ChainFold` |
| Injection.InheritedFields | src/main/java/org/cyb/di/InjectProvider.java:44-46 | reference list of collected fields, component level first; every entry carries `@Inject` |
| Injection.FieldsLevelByLevel | src/main/java/org/cyb/di/InjectProvider.java:44-46 | the traversal with the field callback appends exactly the `@Inject` fields level by level, component first |
| Injection.GetInjectFields | src/main/java/org/cyb/di/InjectProvider.java:44-46 | getInjectFields returns the `@Inject` fields of the component and its superclasses, without reversal |
| Injection.IsOverride | src/main/java/org/cyb/di/InjectProvider.java:115-118 | a method with the same name and parameter types always counts as an override; an override always has the same parameter types and a name at least as long; with a name of equal length it is exactly the same signature |
| Injection.NotOverriddenByInjectMethod | src/main/java/org/cyb/di/InjectProvider.java:128-130 | nothing is hidden while nothing is collected; a method that passes is not itself collected and shares its signature with no collected method |
| Injection.NotOverriddenByNoInjectMethod | src/main/java/org/cyb/di/InjectProvider.java:124-126 | the component's `@Inject` methods never hide a method; a method of the component that matches itself and passes carries `@Inject` |
| Injection.SuffixFilterHidesMore | src/main/java/org/cyb/di/ConstructorInjectProvider.java:34-36 | every method the exact-name filter hides is also hidden by InjectProvider's name-suffix filter |
| Injection.KeepMethods | src/main/java/org/cyb/di/InjectProvider.java:36-39 | a method survives one level's callback iff it is declared there, carries `@Inject`, is not overridden by a method collected so far, and is not overridden by a non-`@Inject` method of the component |
| Injection.KeepMethodsDistinct | src/main/java/org/cyb/di/InjectProvider.java:36-39 | the callback never yields two methods with one signature |
| Injection.InjectMethodsRunOnce | src/test/java/org/cyb/di/InjectionTest.java:265-270 | no two collected methods share a name and parameter types, so in a table without synthetic bridge methods an overridden `@Inject` method is invoked once |
| Injection.InjectMethodsSound | src/main/java/org/cyb/di/InjectProvider.java:35-42 | every collected method carries `@Inject`, is declared on the component's chain, and is not overridden by a non-`@Inject` method of the component |
| Injection.GetInjectMethods | src/main/java/org/cyb/di/InjectProvider.java:35-42 | getInjectMethods is the reversed traversal; its result has distinct signatures and only sound entries |
| Injection.OwnMethodsLast | src/test/java/org/cyb/di/InjectionTest.java:250-255 | after the reversal the component's own surviving `@Inject` methods form the tail, so superclass methods are invoked first |
| Injection.Create | src/main/java/org/cyb/di/InjectProvider.java:17-33 | the provider is created iff the component is not abstract, has a selectable constructor, no final `@Inject` field and no generic `@Inject` method; otherwise IllegalComponent; on success it holds exactly the selected constructor and the collected fields and methods |
| Injection.FirstMissing | src/main/java/org/cyb/di/InjectProvider.java:107-109 | the first of a list of types the context cannot supply; none exactly when all are supplied |
| Injection.FirstMissingAppend | src/main/java/org/cyb/di/InjectProvider.java:101-105 | resolving a concatenation fails at the first half's missing type if it has one, otherwise at the second half's |
| Injection.ToDependencies | src/main/java/org/cyb/di/InjectProvider.java:101-109 | all types supplied gives their values in order; otherwise NoSuchElement for the first missing type |
| Injection.AssignFields | src/main/java/org/cyb/di/InjectProvider.java:62-64 | the field loop assigns every field its type's value in list order, or fails with NoSuchElement on the first missing field type |
| Injection.InvokeMethods | src/main/java/org/cyb/di/InjectProvider.java:65-67 | the method loop invokes every method with its resolved parameters in list order, or fails with NoSuchElement on the first missing parameter type across all methods |
| Injection.Get | src/main/java/org/cyb/di/InjectProvider.java:58-72 | get succeeds iff every dependency is supplied, with the log construct, assigns, invokes; otherwise NoSuchElement for the first missing dependency in getDependencies order |
| Injection.AssignsInOrder | src/main/java/org/cyb/di/InjectProvider.java:62-64 | the values assigned to fields are the lookups of the field types, in order |
| Injection.InvokesInOrder | src/main/java/org/cyb/di/InjectProvider.java:65-67 | the arguments passed to the methods are the lookups of their parameter types, flattened in order |
| Injection.Dependencies | src/main/java/org/cyb/di/InjectProvider.java:75-81 | one entry per constructor parameter, per `@Inject` field and per method parameter; the constructor's parameters come first, then the field types in field order |
| Injection.MethodParamsMembers | src/main/java/org/cyb/di/InjectProvider.java:79 | a type occurs in the flattened method parameters iff some method takes it |
| Injection.DependencyMembers | src/main/java/org/cyb/di/ConstructorInjectProvider.java:92-98 | the dependencies are exactly the constructor's parameters, the field types and the method parameters, nothing else |
| Injection.ResolvedInDependencyOrder | src/main/java/org/cyb/di/InjectProvider.java:75-81 | everything a successful get hands to the instance is exactly the lookup of getDependencies, in that order |
| Injection.MethodParamMissing | src/main/java/org/cyb/di/InjectProvider.java:79 | when earlier methods are satisfied, a missing parameter of one method is the first missing of the flattened method parameters |
| EarlyInjection.CollectInjectFields | src/main/java/org/cyb/di/ConstructorInjectProvider.java:44-54 | the explicit field loop collects the same fields as InjectProvider, component level first |
| EarlyInjection.CollectInjectMethods | src/main/java/org/cyb/di/ConstructorInjectProvider.java:26-42 | the explicit method loop computes the reversed fold with the exact-signature no-inject filter; distinct signatures, only sound entries |
| EarlyInjection.SelectedOnlyOnClasses | src/main/java/org/cyb/di/ConstructorInjectProvider.java:56-71 | a selected constructor exists only on a class, never on an interface |
| EarlyInjection.Create | src/main/java/org/cyb/di/ConstructorInjectProvider.java:20-24 | creation fails (IllegalComponent) iff constructor selection fails; no abstract, final or generic check |
| EarlyInjection.NoInjectFilterVersionsDiffer | src/main/java/org/cyb/di/ConstructorInjectProvider.java:34-36 | a plain `reinstall()` in the subclass hides the superclass's `@Inject install()` from InjectProvider (name-suffix match) but not from ConstructorInjectProvider (exact match) |
| Config.Resolve | src/main/java/org/cyb/di/ContextConfig.java:40-43 | Context.get as a function of the bindings: empty for an unbound type or a null instance; errors are only cycles or missing dependencies |
| Config.Construct | src/main/java/org/cyb/di/ContextConfig.java:62-80 | the provider's get as a function: a component under construction reports a cycle; errors are only cycles or missing dependencies |
| Config.ResolveArgs | src/main/java/org/cyb/di/ContextConfig.java:69-71 | resolves constructor parameters left to right; on success one value per parameter; errors only cycles or missing dependencies |
| Config.ResolveCyclic | src/main/java/org/cyb/di/ContextConfig.java:62-80 | a reported cycle path starts at the requested type, follows constructor dependencies, and ends at a component already under construction |
| Config.ConstructCyclic | src/main/java/org/cyb/di/ContextConfig.java:73-74 | the same for one provider: its own type heads the path it rethrows |
| Config.ArgsCyclic | src/main/java/org/cyb/di/ContextConfig.java:69-71 | a cycle found while resolving arguments starts at one of the parameters and is a closed dependency chain |
| Config.ReportedCycleRevisits | src/test/java/org/cyb/di/ContextTest.java:180-192 | from a fresh context a reported cycle has at least two entries and its last component repeats an earlier one |
| Config.ResolveNotFound | src/main/java/org/cyb/di/ContextConfig.java:70 | DependencyNotFound(d, c) names a constructed component c with d among its constructor parameters and d not usable |
| Config.ConstructNotFound | src/main/java/org/cyb/di/ContextConfig.java:69-71 | the same for one provider's get |
| Config.ArgsNotFound | src/main/java/org/cyb/di/ContextConfig.java:69-71 | the same for the argument loop |
| Config.NeverNotFoundWhenSatisfied | src/main/java/org/cyb/di/ContextConfig.java:69-71 | when every constructor parameter is bound to something usable, resolution can fail only with a cycle |
| Config.ContextConfig.constructor | src/main/java/org/cyb/di/ContextConfig.java:14-15 | both maps start empty, and the registry invariant holds |
| Config.ContextConfig.BindInstance | src/main/java/org/cyb/di/ContextConfig.java:17-20 | the type is bound to the instance with no dependencies; the last bind wins; the invariant is kept |
| Config.ContextConfig.BindImplementation | src/main/java/org/cyb/di/ContextConfig.java:22-27 | constructor selection failing leaves both maps unchanged with IllegalComponent; otherwise a fresh idle provider for the type and its constructor's parameters as dependencies |
| Config.ContextConfig.CheckDependencies | src/main/java/org/cyb/di/ContextConfig.java:30-36 | passes iff every listed dependency is bound; a failure names a component and the first unbound entry of its list |
| Config.ContextConfig.GetContext | src/main/java/org/cyb/di/ContextConfig.java:29-45 | a context is returned iff validation passes, and it reads this registry; otherwise the validation's DependencyNotFound |
| Config.Context.constructor | src/main/java/org/cyb/di/ContextConfig.java:38 | the context reads the registry it was created from |
| Config.Context.Get | src/main/java/org/cyb/di/ContextConfig.java:40-43 | get returns exactly `Resolve` over the current bindings and active components, and restores every provider's flag |
| Config.ConstructorInjectProvider.constructor | src/main/java/org/cyb/di/ContextConfig.java:57-60 | a new provider records its type and constructor and is not constructing |
| Config.ConstructorInjectProvider.Get | src/main/java/org/cyb/di/ContextConfig.java:62-80 | get returns exactly `Construct` for its type, and the flag is lowered on every way out (the finally) |
| Config.ValidatedNeverNotFound | src/main/java/org/cyb/di/ContextConfig.java:29-36 | after validation passed, with no null instance bound, resolution can fail only with a cycle |
| Config.TwoComponentCycle | src/test/java/org/cyb/di/ContextTest.java:180-192 | two components depending on each other report the path 1, 2, 1, whose distinct components are exactly the two |
| Config.ThreeComponentCycle | src/test/java/org/cyb/di/ContextTest.java:194-207 | components 1 -> 2 -> 3 -> 1 report the path 1, 2, 3, 1, whose distinct components are exactly the three |
| Config.BindThenGet | src/test/java/org/cyb/di/ContextTest.java:28-34 | an instance bound, validated and fetched comes back unchanged; a null instance comes back empty |
| SimpleContext.Lookup | src/main/java/org/cyb/di/Context.java:51-54 | get as a function: errors are only DependencyMissing or StackOverflow |
| SimpleContext.LazyArgs | src/main/java/org/cyb/di/Context.java:24-26 | arguments are resolved left to right; on success one value per parameter after those already resolved |
| SimpleContext.LookupStackMonotone | src/main/java/org/cyb/di/Context.java:21-31 | a larger stack does not change a result that did not overflow |
| SimpleContext.LazyArgsStackMonotone | src/main/java/org/cyb/di/Context.java:24-26 | the same for the argument loop |
| SimpleContext.SelfDependencyOverflows | src/main/java/org/cyb/di/Context.java:21-31 | a component whose first constructor parameter is its own type overflows any stack |
| SimpleContext.LazyArgsOverInstances | src/main/java/org/cyb/di/Context.java:24-26 | over parameters bound to non-null instances, the arguments resolve iff every parameter is bound, and otherwise fail with DependencyMissing |
| SimpleContext.Context.constructor | src/main/java/org/cyb/di/Context.java:12 | the provider map starts empty |
| SimpleContext.Context.BindInstance | src/main/java/org/cyb/di/Context.java:14-16 | the type is bound to the instance, replacing any earlier binding |
| SimpleContext.Context.BindImplementation | src/main/java/org/cyb/di/Context.java:18-32 | IllegalComponent with the map unchanged iff no constructor can be selected; otherwise a lazy provider for the selected constructor's parameters |
| SimpleContext.Context.Get | src/main/java/org/cyb/di/Context.java:51-54 | get returns exactly `Lookup` for the current providers and stack |
| SimpleContext.RebindThenGet | src/main/java/org/cyb/di/Context.java:14-16 | after two binds of one type, get returns the second instance, or empty if it is null |
| Singleton.ScriptedProvider.constructor | src/main/java/org/cyb/di/ContextConfig.java:47-49 | the stand-in provider starts with its script and no calls |
| Singleton.ScriptedProvider.Get | src/main/java/org/cyb/di/ContextConfig.java:47-49 | the stand-in answers with the next scripted outcome (a value or a thrown exception), or null once the script is used up, and counts the call |
| Singleton.SingletonProvider.constructor | src/main/java/org/cyb/di/SingletonProvider.java:9-11 | wraps the given provider with an empty cache |
| Singleton.SingletonProvider.Get | src/main/java/org/cyb/di/SingletonProvider.java:14-19 | a non-null cached value is returned without asking the wrapped provider; otherwise the wrapped provider is asked once, its value is cached and returned, and its exception propagates with the cache left empty |
| Singleton.SingletonProvider.GetDependencies | src/main/java/org/cyb/di/SingletonProvider.java:22-24 | the dependencies are exactly the wrapped provider's |
| Singleton.GetTwice | src/main/java/org/cyb/di/SingletonProvider.java:14-19 | two gets: a non-null first value is reused and the provider is asked once; a null first value or a thrown exception is not cached, so the provider is asked a second time |
| Cycles.SetOfSeqSize | src/main/java/org/cyb/di/CyclicDependenciesFound.java:10-12 | collecting a path into a set never adds elements, and keeps the count iff the path has no repeats |
| Cycles.CyclicDependenciesFound.constructor | src/main/java/org/cyb/di/CyclicDependenciesFound.java:10-12 | the components are the set of the visited path |
| Cycles.CyclicDependenciesFound.GetComponents | src/main/java/org/cyb/di/CyclicDependenciesFound.java:14-16 | the returned types are exactly the types of the set's components, one entry per distinct component, in some enumeration of the set that lists each component exactly once |
| Cycles.ReportedTypes | src/main/java/org/cyb/di/CyclicDependenciesFound.java:8-16 | the reported types are those of the path's components; there are as many as path entries iff the path has no repeats |
| Cycles.CycleReports | src/test/java/org/cyb/di/ContextTest.java:180-207 | a two-component cycle reports exactly its two types, a three-component cycle exactly its three |

## Left out

- Reflection is not modelled. Constructor invocation, field assignment and method invocation become entries of an effect log. Their checked exceptions, wrapped in RuntimeException, are not modelled.
- The type parameters of `getDependencies` (`Context.Ref`, parameterized types), qualifiers, `Provider<T>` injection and `ComponentRef`, which the tests use, are not modelled. Those belong to other snapshots of the repository. Dependencies are plain type ids.
- The static cycle check that the tests expect from `getContext` is not in `ContextConfig.java`. Cycles are detected dynamically by the `constructing` flag, and the two cycle scenarios of the tests are stated as lemmas about that detection (Config.TwoComponentCycle, Config.ThreeComponentCycle).
- The `CyclicDependenciesFound` constructors that `ContextConfig.java` calls at lines 65 and 74 take a type, or a type and the caught exception. `CyclicDependenciesFound.java` declares only the list constructor, so those constructors are not part of this model. They are modelled as the path `[componentType]` and as `componentType` prepended to the caught path.
- The snapshots of the six files do not compile together: `ComponentRef`, `Context.Ref` and the two `Context` shapes differ between them. Each is modelled as written.
- Injection.Get: the context is a fixed map from type to value, so each lookup answers the same every time and has no side effects. The log is returned only on success, so partially built instances are not modelled.
- EarlyInjection: `get` and `getDependencies` of `ConstructorInjectProvider.java` (lines 73-98) are the same as `InjectProvider`'s, and are modelled by Injection.Get and Injection.Dependencies.
- Config.ContextConfig.CheckDependencies: the `HashMap` iteration order is a nondeterministic choice. When several components have unbound dependencies, the contract does not say which one is reported.
- Config.Context.Get: requires the registry invariant `Valid`, which every registry operation keeps. A registry built only through these operations always meets it.
- Config.ConstructorInjectProvider.Get: requires that the provider is the one bound at its own type in the context's registry. That is always so when it is reached through `Context.get`. A provider bound in one registry and called with another context is not modelled.
- SimpleContext.Context.Get: the Java stack is a budget of frames. Exhaustion is `StackOverflow` rather than a JVM error, and the real stack size is not modelled.
- Singleton.SingletonProvider.Get: the wrapped provider is a scripted stand-in, because its code is any `ComponentProvider`. Its script lists each outcome, a value or an exception, in advance. The `Context` argument passed through is omitted.
- Synthetic bridge methods are not in the class table. `getDeclaredMethods` also returns them, and javac copies the `@Inject` annotation onto them. So a generic or covariant `@Inject` override can make InjectProvider invoke the overriding method twice, once directly and once through the bridge. The model does not capture that.
- Cycles.CyclicDependenciesFound.GetComponents: the `HashSet` iteration order is the ghost `order`, which is fixed only as some enumeration listing each component once.
- Concurrency: nothing is thread-safe in the source, and no interleaving is modelled.
