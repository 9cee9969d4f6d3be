/** InjectProvider: inspects a component class once (its constructor, its `@Inject`
    fields and methods along the superclass chain, with the override rules), and
    then builds instances from that plan, resolving each dependency through a context. */
module Injection {
  import opened Common
  import opened ClassTable

  // ---------------------------------------------------------------------------
  // Constructor selection (shared by every registry and provider of the container)
  // ---------------------------------------------------------------------------

  predicate IsInjectCtor(c: Ctor) { c.inject }

  /** getDefaultConstructor: the declared constructor without parameters, if any. */
  function DefaultConstructor(ctors: seq<Ctor>): (r: Option<Ctor>)
    ensures r.Some? ==> r.value in ctors && r.value.params == []
    ensures r.None? ==> forall c :: c in ctors ==> c.params != []
  {
    if ctors == [] then None
    else if ctors[0].params == [] then Some(ctors[0])
    else DefaultConstructor(ctors[1..])
  }

  /** getInjectConstructor: the single `@Inject` constructor, else the no-argument one. */
  function SelectConstructor(info: ClassInfo): (r: Result<Ctor>)
    ensures |Filter(info.ctors, IsInjectCtor)| > 1 ==> r == Err(IllegalComponent)
    ensures |Filter(info.ctors, IsInjectCtor)| == 1 ==>
              r.Ok? && r.value.inject && r.value in info.ctors
    ensures Filter(info.ctors, IsInjectCtor) == [] ==>
              (r.Ok? <==> exists c :: c in info.ctors && c.params == []) &&
              (r.Ok? ==> r.value in info.ctors && r.value.params == [])
    ensures r.Err? ==> r.error == IllegalComponent
  {
    var injects := Filter(info.ctors, IsInjectCtor);
    if |injects| > 1 then Err(IllegalComponent)
    else if |injects| == 1 then
      assert injects[0] in injects;
      Ok(injects[0])
    else match DefaultConstructor(info.ctors)
      case Some(c) => Ok(c)
      case None => Err(IllegalComponent)
  }

  // ---------------------------------------------------------------------------
  // traverse
  // ---------------------------------------------------------------------------

  /** Walks from `component` up to Object, appending what `step` yields for each
      class; `step` is given everything collected so far. */
  method Traverse<T>(t: Table, component: TypeId, step: (seq<T>, ClassInfo) -> seq<T>)
    returns (members: seq<T>)
    requires WellFormed(t) && IsClass(t, component)
    ensures members == ChainFold(t, component, [], step)
  {
    members := [];
    var current := component;
    while current != OBJECT
      invariant IsClass(t, current)
      invariant ChainFold(t, current, members, step) == ChainFold(t, component, [], step)
      decreases current
    {
      members := members + step(members, t[current]);
      current := t[current].parent.value;
    }
  }

  // ---------------------------------------------------------------------------
  // Fields
  // ---------------------------------------------------------------------------

  predicate IsInjectField(f: FieldDecl) { f.inject }

  /** The callback of getInjectFields: this class's `@Inject` fields. */
  function FieldStep(collected: seq<FieldDecl>, current: ClassInfo): seq<FieldDecl> {
    Filter(current.fields, IsInjectField)
  }

  /** Reference definition: the `@Inject` fields of `c`, then those of its
      superclass, and so on up to (excluding) Object. */
  function InheritedFields(t: Table, c: TypeId): (r: seq<FieldDecl>)
    requires WellFormed(t) && IsClass(t, c)
    ensures forall f :: f in r ==> f.inject
    decreases c
  {
    if c == OBJECT then [] else Filter(t[c].fields, IsInjectField) + InheritedFields(t, t[c].parent.value)
  }

  lemma {:induction false} FieldsLevelByLevel(t: Table, current: TypeId, collected: seq<FieldDecl>)
    requires WellFormed(t) && IsClass(t, current)
    ensures ChainFold(t, current, collected, FieldStep) == collected + InheritedFields(t, current)
    decreases current
  {
    if current != OBJECT {
      var here := Filter(t[current].fields, IsInjectField);
      var parent := t[current].parent.value;
      assert ChainFold(t, current, collected, FieldStep) == ChainFold(t, parent, collected + here, FieldStep) by {
        assert FieldStep(collected, t[current]) == here;
      }
      FieldsLevelByLevel(t, parent, collected + here);
      assert collected + here + InheritedFields(t, parent) == collected + (here + InheritedFields(t, parent));
    }
  }

  /** getInjectFields: no reversal, so the component's own fields come first. */
  method GetInjectFields(t: Table, component: TypeId) returns (fields: seq<FieldDecl>)
    requires WellFormed(t) && IsClass(t, component)
    ensures fields == InheritedFields(t, component)
    ensures forall f :: f in fields ==> f.inject
  {
    fields := Traverse(t, component, FieldStep);
    FieldsLevelByLevel(t, component, []);
  }

  // ---------------------------------------------------------------------------
  // Methods
  // ---------------------------------------------------------------------------

  /** isOverride: `o` is taken to override `m` when its name ends with `m`'s name
      and the parameter types agree, so every same-signature method counts, and
      so does a longer name with the same suffix. */
  predicate IsOverride(m: MethodDecl, o: MethodDecl)
    ensures SameSignature(m, o) ==> IsOverride(m, o)
    ensures IsOverride(m, o) ==> o.params == m.params && |m.name| <= |o.name|
    ensures IsOverride(m, o) && |o.name| == |m.name| ==> SameSignature(m, o)
  {
    EndsWith(o.name, m.name) && o.params == m.params
  }

  /** isOverrideByInjectMethod: true when no method collected so far overrides `m`;
      in particular `m` shares its signature with no collected method. */
  predicate NotOverriddenByInjectMethod(collected: seq<MethodDecl>, m: MethodDecl)
    ensures collected == [] ==> NotOverriddenByInjectMethod(collected, m)
    ensures NotOverriddenByInjectMethod(collected, m) ==>
              m !in collected && forall o :: o in collected ==> !SameSignature(m, o)
  {
    forall o :: o in collected ==> !IsOverride(m, o)
  }

  /** isOverrideByNoInjectMethod: true when no non-`@Inject` method of the
      component (`own`) matches `m` under `overrides`. This provider matches with
      IsOverride; the earlier ConstructorInjectProvider matches with SameSignature.
      The component's `@Inject` methods never hide anything. */
  predicate NotOverriddenByNoInjectMethod(own: seq<MethodDecl>, overrides: (MethodDecl, MethodDecl) -> bool,
                                          m: MethodDecl)
    ensures (forall o :: o in own ==> o.inject) ==> NotOverriddenByNoInjectMethod(own, overrides, m)
    ensures NotOverriddenByNoInjectMethod(own, overrides, m) && m in own && overrides(m, m) ==> m.inject
  {
    forall o :: o in own && !o.inject ==> !overrides(m, o)
  }

  /** The name-suffix filter of InjectProvider hides every method the exact
      filter of ConstructorInjectProvider hides, and possibly more. */
  lemma SuffixFilterHidesMore(own: seq<MethodDecl>, m: MethodDecl)
    ensures NotOverriddenByNoInjectMethod(own, IsOverride, m) ==>
              NotOverriddenByNoInjectMethod(own, SameSignature, m)
  {
  }

  /** The callback of getInjectMethods on one class: its `@Inject` methods that pass both filters. */
  function KeepMethods(own: seq<MethodDecl>, overrides: (MethodDecl, MethodDecl) -> bool,
                       collected: seq<MethodDecl>, candidates: seq<MethodDecl>)
    : (r: seq<MethodDecl>)
    ensures forall m :: m in r <==>
      m in candidates && m.inject &&
      NotOverriddenByInjectMethod(collected, m) && NotOverriddenByNoInjectMethod(own, overrides, m)
  {
    if candidates == [] then []
    else
      var m := candidates[0];
      (if m.inject && NotOverriddenByInjectMethod(collected, m) && NotOverriddenByNoInjectMethod(own, overrides, m)
       then [m] else [])
      + KeepMethods(own, overrides, collected, candidates[1..])
  }

  function MethodStepFor(own: seq<MethodDecl>, overrides: (MethodDecl, MethodDecl) -> bool)
    : (seq<MethodDecl>, ClassInfo) -> seq<MethodDecl>
  {
    (collected: seq<MethodDecl>, current: ClassInfo) => KeepMethods(own, overrides, collected, current.methods)
  }

  /** The value of getInjectMethods: the traversal's result, reversed. */
  function InjectMethodsOf(t: Table, component: TypeId): seq<MethodDecl>
    requires WellFormed(t) && IsClass(t, component)
  {
    Reverse(ChainFold(t, component, [], MethodStepFor(t[component].methods, IsOverride)))
  }

  lemma {:induction false} KeepMethodsDistinct(own: seq<MethodDecl>, overrides: (MethodDecl, MethodDecl) -> bool,
                                               collected: seq<MethodDecl>, candidates: seq<MethodDecl>)
    requires DistinctSignatures(candidates)
    ensures DistinctSignatures(KeepMethods(own, overrides, collected, candidates))
  {
    if candidates != [] {
      var tail := candidates[1..];
      KeepMethodsDistinct(own, overrides, collected, tail);
      var r := KeepMethods(own, overrides, collected, candidates);
      var rest := KeepMethods(own, overrides, collected, tail);
      if r != rest {
        assert r == [candidates[0]] + rest;
        forall j | 0 < j < |r| ensures !SameSignature(r[0], r[j]) {
          assert r[j] in tail;
          var k :| 0 <= k < |tail| && tail[k] == r[j];
          assert candidates[k + 1] == r[j];
        }
      }
    }
  }

  lemma AppendDistinct(a: seq<MethodDecl>, b: seq<MethodDecl>)
    requires DistinctSignatures(a) && DistinctSignatures(b)
    requires forall x, y :: x in b && y in a ==> !SameSignature(x, y)
    ensures DistinctSignatures(a + b)
  {
    var ab := a + b;
    forall i, j | 0 <= i < j < |ab| ensures !SameSignature(ab[i], ab[j]) {
      if j < |a| {
        assert ab[i] == a[i] && ab[j] == a[j];
      } else if i < |a| {
        assert ab[j] == b[j - |a|] && ab[j] in b;
        assert ab[i] == a[i] && ab[i] in a;
        assert !SameSignature(ab[j], ab[i]);
      } else {
        assert ab[i] == b[i - |a|] && ab[j] == b[j - |a|];
      }
    }
  }

  lemma ReverseDistinct(s: seq<MethodDecl>)
    requires DistinctSignatures(s)
    ensures DistinctSignatures(Reverse(s))
  {
    var r := Reverse(s);
    forall i, j | 0 <= i < j < |r| ensures !SameSignature(r[i], r[j]) {
      assert r[i] == s[|s| - 1 - i] && r[j] == s[|s| - 1 - j];
    }
  }

  /** An overridden `@Inject` method is collected once: no two collected methods
      share a signature, because a method's own signature overrides it. */
  lemma {:induction false} InjectMethodsRunOnce(t: Table, current: TypeId, own: seq<MethodDecl>,
                                                overrides: (MethodDecl, MethodDecl) -> bool,
                                                collected: seq<MethodDecl>)
    requires WellFormed(t) && IsClass(t, current)
    requires DistinctSignatures(collected)
    ensures DistinctSignatures(ChainFold(t, current, collected, MethodStepFor(own, overrides)))
    decreases current
  {
    if current != OBJECT {
      var here := KeepMethods(own, overrides, collected, t[current].methods);
      assert MethodStepFor(own, overrides)(collected, t[current]) == here;
      KeepMethodsDistinct(own, overrides, collected, t[current].methods);
      forall x, y | x in here && y in collected ensures !SameSignature(x, y) {
        assert !IsOverride(x, y);
        assert y.name[|y.name| - |y.name|..] == y.name;
      }
      AppendDistinct(collected, here);
      InjectMethodsRunOnce(t, t[current].parent.value, own, overrides, collected + here);
    }
  }

  /** Every collected method is an `@Inject` method declared on the chain and not
      overridden by a non-`@Inject` method of the component. */
  lemma {:induction false} InjectMethodsSound(t: Table, current: TypeId, own: seq<MethodDecl>,
                                              overrides: (MethodDecl, MethodDecl) -> bool,
                                              collected: seq<MethodDecl>)
    requires WellFormed(t) && IsClass(t, current)
    ensures forall m :: m in ChainFold(t, current, collected, MethodStepFor(own, overrides)) ==>
      m in collected ||
      (m.inject && NotOverriddenByNoInjectMethod(own, overrides, m) &&
       exists a :: a in Ancestors(t, current) && m in t[a].methods)
    decreases current
  {
    if current != OBJECT {
      var here := KeepMethods(own, overrides, collected, t[current].methods);
      var parent := t[current].parent.value;
      assert MethodStepFor(own, overrides)(collected, t[current]) == here;
      InjectMethodsSound(t, parent, own, overrides, collected + here);
      assert Ancestors(t, current) == [current] + Ancestors(t, parent);
      forall m | m in ChainFold(t, current, collected, MethodStepFor(own, overrides)) && m !in collected
        ensures m.inject && NotOverriddenByNoInjectMethod(own, overrides, m) &&
                exists a :: a in Ancestors(t, current) && m in t[a].methods
      {
        if m in here {
          assert current in Ancestors(t, current) && m in t[current].methods;
        } else {
          assert m !in collected + here;
          assert exists a :: a in Ancestors(t, parent) && m in t[a].methods;
          var a :| a in Ancestors(t, parent) && m in t[a].methods;
          assert a in Ancestors(t, current);
        }
      }
    }
  }

  /** getInjectMethods: superclass methods are reversed to the front, so the
      component's own `@Inject` methods come last. */
  method GetInjectMethods(t: Table, component: TypeId) returns (methods: seq<MethodDecl>)
    requires WellFormed(t) && IsClass(t, component)
    ensures methods == InjectMethodsOf(t, component)
    ensures DistinctSignatures(methods)
    ensures forall m :: m in methods ==>
      m.inject && NotOverriddenByNoInjectMethod(t[component].methods, IsOverride, m) &&
      exists a :: a in Ancestors(t, component) && m in t[a].methods
  {
    var own := t[component].methods;
    methods := Traverse(t, component, MethodStepFor(own, IsOverride));
    InjectMethodsRunOnce(t, component, own, IsOverride, []);
    InjectMethodsSound(t, component, own, IsOverride, []);
    ReverseDistinct(methods);
    methods := Reverse(methods);
  }

  /** Superclass-first ordering: the methods the component itself contributes
      (its own `@Inject` methods that survive both filters) are invoked last,
      after every inherited one, in reverse declaration order. */
  lemma OwnMethodsLast(t: Table, component: TypeId)
    requires WellFormed(t) && IsClass(t, component) && component != OBJECT
    ensures var own := t[component].methods;
            var mine := KeepMethods(own, IsOverride, [], own);
            var all := InjectMethodsOf(t, component);
            |all| >= |mine| && all[|all| - |mine|..] == Reverse(mine)
  {
    var own := t[component].methods;
    var mine := KeepMethods(own, IsOverride, [], own);
    var step := MethodStepFor(own, IsOverride);
    var parent := t[component].parent.value;
    var folded := ChainFold(t, component, [], step);
    assert folded == ChainFold(t, parent, mine, step) by {
      assert step([], t[component]) == mine;
      assert [] + mine == mine;
    }
    ChainFoldExtends(t, parent, mine, step);
    ReversePrefix(folded, mine);
  }

  // ---------------------------------------------------------------------------
  // The provider: construction-time checks
  // ---------------------------------------------------------------------------

  /** The immutable plan an InjectProvider holds. */
  datatype InjectProvider = InjectProvider(
    component: TypeId,
    ctor: Ctor,
    fields: seq<FieldDecl>,
    methods: seq<MethodDecl>)

  predicate NoFinalField(fields: seq<FieldDecl>) { forall f :: f in fields ==> !f.isFinal }

  predicate NoGenericMethod(methods: seq<MethodDecl>) { forall m :: m in methods ==> !m.generic }

  /** The InjectProvider constructor: rejects abstract components before looking at
      any member, then final `@Inject` fields and generic `@Inject` methods. */
  method Create(t: Table, component: TypeId) returns (r: Result<InjectProvider>)
    requires WellFormed(t) && component in t
    ensures t[component].isAbstract ==> r == Err(IllegalComponent)
    ensures r.Err? ==> r.error == IllegalComponent
    ensures r.Ok? <==>
      && !t[component].isAbstract
      && SelectConstructor(t[component]).Ok?
      && NoFinalField(InheritedFields(t, component))
      && NoGenericMethod(InjectMethodsOf(t, component))
    ensures r.Ok? ==>
      && r.value.component == component
      && r.value.ctor == SelectConstructor(t[component]).value
      && r.value.fields == InheritedFields(t, component)
      && r.value.methods == InjectMethodsOf(t, component)
  {
    if t[component].isAbstract {
      return Err(IllegalComponent);
    }
    var ctor := SelectConstructor(t[component]);
    if ctor.Err? {
      return Err(IllegalComponent);
    }
    var fields := GetInjectFields(t, component);
    var methods := GetInjectMethods(t, component);
    if exists f :: f in fields && f.isFinal {
      return Err(IllegalComponent);
    }
    if exists m :: m in methods && m.generic {
      return Err(IllegalComponent);
    }
    return Ok(InjectProvider(component, ctor.value, fields, methods));
  }

  // ---------------------------------------------------------------------------
  // The provider: dependencies and get
  // ---------------------------------------------------------------------------

  /** What a built instance went through, in order. */
  datatype Effect =
    | Constructed(cls: TypeId, args: seq<Value>)
    | Assign(field: FieldDecl, value: Value)
    | Invoke(callee: MethodDecl, args: seq<Value>)

  /** The context answers `get(type)`; a type absent from the map is an empty Optional. */
  type ContextView = map<TypeId, Value>

  predicate Present(context: ContextView, types: seq<TypeId>) {
    forall d :: d in types ==> d in context
  }

  /** The first of `types` the context cannot supply, if any. */
  function FirstMissing(context: ContextView, types: seq<TypeId>): (r: Option<TypeId>)
    ensures r.None? <==> Present(context, types)
    ensures r.Some? ==> r.value in types && r.value !in context
  {
    if types == [] then None
    else if types[0] !in context then Some(types[0])
    else FirstMissing(context, types[1..])
  }

  /** The first missing type of a concatenation is the first half's, if it has one. */
  lemma {:induction false} FirstMissingAppend(context: ContextView, a: seq<TypeId>, b: seq<TypeId>)
    ensures FirstMissing(context, a + b)
         == if FirstMissing(context, a).Some? then FirstMissing(context, a) else FirstMissing(context, b)
  {
    if a == [] {
      assert a + b == b;
    } else {
      assert (a + b)[0] == a[0] && (a + b)[1..] == a[1..] + b;
      FirstMissingAppend(context, a[1..], b);
    }
  }

  function Lookup(context: ContextView, types: seq<TypeId>): (r: seq<Value>)
    requires Present(context, types)
    ensures |r| == |types|
    ensures forall i :: 0 <= i < |types| ==> r[i] == context[types[i]]
  {
    if types == [] then [] else Lookup(context, types[..|types| - 1]) + [context[types[|types| - 1]]]
  }

  function FieldTypes(fields: seq<FieldDecl>): (r: seq<TypeId>) {
    seq(|fields|, i requires 0 <= i < |fields| => fields[i].fieldType)
  }

  function MethodParams(methods: seq<MethodDecl>): seq<TypeId> {
    if methods == [] then [] else MethodParams(methods[..|methods| - 1]) + methods[|methods| - 1].params
  }

  /** getDependencies: constructor parameters, then field types, then the
      parameters of each method in method-list order. */
  function Dependencies(p: InjectProvider): (r: seq<TypeId>)
    ensures |r| == |p.ctor.params| + |p.fields| + |MethodParams(p.methods)|
    ensures r[..|p.ctor.params|] == p.ctor.params
    ensures forall i :: 0 <= i < |p.fields| ==> r[|p.ctor.params| + i] == p.fields[i].fieldType
  {
    p.ctor.params + FieldTypes(p.fields) + MethodParams(p.methods)
  }

  /** A type occurs among the parameters of some method iff it occurs in the
      flattened parameter list. */
  lemma {:induction false} MethodParamsMembers(methods: seq<MethodDecl>, d: TypeId)
    ensures d in MethodParams(methods) <==> exists m :: m in methods && d in m.params
    decreases |methods|
  {
    if methods != [] {
      var init := methods[..|methods| - 1];
      var last := methods[|methods| - 1];
      MethodParamsMembers(init, d);
      assert forall m :: m in methods <==> m in init || m == last by {
        assert methods == init + [last];
      }
    }
  }

  /** Everything getDependencies lists: the constructor's parameters, the types of
      the `@Inject` fields and the parameters of the `@Inject` methods, nothing else. */
  lemma DependencyMembers(p: InjectProvider, d: TypeId)
    ensures d in Dependencies(p) <==>
      d in p.ctor.params ||
      (exists f :: f in p.fields && f.fieldType == d) ||
      (exists m :: m in p.methods && d in m.params)
  {
    MethodParamsMembers(p.methods, d);
    var fieldTypes := FieldTypes(p.fields);
    assert d in fieldTypes <==> exists f :: f in p.fields && f.fieldType == d by {
      if d in fieldTypes {
        var i :| 0 <= i < |fieldTypes| && fieldTypes[i] == d;
        assert p.fields[i] in p.fields;
      }
      if exists f :: f in p.fields && f.fieldType == d {
        var f :| f in p.fields && f.fieldType == d;
        var i :| 0 <= i < |p.fields| && p.fields[i] == f;
        assert fieldTypes[i] == d;
      }
    }
  }

  function Assigns(fields: seq<FieldDecl>, context: ContextView): seq<Effect>
    requires Present(context, FieldTypes(fields))
  {
    if fields == [] then []
    else
      var f := fields[|fields| - 1];
      assert FieldTypes(fields)[|fields| - 1] == f.fieldType;
      assert FieldTypes(fields[..|fields| - 1]) <= FieldTypes(fields);
      Assigns(fields[..|fields| - 1], context) + [Assign(f, context[f.fieldType])]
  }

  function Invokes(methods: seq<MethodDecl>, context: ContextView): seq<Effect>
    requires Present(context, MethodParams(methods))
  {
    if methods == [] then []
    else
      var m := methods[|methods| - 1];
      Invokes(methods[..|methods| - 1], context) + [Invoke(m, Lookup(context, m.params))]
  }

  /** The effects of a successful `get`: construct, then assign every field in
      list order, then invoke every method in list order. */
  function Expected(p: InjectProvider, context: ContextView): seq<Effect>
    requires Present(context, Dependencies(p))
  {
    [Constructed(p.component, Lookup(context, p.ctor.params))]
      + Assigns(p.fields, context) + Invokes(p.methods, context)
  }

  /** Every value handed to the instance, in the order it was handed over. */
  function Arguments(log: seq<Effect>): seq<Value> {
    if log == [] then [] else Arguments(log[..|log| - 1]) + EffectArguments(log[|log| - 1])
  }

  function EffectArguments(e: Effect): seq<Value> {
    match e
    case Constructed(_, args) => args
    case Assign(_, v) => [v]
    case Invoke(_, args) => args
  }

  lemma {:induction false} ArgumentsAppend(a: seq<Effect>, b: seq<Effect>)
    ensures Arguments(a + b) == Arguments(a) + Arguments(b)
    decreases |b|
  {
    if b != [] {
      var b' := b[..|b| - 1];
      assert (a + b)[..|a + b| - 1] == a + b';
      var last := EffectArguments(b[|b| - 1]);
      assert (a + b)[|a + b| - 1] == b[|b| - 1];
      ArgumentsAppend(a, b');
      calc {
        Arguments(a + b);
        Arguments(a + b') + last;
        Arguments(a) + Arguments(b') + last;
        Arguments(a) + (Arguments(b') + last);
        Arguments(a) + Arguments(b);
      }
    } else {
      assert a + b == a;
    }
  }

  lemma {:induction false} LookupAppend(context: ContextView, a: seq<TypeId>, b: seq<TypeId>)
    requires Present(context, a + b)
    ensures Lookup(context, a + b) == Lookup(context, a) + Lookup(context, b)
  {
    assert Present(context, a) && Present(context, b);
  }

  lemma {:induction false} AssignsInOrder(fields: seq<FieldDecl>, context: ContextView)
    requires Present(context, FieldTypes(fields))
    ensures Arguments(Assigns(fields, context)) == Lookup(context, FieldTypes(fields))
    decreases |fields|
  {
    if fields != [] {
      var init := fields[..|fields| - 1];
      var f := fields[|fields| - 1];
      assert FieldTypes(fields) == FieldTypes(init) + [f.fieldType];
      AssignsInOrder(init, context);
      ArgumentsAppend(Assigns(init, context), [Assign(f, context[f.fieldType])]);
      assert Arguments([Assign(f, context[f.fieldType])]) == [context[f.fieldType]];
      LookupAppend(context, FieldTypes(init), [f.fieldType]);
    }
  }

  lemma {:induction false} InvokesInOrder(methods: seq<MethodDecl>, context: ContextView)
    requires Present(context, MethodParams(methods))
    ensures Arguments(Invokes(methods, context)) == Lookup(context, MethodParams(methods))
    decreases |methods|
  {
    if methods != [] {
      var init := methods[..|methods| - 1];
      var m := methods[|methods| - 1];
      InvokesInOrder(init, context);
      var call := Invoke(m, Lookup(context, m.params));
      ArgumentsAppend(Invokes(init, context), [call]);
      assert Arguments([call]) == Lookup(context, m.params);
      LookupAppend(context, MethodParams(init), m.params);
    }
  }

  /** `get` hands dependencies to the instance in exactly the order getDependencies lists them. */
  lemma ResolvedInDependencyOrder(p: InjectProvider, context: ContextView)
    requires Present(context, Dependencies(p))
    ensures Arguments(Expected(p, context)) == Lookup(context, Dependencies(p))
  {
    var c := [Constructed(p.component, Lookup(context, p.ctor.params))];
    var fs := Assigns(p.fields, context);
    var ms := Invokes(p.methods, context);
    assert Present(context, p.ctor.params + FieldTypes(p.fields));
    ArgumentsAppend(c + fs, ms);
    ArgumentsAppend(c, fs);
    assert Arguments(c) == Lookup(context, p.ctor.params);
    AssignsInOrder(p.fields, context);
    InvokesInOrder(p.methods, context);
    LookupAppend(context, p.ctor.params + FieldTypes(p.fields), MethodParams(p.methods));
    LookupAppend(context, p.ctor.params, FieldTypes(p.fields));
  }

  lemma {:induction false} MethodParamsAppend(a: seq<MethodDecl>, b: seq<MethodDecl>)
    ensures MethodParams(a + b) == MethodParams(a) + MethodParams(b)
    decreases |b|
  {
    if b != [] {
      var b' := b[..|b| - 1];
      assert (a + b)[..|a + b| - 1] == a + b';
      var last := b[|b| - 1].params;
      assert (a + b)[|a + b| - 1] == b[|b| - 1];
      MethodParamsAppend(a, b');
      calc {
        MethodParams(a + b);
        MethodParams(a + b') + last;
        MethodParams(a) + MethodParams(b') + last;
        MethodParams(a) + (MethodParams(b') + last);
        MethodParams(a) + MethodParams(b);
      }
    } else {
      assert a + b == a;
    }
  }

  /** toDependencies: resolves each type in order; Optional.get() on the first
      empty lookup throws. */
  method ToDependencies(context: ContextView, types: seq<TypeId>) returns (r: Result<seq<Value>>)
    ensures FirstMissing(context, types).None? ==> r == Ok(Lookup(context, types))
    ensures FirstMissing(context, types).Some? ==> r == Err(NoSuchElement(FirstMissing(context, types).value))
  {
    var values := [];
    var i := 0;
    while i < |types|
      invariant 0 <= i <= |types|
      invariant Present(context, types[..i])
      invariant values == Lookup(context, types[..i])
    {
      if types[i] !in context {
        assert FirstMissing(context, types) == Some(types[i]) by {
          assert types == types[..i] + types[i..];
          FirstMissingAppend(context, types[..i], types[i..]);
        }
        return Err(NoSuchElement(types[i]));
      }
      values := values + [context[types[i]]];
      assert types[..i + 1][..i] == types[..i];
      i := i + 1;
    }
    assert types[..i] == types;
    return Ok(values);
  }

  lemma AssignsStep(fields: seq<FieldDecl>, i: int, context: ContextView)
    requires 0 <= i < |fields| && Present(context, FieldTypes(fields[..i]))
    requires fields[i].fieldType in context
    ensures Present(context, FieldTypes(fields[..i + 1]))
    ensures Assigns(fields[..i + 1], context)
         == Assigns(fields[..i], context) + [Assign(fields[i], context[fields[i].fieldType])]
  {
    assert FieldTypes(fields[..i + 1]) == FieldTypes(fields[..i]) + [fields[i].fieldType];
    assert fields[..i + 1][..i] == fields[..i];
  }

  lemma InvokesStep(methods: seq<MethodDecl>, j: int, context: ContextView)
    requires 0 <= j < |methods| && Present(context, MethodParams(methods[..j]))
    requires Present(context, methods[j].params)
    ensures Present(context, MethodParams(methods[..j + 1]))
    ensures Invokes(methods[..j + 1], context)
         == Invokes(methods[..j], context) + [Invoke(methods[j], Lookup(context, methods[j].params))]
  {
    assert methods[..j + 1][..j] == methods[..j];
    assert MethodParams(methods[..j + 1]) == MethodParams(methods[..j]) + methods[j].params;
  }

  lemma MethodParamsPrefix(methods: seq<MethodDecl>, j: int)
    requires 0 <= j < |methods|
    ensures MethodParams(methods[..j + 1]) == MethodParams(methods[..j]) + methods[j].params
  {
    var upto := methods[..j + 1];
    assert upto[..|upto| - 1] == methods[..j] && upto[|upto| - 1] == methods[j];
  }

  lemma MethodParamsSplit(methods: seq<MethodDecl>, j: int)
    requires 0 <= j < |methods|
    ensures MethodParams(methods)
         == MethodParams(methods[..j]) + methods[j].params + MethodParams(methods[j + 1..])
  {
    var upto, rest := methods[..j + 1], methods[j + 1..];
    SliceSplit(methods, j + 1);
    calc {
      MethodParams(methods);
      MethodParams(upto + rest);
      { MethodParamsAppend(upto, rest); }
      MethodParams(upto) + MethodParams(rest);
      { MethodParamsPrefix(methods, j); }
      MethodParams(methods[..j]) + methods[j].params + MethodParams(rest);
    }
  }

  /** Once the earlier methods' parameters are all supplied, the first missing
      parameter of the `j`-th method is the first missing of the flattened list. */
  lemma MethodParamMissing(methods: seq<MethodDecl>, j: int, context: ContextView)
    requires 0 <= j < |methods| && Present(context, MethodParams(methods[..j]))
    requires FirstMissing(context, methods[j].params).Some?
    ensures FirstMissing(context, MethodParams(methods)) == FirstMissing(context, methods[j].params)
  {
    MethodParamsSplit(methods, j);
    var pre, here, post := MethodParams(methods[..j]), methods[j].params, MethodParams(methods[j + 1..]);
    FirstMissingAppend(context, pre + here, post);
    FirstMissingAppend(context, pre, here);
  }

  /** The field loop of get: each `@Inject` field receives `context.get(its type)`,
      in list order; the first type the context lacks aborts the loop. */
  method AssignFields(fields: seq<FieldDecl>, context: ContextView) returns (r: Result<seq<Effect>>)
    ensures FirstMissing(context, FieldTypes(fields)).None? ==> r == Ok(Assigns(fields, context))
    ensures FirstMissing(context, FieldTypes(fields)).Some? ==>
              r == Err(NoSuchElement(FirstMissing(context, FieldTypes(fields)).value))
  {
    var log := [];
    var i := 0;
    while i < |fields|
      invariant 0 <= i <= |fields|
      invariant Present(context, FieldTypes(fields[..i]))
      invariant log == Assigns(fields[..i], context)
    {
      var f := fields[i];
      if f.fieldType !in context {
        assert FirstMissing(context, FieldTypes(fields)) == Some(f.fieldType) by {
          var types := FieldTypes(fields);
          assert types == FieldTypes(fields[..i]) + types[i..];
          FirstMissingAppend(context, FieldTypes(fields[..i]), types[i..]);
        }
        return Err(NoSuchElement(f.fieldType));
      }
      AssignsStep(fields, i, context);
      log := log + [Assign(f, context[f.fieldType])];
      i := i + 1;
    }
    assert fields[..i] == fields;
    return Ok(log);
  }

  /** The method loop of get: each method is invoked with its resolved
      parameters, in list order; the first unresolvable parameter aborts the loop. */
  method InvokeMethods(methods: seq<MethodDecl>, context: ContextView) returns (r: Result<seq<Effect>>)
    ensures FirstMissing(context, MethodParams(methods)).None? ==> r == Ok(Invokes(methods, context))
    ensures FirstMissing(context, MethodParams(methods)).Some? ==>
              r == Err(NoSuchElement(FirstMissing(context, MethodParams(methods)).value))
  {
    var log := [];
    var j := 0;
    while j < |methods|
      invariant 0 <= j <= |methods|
      invariant Present(context, MethodParams(methods[..j]))
      invariant log == Invokes(methods[..j], context)
    {
      var m := methods[j];
      var margs := ToDependencies(context, m.params);
      if margs.Err? {
        MethodParamMissing(methods, j, context);
        return Err(margs.error);
      }
      InvokesStep(methods, j, context);
      log := log + [Invoke(m, margs.value)];
      j := j + 1;
    }
    assert methods[..j] == methods;
    return Ok(log);
  }

  /** get: construct through the selected constructor, assign the fields in list
      order, then invoke the methods in list order; the first dependency the
      context cannot supply, in getDependencies order, aborts with NoSuchElementException. */
  method Get(p: InjectProvider, context: ContextView) returns (r: Result<seq<Effect>>)
    ensures FirstMissing(context, Dependencies(p)).None? ==> r == Ok(Expected(p, context))
    ensures FirstMissing(context, Dependencies(p)).Some? ==>
              r == Err(NoSuchElement(FirstMissing(context, Dependencies(p)).value))
  {
    var ctorTypes, fieldTypes, methodTypes := p.ctor.params, FieldTypes(p.fields), MethodParams(p.methods);
    assert Dependencies(p) == ctorTypes + fieldTypes + methodTypes;
    FirstMissingAppend(context, ctorTypes + fieldTypes, methodTypes);
    FirstMissingAppend(context, ctorTypes, fieldTypes);
    var args := ToDependencies(context, ctorTypes);
    if args.Err? {
      return Err(args.error);
    }
    var assignments := AssignFields(p.fields, context);
    if assignments.Err? {
      return Err(assignments.error);
    }
    var invocations := InvokeMethods(p.methods, context);
    if invocations.Err? {
      return Err(invocations.error);
    }
    return Ok([Constructed(p.component, args.value)] + assignments.value + invocations.value);
  }
}
