/** The earlier ConstructorInjectProvider: the same injection plan as InjectProvider,
    written with explicit superclass loops, without the abstract, final-field and
    generic-method checks, and matching a non-`@Inject` method of the component
    against a candidate by exact signature rather than by name suffix. */
module EarlyInjection {
  import opened Common
  import opened ClassTable
  import opened Injection

  /** The value of this version's getInjectMethods: same walk and reversal, but
      the no-inject filter compares signatures exactly. */
  function EarlyInjectMethodsOf(t: Table, component: TypeId): seq<MethodDecl>
    requires WellFormed(t) && IsClass(t, component)
  {
    Reverse(ChainFold(t, component, [], MethodStepFor(t[component].methods, SameSignature)))
  }

  /** getInjectFields: each level's `@Inject` fields appended, from the component
      up to (excluding) Object. */
  method CollectInjectFields(t: Table, component: TypeId) returns (fields: seq<FieldDecl>)
    requires WellFormed(t) && IsClass(t, component)
    ensures fields == InheritedFields(t, component)
    ensures forall f :: f in fields ==> f.inject
  {
    fields := [];
    var current := component;
    while current != OBJECT
      invariant IsClass(t, current)
      invariant fields + InheritedFields(t, current) == InheritedFields(t, component)
      decreases current
    {
      var here := Filter(t[current].fields, IsInjectField);
      var parent := t[current].parent.value;
      assert fields + here + InheritedFields(t, parent) == fields + (here + InheritedFields(t, parent));
      fields := fields + here;
      current := parent;
    }
  }

  /** getInjectMethods: the `@Inject` methods of each level that no collected
      method overrides and no non-`@Inject` method of the component redeclares,
      reversed at the end so superclass methods come first. */
  method CollectInjectMethods(t: Table, component: TypeId) returns (methods: seq<MethodDecl>)
    requires WellFormed(t) && IsClass(t, component)
    ensures methods == EarlyInjectMethodsOf(t, component)
    ensures DistinctSignatures(methods)
    ensures forall m :: m in methods ==>
      m.inject && NotOverriddenByNoInjectMethod(t[component].methods, SameSignature, m) &&
      exists a :: a in Ancestors(t, component) && m in t[a].methods
  {
    var own := t[component].methods;
    ghost var step := MethodStepFor(own, SameSignature);
    methods := [];
    var current := component;
    while current != OBJECT
      invariant IsClass(t, current)
      invariant ChainFold(t, current, methods, step) == ChainFold(t, component, [], step)
      decreases current
    {
      assert step(methods, t[current]) == KeepMethods(own, SameSignature, methods, t[current].methods);
      methods := methods + KeepMethods(own, SameSignature, methods, t[current].methods);
      current := t[current].parent.value;
    }
    InjectMethodsRunOnce(t, component, own, SameSignature, []);
    InjectMethodsSound(t, component, own, SameSignature, []);
    ReverseDistinct(methods);
    methods := Reverse(methods);
  }

  /** A selected constructor exists only on a class: interfaces declare none. */
  lemma SelectedOnlyOnClasses(t: Table, component: TypeId)
    requires WellFormed(t) && component in t && SelectConstructor(t[component]).Ok?
    ensures IsClass(t, component)
  {
    assert SelectConstructor(t[component]).value in t[component].ctors;
  }

  /** The ConstructorInjectProvider constructor: only constructor selection can
      fail; abstract classes, final fields and generic methods are accepted. */
  method Create(t: Table, component: TypeId) returns (r: Result<InjectProvider>)
    requires WellFormed(t) && component in t
    ensures r.Ok? <==> SelectConstructor(t[component]).Ok?
    ensures r.Err? ==> r.error == IllegalComponent
    ensures r.Ok? ==>
      && IsClass(t, component)
      && r.value.component == component
      && r.value.ctor == SelectConstructor(t[component]).value
      && r.value.fields == InheritedFields(t, component)
      && r.value.methods == EarlyInjectMethodsOf(t, component)
  {
    var ctor := SelectConstructor(t[component]);
    if ctor.Err? {
      return Err(IllegalComponent);
    }
    SelectedOnlyOnClasses(t, component);
    var fields := CollectInjectFields(t, component);
    var methods := CollectInjectMethods(t, component);
    return Ok(InjectProvider(component, ctor.value, fields, methods));
  }

  // ---------------------------------------------------------------------------
  // The two versions side by side
  // ---------------------------------------------------------------------------

  /** Object (0), a class Base (1) declaring `@Inject void install()`, and its
      subclass Derived (2) declaring a plain `void reinstall()`. */
  function SuffixTable(): (t: Table)
    ensures WellFormed(t) && IsClass(t, 1) && IsClass(t, 2)
  {
    map[
      OBJECT := ClassInfo(None, false, [Ctor([], false)], [], []),
      1 := ClassInfo(Some(OBJECT), false, [Ctor([], false)], [], [MethodDecl("install", [], true, false)]),
      2 := ClassInfo(Some(1), false, [Ctor([], false)], [], [MethodDecl("reinstall", [], false, false)])
    ]
  }

  /** `reinstall` ends with `install`: InjectProvider takes it for an override and
      drops the inherited `@Inject install()`, while ConstructorInjectProvider,
      comparing names exactly, still injects through it. */
  lemma NoInjectFilterVersionsDiffer()
    ensures InjectMethodsOf(SuffixTable(), 2) == []
    ensures EarlyInjectMethodsOf(SuffixTable(), 2) == [MethodDecl("install", [], true, false)]
  {
    var t := SuffixTable();
    var install := MethodDecl("install", [], true, false);
    var reinstall := MethodDecl("reinstall", [], false, false);
    var own := [reinstall];
    assert IsOverride(install, reinstall) by {
      assert "reinstall"[2..] == "install";
    }
    assert !SameSignature(install, reinstall);
    assert KeepMethods(own, IsOverride, [], own) == [];
    assert KeepMethods(own, IsOverride, [], [install]) == [];
    assert KeepMethods(own, SameSignature, [], own) == [];
    assert KeepMethods(own, SameSignature, [], [install]) == [install];
    assert ChainFold(t, 2, [], MethodStepFor(own, IsOverride)) == [];
    assert ChainFold(t, 2, [], MethodStepFor(own, SameSignature)) == [install];
  }
}
