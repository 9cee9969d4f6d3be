/** The reflective view of Java classes the container relies on, as a finite table:
    each class has a superclass link, an abstract flag and its declared
    constructors, fields and methods, each carrying the `@Inject` flag. */
module ClassTable {
  import opened Common

  /** `Object.class`, where every superclass walk stops. */
  const OBJECT: TypeId := 0

  datatype Ctor = Ctor(params: seq<TypeId>, inject: bool)

  datatype FieldDecl = FieldDecl(name: string, fieldType: TypeId, inject: bool, isFinal: bool)

  /** `generic` is true when the method declares its own type parameters. */
  datatype MethodDecl = MethodDecl(name: string, params: seq<TypeId>, inject: bool, generic: bool)

  /** `parent` is `getSuperclass()`: None for Object and for interfaces. */
  datatype ClassInfo = ClassInfo(
    parent: Option<TypeId>,
    isAbstract: bool,
    ctors: seq<Ctor>,
    fields: seq<FieldDecl>,
    methods: seq<MethodDecl>)

  type Table = map<TypeId, ClassInfo>

  /** A class (not an interface): Object, or a type with a superclass. */
  predicate IsClass(t: Table, c: TypeId) {
    c in t && (c == OBJECT || t[c].parent.Some?)
  }

  /** Two methods with the same name and parameter types. */
  predicate SameSignature(m: MethodDecl, o: MethodDecl) {
    m.name == o.name && m.params == o.params
  }

  /** No two entries share a signature. */
  predicate DistinctSignatures(ms: seq<MethodDecl>) {
    forall i, j :: 0 <= i < j < |ms| ==> !SameSignature(ms[i], ms[j])
  }

  /** What the Java language guarantees of declared classes: the superclass
      relation is acyclic (stated by ordering: a superclass has a smaller id) and
      ends in Object; interfaces are abstract and have no constructors; a class
      never declares two methods with one name and one list of parameter types.
      Synthetic bridge methods are not part of the table. */
  predicate WellFormed(t: Table) {
    && OBJECT in t
    && t[OBJECT].parent.None?
    && (forall c :: c in t && t[c].parent.Some? ==>
          t[c].parent.value < c && IsClass(t, t[c].parent.value))
    && (forall c :: c in t && !IsClass(t, c) ==> t[c].isAbstract && t[c].ctors == [])
    && (forall c :: c in t ==> DistinctSignatures(t[c].methods))
  }

  /** The component and its superclasses, most derived first, Object excluded. */
  function Ancestors(t: Table, c: TypeId): (r: seq<TypeId>)
    requires WellFormed(t) && IsClass(t, c)
    ensures forall a :: a in r ==> IsClass(t, a) && a != OBJECT
    ensures c != OBJECT ==> |r| > 0 && r[0] == c
    decreases c
  {
    if c == OBJECT then [] else [c] + Ancestors(t, t[c].parent.value)
  }

  /** The superclass walk of `traverse`: from `current` up to Object, append to
      `collected` what `step` yields for each class, given everything collected so far. */
  function ChainFold<T>(t: Table, current: TypeId, collected: seq<T>,
                        step: (seq<T>, ClassInfo) -> seq<T>): seq<T>
    requires WellFormed(t) && IsClass(t, current)
    decreases current
  {
    if current == OBJECT then collected
    else ChainFold(t, t[current].parent.value, collected + step(collected, t[current]), step)
  }

  /** The walk only ever appends: what was collected before is a prefix of the result. */
  lemma {:induction false} ChainFoldExtends<T>(t: Table, current: TypeId, collected: seq<T>,
                                               step: (seq<T>, ClassInfo) -> seq<T>)
    requires WellFormed(t) && IsClass(t, current)
    ensures |ChainFold(t, current, collected, step)| >= |collected|
    ensures ChainFold(t, current, collected, step)[..|collected|] == collected
    decreases current
  {
    if current != OBJECT {
      var next := collected + step(collected, t[current]);
      ChainFoldExtends(t, t[current].parent.value, next, step);
      assert next[..|collected|] == collected;
    }
  }
}
