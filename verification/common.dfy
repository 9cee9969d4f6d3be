/** Values, errors and sequence helpers shared by every part of the container model. */
module Common {

  /** A Java `Class<?>` used as a binding key or a dependency: an opaque type id. */
  type TypeId = nat

  datatype Option<T> = None | Some(value: T)

  /** The container's exceptions, as values. */
  datatype Error =
    | IllegalComponent
      /** DependencyNotFoundException(dependency, component) */
    | DependencyNotFound(dependency: TypeId, component: TypeId)
      /** the argument-less DependencyNotFoundException thrown by the earliest Context */
    | DependencyMissing
      /** CyclicDependenciesFound, carrying the components it was wrapped with, innermost last */
    | CyclicDependencies(path: seq<TypeId>)
      /** NoSuchElementException from Optional.get() on an empty lookup of the given type */
    | NoSuchElement(missing: TypeId)
      /** StackOverflowError from unbounded recursive resolution */
    | StackOverflow

  datatype Result<T> = Ok(value: T) | Err(error: Error)

  datatype Outcome = Pass | Fail(error: Error)

  /** Objects handed around by the container: `null`, an instance supplied by the
      user, or an instance created by invoking a constructor of class `cls` on `args`. */
  datatype Value = Null | Obj(id: nat) | New(cls: TypeId, args: seq<Value>)

  /** Collections.reverse */
  function Reverse<T>(s: seq<T>): (r: seq<T>)
    ensures |r| == |s|
    ensures forall i :: 0 <= i < |s| ==> r[i] == s[|s| - 1 - i]
  {
    if s == [] then [] else Reverse(s[1..]) + [s[0]]
  }

  lemma ReverseAppend<T>(a: seq<T>, b: seq<T>)
    ensures Reverse(a + b) == Reverse(b) + Reverse(a)
  {
    var r, l := Reverse(a + b), Reverse(b) + Reverse(a);
    assert |r| == |l|;
    forall i | 0 <= i < |r| ensures r[i] == l[i] {
      if i < |b| {
        assert l[i] == Reverse(b)[i];
      } else {
        assert l[i] == Reverse(a)[i - |b|];
      }
    }
  }

  /** A sequence is its prefix followed by the matching suffix. */
  lemma SliceSplit<T>(s: seq<T>, k: int)
    requires 0 <= k <= |s|
    ensures s[..k] + s[k..] == s
  {
  }

  /** Reversing moves a prefix to the end, itself reversed. */
  lemma ReversePrefix<T>(s: seq<T>, p: seq<T>)
    requires |p| <= |s| && s[..|p|] == p
    ensures Reverse(s)[|s| - |p|..] == Reverse(p)
  {
    var r := Reverse(s)[|s| - |p|..];
    forall i | 0 <= i < |p| ensures r[i] == Reverse(p)[i] {
      assert r[i] == s[|p| - 1 - i];
    }
  }

  /** Stream.filter(keep).toList() */
  function Filter<T(!new)>(s: seq<T>, keep: T -> bool): (r: seq<T>)
    ensures |r| <= |s|
    ensures forall x :: x in r <==> x in s && keep(x)
  {
    if s == [] then []
    else (if keep(s[0]) then [s[0]] else []) + Filter(s[1..], keep)
  }

  /** String.endsWith */
  predicate EndsWith(s: string, suffix: string) {
    |suffix| <= |s| && s[|s| - |suffix|..] == suffix
  }
}
