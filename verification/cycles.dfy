/** CyclicDependenciesFound: the exception the static cycle check raises,
    holding the distinct components found on the cycle. */
module Cycles {
  import opened Common

  /** A component key: its type and its qualifier annotation, if any. */
  datatype Component = Component(componentType: TypeId, qualifier: Option<nat>)

  predicate Distinct<T(==)>(s: seq<T>) {
    forall i, j :: 0 <= i < j < |s| ==> s[i] != s[j]
  }

  /** Collapsing a list into a set never adds elements, and loses one exactly
      when the list repeats an element. */
  lemma {:induction false} SetOfSeqSize<T>(s: seq<T>)
    ensures |set x | x in s| <= |s|
    ensures |set x | x in s| == |s| <==> Distinct(s)
  {
    if s != [] {
      var tail := s[1..];
      SetOfSeqSize(tail);
      var st := set x | x in tail;
      assert (set x | x in s) == st + {s[0]};
      if s[0] in tail {
        assert !Distinct(s) by {
          var k :| 0 <= k < |tail| && tail[k] == s[0];
          assert s[0] == s[k + 1];
        }
      } else {
        assert Distinct(s) <==> Distinct(tail) by {
          if Distinct(tail) {
            forall i, j | 0 <= i < j < |s| ensures s[i] != s[j] {
              if i == 0 {
                assert s[j] == tail[j - 1];
              } else {
                assert s[i] == tail[i - 1] && s[j] == tail[j - 1];
              }
            }
          }
          if Distinct(s) {
            forall i, j | 0 <= i < j < |tail| ensures tail[i] != tail[j] {
              assert tail[i] == s[i + 1] && tail[j] == s[j + 1];
            }
          }
        }
      }
    }
  }

  class CyclicDependenciesFound {
    var components: set<Component>

    /** CyclicDependenciesFound(visiting): the components on the path, each once. */
    constructor(visiting: seq<Component>)
      ensures components == set c | c in visiting
    {
      components := set c | c in visiting;
    }

    /** getComponents: the type of each component, in the set's own order
        (`order`), so one entry per distinct component. */
    method GetComponents() returns (types: seq<TypeId>, ghost order: seq<Component>)
      ensures |types| == |components|
      ensures forall ty :: ty in types <==> exists c :: c in components && c.componentType == ty
      ensures Distinct(order) && forall c :: c in order <==> c in components
      ensures |order| == |components|
      ensures forall i :: 0 <= i < |order| ==> types[i] == order[i].componentType
    {
      var remaining := components;
      types := [];
      order := [];
      while remaining != {}
        invariant remaining <= components
        invariant Distinct(order)
        invariant forall c :: c in order <==> c in components && c !in remaining
        invariant |order| + |remaining| == |components|
        invariant |types| == |order|
        invariant forall i :: 0 <= i < |order| ==> types[i] == order[i].componentType
        decreases remaining
      {
        var c :| c in remaining;
        order := order + [c];
        types := types + [c.componentType];
        remaining := remaining - {c};
      }
      forall ty | ty in types ensures exists c :: c in components && c.componentType == ty {
        var i :| 0 <= i < |types| && types[i] == ty;
        assert order[i] in order;
      }
      forall ty | exists c :: c in components && c.componentType == ty ensures ty in types {
        var c :| c in components && c.componentType == ty;
        var i :| 0 <= i < |order| && order[i] == c;
        assert types[i] == ty;
      }
    }
  }

  /** The types a report carries are those of the components on the path. */
  method ReportedTypes(visiting: seq<Component>) returns (types: seq<TypeId>)
    ensures forall t :: t in types <==> exists c :: c in visiting && c.componentType == t
    ensures |types| <= |visiting|
    ensures |types| == |visiting| <==> Distinct(visiting)
  {
    var report := new CyclicDependenciesFound(visiting);
    ghost var order;
    types, order := report.GetComponents();
    SetOfSeqSize(visiting);
  }

  /** A two-component cycle a -> b -> a reports exactly two types, a three-component
      cycle a -> b -> c -> a exactly three. */
  method CycleReports(a: Component, b: Component, c: Component)
    returns (two: seq<TypeId>, three: seq<TypeId>)
    requires a != b && b != c && a != c
    ensures |two| == 2 && |three| == 3
    ensures forall t :: t in two <==> t == a.componentType || t == b.componentType
    ensures forall t :: t in three <==> t == a.componentType || t == b.componentType || t == c.componentType
  {
    var r2 := new CyclicDependenciesFound([a, b, a]);
    assert (set x | x in [a, b, a]) == {a, b};
    ghost var o2;
    two, o2 := r2.GetComponents();
    var r3 := new CyclicDependenciesFound([a, b, c, a]);
    assert (set x | x in [a, b, c, a]) == {a, b, c};
    ghost var o3;
    three, o3 := r3.GetComponents();
    assert |{a, b}| == 2 && |{a, b, c}| == 3;
    assert a in r2.components && b in r2.components;
    assert a in r3.components && b in r3.components && c in r3.components;
  }
}
