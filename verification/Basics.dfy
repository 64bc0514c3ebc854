/** Option, for the nil results of the sources, and lists that stand for collections. */
module Basics {
  datatype Option<+T> = None | Some(value: T)

  predicate NoDuplicates<T(==)>(s: seq<T>) {
    forall i, j | 0 <= i < j < |s| :: s[i] != s[j]
  }

  /** `order` lists the elements of `s`, each once, as iterating over a collection does. */
  predicate Enumerates<T(==)>(order: seq<T>, s: set<T>) {
    (set x | x in order) == s && NoDuplicates(order)
  }

  lemma EnumerationMembers<T>(order: seq<T>, s: set<T>)
    requires Enumerates(order, s)
    ensures forall x :: x in order <==> x in s
    ensures order == [] <==> s == {}
  {
    forall x
      ensures x in order <==> x in s
    {
      assert x in order <==> x in set y | y in order;
    }
    if order != [] {
      assert order[0] in order;
    }
  }

  lemma EnumerateOneMore<T>(order: seq<T>, s: set<T>, x: T)
    requires Enumerates(order, s) && x !in s
    ensures Enumerates(order + [x], s + {x})
  {
    EnumerationMembers(order, s);
    assert forall y :: y in order + [x] <==> y in order || y == x;
    assert (set y | y in order + [x]) == (set y | y in order) + {x};
  }
}
