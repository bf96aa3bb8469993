/** Reachability along any relation. */
module Graph {
  ghost predicate IsPath<T(!new)>(edge: (T, T) -> bool, p: seq<T>) {
    p != [] && forall i :: 0 <= i && i + 1 < |p| ==> edge(p[i], p[i + 1])
  }

  ghost predicate Joins<T(!new)>(edge: (T, T) -> bool, p: seq<T>, a: T, b: T) {
    IsPath(edge, p) && p[0] == a && p[|p| - 1] == b
  }

  ghost predicate Reachable<T(!new)>(edge: (T, T) -> bool, a: T, b: T) {
    exists p :: Joins(edge, p, a, b)
  }

  lemma ReachSelf<T(!new)>(edge: (T, T) -> bool, a: T)
    ensures Reachable(edge, a, a)
  {
    assert Joins(edge, [a], a, a);
  }

  lemma ReachBefore<T(!new)>(edge: (T, T) -> bool, a: T, b: T, c: T)
    requires edge(a, b) && Reachable(edge, b, c)
    ensures Reachable(edge, a, c)
  {
    var p :| Joins(edge, p, b, c);
    assert Joins(edge, [a] + p, a, c);
  }

  lemma ReachAfter<T(!new)>(edge: (T, T) -> bool, a: T, b: T, c: T)
    requires Reachable(edge, a, b) && edge(b, c)
    ensures Reachable(edge, a, c)
  {
    var p :| Joins(edge, p, a, b);
    assert Joins(edge, p + [c], a, c);
  }

  /** A set closed under the relation holds everything reachable from its members. */
  lemma ReachWithin<T(!new)>(edge: (T, T) -> bool, within: set<T>, a: T, b: T)
    requires a in within && Reachable(edge, a, b)
    requires forall x, y :: x in within && edge(x, y) ==> y in within
    ensures b in within
  {
    var p :| Joins(edge, p, a, b);
    var i := 0;
    while i < |p| - 1
      invariant 0 <= i < |p| && p[i] in within
    {
      assert edge(p[i], p[i + 1]);
      i := i + 1;
    }
  }
}
