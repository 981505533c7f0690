/** Reachability in a finite graph given as a map from vertices to successor sets.
    A successor that is not itself a key of the map is outside the graph. */
module Reachability {

  ghost function Successors<T>(g: map<T, set<T>>, xs: set<T>): set<T>
  {
    set a, b | a in xs && a in g && b in g[a] && b in g :: b
  }

  /** The vertices reached from `n` in at most `k` steps. */
  ghost function Within<T>(g: map<T, set<T>>, n: T, k: nat): set<T>
  {
    if k == 0 then (if n in g then {n} else {})
    else Within(g, n, k - 1) + Successors(g, Within(g, n, k - 1))
  }

  ghost predicate Reachable<T>(g: map<T, set<T>>, n: T, m: T)
  {
    exists k: nat :: m in Within(g, n, k)
  }

  /** Every edge of `small` is an edge of `big`. */
  ghost predicate Subgraph<T>(small: map<T, set<T>>, big: map<T, set<T>>)
  {
    forall x :: x in small ==> x in big && small[x] == big[x]
  }

  /** The vertices reached from `n`, `n` included when it is a vertex. */
  ghost function Reached<T>(g: map<T, set<T>>, n: T): set<T>
  {
    set m | m in g && Reachable(g, n, m)
  }

  ghost predicate ClosedUnder<T>(g: map<T, set<T>>, xs: set<T>)
  {
    forall a, b :: a in xs && a in g && b in g[a] && b in g ==> b in xs
  }

  lemma {:induction false} WithinPrepend<T>(small: map<T, set<T>>, big: map<T, set<T>>, n: T, d: T, k: nat)
    requires Subgraph(small, big)
    requires n in big && d in big[n]
    ensures Within(small, d, k) <= Within(big, n, k + 1)
  {
    if k == 0 {
      assert n in Within(big, n, 0);
    } else {
      WithinPrepend(small, big, n, d, k - 1);
    }
  }

  /** What a smaller graph reaches from a successor of `n`, the larger graph reaches from `n`. */
  lemma ReachedPrepend<T>(small: map<T, set<T>>, big: map<T, set<T>>, n: T, d: T)
    requires Subgraph(small, big)
    requires n in big && d in big[n]
    ensures Reached(small, d) <= Reached(big, n)
  {
    forall m | m in Reached(small, d)
      ensures m in Reached(big, n)
    {
      var k: nat :| m in Within(small, d, k);
      WithinPrepend(small, big, n, d, k);
      assert m in Within(big, n, k + 1);
    }
  }

  lemma {:induction false} ClosedContainsWithin<T>(g: map<T, set<T>>, n: T, closed: set<T>, k: nat)
    requires n in closed && ClosedUnder(g, closed)
    ensures Within(g, n, k) <= closed
  {
    if k > 0 {
      ClosedContainsWithin(g, n, closed, k - 1);
    }
  }

  lemma ReachedIsClosed<T>(g: map<T, set<T>>, n: T)
    ensures n in g ==> n in Reached(g, n)
    ensures ClosedUnder(g, Reached(g, n))
  {
    assert n in g ==> n in Within(g, n, 0);
    forall a, b | a in Reached(g, n) && b in g[a] && b in g
      ensures b in Reached(g, n)
    {
      var k: nat :| a in Within(g, n, k);
      assert b in Within(g, n, k + 1);
    }
  }

  /** The reached set is the least set that contains `n` and is closed under successors. */
  lemma ReachedIsLeast<T>(g: map<T, set<T>>, n: T, xs: set<T>)
    requires n in xs && ClosedUnder(g, xs)
    ensures Reached(g, n) <= xs
  {
    forall m | m in Reached(g, n) ensures m in xs {
      var k: nat :| m in Within(g, n, k);
      ClosedContainsWithin(g, n, xs, k);
    }
  }

  lemma {:induction false} WithinOutside<T>(g: map<T, set<T>>, n: T, k: nat)
    requires n !in g
    ensures Within(g, n, k) == {}
  {
    if k > 0 {
      WithinOutside(g, n, k - 1);
    }
  }

  lemma NothingReachedFromOutside<T>(g: map<T, set<T>>, n: T)
    requires n !in g
    ensures Reached(g, n) == {}
  {
    forall k: nat ensures Within(g, n, k) == {} {
      WithinOutside(g, n, k);
    }
  }
}
