/** Reachability in a directed graph given by its edge relation. */
module Graph {

  ghost predicate IsPath<N(!new)>(edge: (N, N) -> bool, p: seq<N>) {
    p != [] && forall i | 0 <= i < |p| - 1 :: edge(p[i], p[i + 1])
  }

  ghost predicate Joins<N(!new)>(edge: (N, N) -> bool, p: seq<N>, a: N, b: N) {
    IsPath(edge, p) && p[0] == a && p[|p| - 1] == b
  }

  /** A node reaches itself and whatever the edges lead to from a node it reaches. */
  ghost predicate Reachable<N(!new)>(edge: (N, N) -> bool, a: N, b: N) {
    exists p: seq<N> :: Joins(edge, p, a, b)
  }

  lemma ReachesSelf<N(!new)>(edge: (N, N) -> bool, a: N)
    ensures Reachable(edge, a, a)
  {
    assert Joins(edge, [a], a, a);
  }

  lemma ReachesOn<N(!new)>(edge: (N, N) -> bool, a: N, b: N, c: N)
    requires Reachable(edge, a, b) && edge(b, c)
    ensures Reachable(edge, a, c)
  {
    var p: seq<N> :| Joins(edge, p, a, b);
    assert Joins(edge, p + [c], a, c);
  }

  lemma ReachesVia<N(!new)>(edge: (N, N) -> bool, a: N, b: N, c: N)
    requires edge(a, b) && Reachable(edge, b, c)
    ensures Reachable(edge, a, c)
  {
    var p: seq<N> :| Joins(edge, p, b, c);
    assert Joins(edge, [a] + p, a, c);
  }

  lemma ReachesMore<N(!new)>(edge: (N, N) -> bool, more: (N, N) -> bool, a: N, b: N)
    requires Reachable(edge, a, b) && forall n, m | edge(n, m) :: more(n, m)
    ensures Reachable(more, a, b)
  {
    var p: seq<N> :| Joins(edge, p, a, b);
    assert Joins(more, p, a, b);
  }

  /** Whatever a node of a closed set reaches is in the set. */
  lemma ClosedReaches<N(!new)>(edge: (N, N) -> bool, nodes: set<N>, a: N, b: N)
    requires a in nodes && Reachable(edge, a, b)
    requires forall n, m | n in nodes && edge(n, m) :: m in nodes
    ensures b in nodes
  {
    var p: seq<N> :| Joins(edge, p, a, b);
    PathInside(edge, nodes, p, |p| - 1);
  }

  lemma {:induction false} PathInside<N(!new)>(edge: (N, N) -> bool, nodes: set<N>, p: seq<N>, k: nat)
    requires IsPath(edge, p) && p[0] in nodes && k < |p|
    requires forall n, m | n in nodes && edge(n, m) :: m in nodes
    ensures p[k] in nodes
  {
    if k > 0 {
      PathInside(edge, nodes, p, k - 1);
      assert edge(p[k - 1], p[k - 1 + 1]);
    }
  }
}
