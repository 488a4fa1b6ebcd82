/** Directed graphs given by adjacency lists over vertices 0..n-1, and reachability in them.
    Call graphs, control-flow graphs and condensations are all viewed through this module. */
module Graphs {

  type Graph = seq<seq<nat>>

  predicate WellFormed(g: Graph) {
    forall u: nat, v: nat :: u < |g| && v in g[u] ==> v < |g|
  }

  predicate Edge(g: Graph, u: nat, v: nat) {
    u < |g| && v in g[u]
  }

  ghost predicate StepAt(g: Graph, p: seq<nat>, i: nat) {
    i + 1 < |p| && Edge(g, p[i], p[i + 1])
  }

  ghost predicate IsPath(g: Graph, p: seq<nat>) {
    |p| > 0 && forall i: nat :: i < |p| - 1 ==> StepAt(g, p, i)
  }

  /** v can be reached from u along zero or more edges. */
  ghost predicate Reach(g: Graph, u: nat, v: nat) {
    exists p :: IsPath(g, p) && p[0] == u && p[|p| - 1] == v
  }

  ghost predicate Mutual(g: Graph, u: nat, v: nat) {
    Reach(g, u, v) && Reach(g, v, u)
  }

  /** No edge can be closed to a cycle. */
  ghost predicate Acyclic(g: Graph) {
    forall u: nat, v: nat :: Edge(g, u, v) ==> !Reach(g, v, u)
  }

  ghost predicate ClosedUnder(g: Graph, s: set<nat>) {
    forall u: nat, v: nat :: u in s && Edge(g, u, v) ==> v in s
  }

  lemma ReachSelf(g: Graph, u: nat)
    ensures Reach(g, u, u)
  {
    assert IsPath(g, [u]) && [u][0] == u;
  }

  lemma ReachEdge(g: Graph, u: nat, v: nat)
    requires Edge(g, u, v)
    ensures Reach(g, u, v)
  {
    assert StepAt(g, [u, v], 0);
    assert IsPath(g, [u, v]) && [u, v][0] == u;
  }

  lemma ReachTrans(g: Graph, u: nat, v: nat, w: nat)
    requires Reach(g, u, v) && Reach(g, v, w)
    ensures Reach(g, u, w)
  {
    var p :| IsPath(g, p) && p[0] == u && p[|p| - 1] == v;
    var q :| IsPath(g, q) && q[0] == v && q[|q| - 1] == w;
    var r := p + q[1..];
    forall i: nat | i < |r| - 1
      ensures StepAt(g, r, i)
    {
      if i < |p| - 1 {
        assert StepAt(g, p, i);
      } else {
        assert StepAt(g, q, i - |p| + 1);
      }
    }
    assert IsPath(g, r) && r[0] == u && r[|r| - 1] == w;
  }

  /** A set closed under the edges cannot be left. */
  lemma ReachClosed(g: Graph, s: set<nat>, u: nat, v: nat)
    requires ClosedUnder(g, s) && u in s && Reach(g, u, v)
    ensures v in s
  {
    var p :| IsPath(g, p) && p[0] == u && p[|p| - 1] == v;
    for i := 0 to |p| - 1
      invariant p[i] in s
    {
      assert StepAt(g, p, i);
    }
  }

  ghost function ReachSet(g: Graph, u: nat): set<nat> {
    set v: nat | v < |g| && Reach(g, u, v)
  }

  /** In an acyclic graph the number of reachable vertices is a rank that falls along every edge. */
  lemma AcyclicRank(g: Graph, u: nat, v: nat)
    requires WellFormed(g) && Acyclic(g) && Edge(g, u, v)
    ensures |ReachSet(g, v)| < |ReachSet(g, u)|
  {
    forall w | w in ReachSet(g, v)
      ensures w in ReachSet(g, u) - {u}
    {
      ReachEdge(g, u, v);
      ReachTrans(g, u, v, w);
    }
    ReachSelf(g, u);
    SubsetSize(ReachSet(g, v), ReachSet(g, u) - {u});
  }

  lemma SubsetSize<T>(a: set<T>, b: set<T>)
    requires a <= b
    ensures |a| <= |b|
  {
    assert b == a + (b - a);
  }

  function Range(n: nat): set<nat> {
    if n == 0 then {} else Range(n - 1) + {n - 1}
  }

  lemma RangeSize(n: nat)
    ensures forall v: nat :: v in Range(n) <==> v < n
    ensures |Range(n)| == n
  {
  }
}
