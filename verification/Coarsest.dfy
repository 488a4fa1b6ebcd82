/** Which vertices minimisation merges, on every graph, and when that is the coarsest possible result. */
module Coarsest {
  import opened UnionFinds
  import opened LabelledGraphs
  import opened Minimizer
  import Graphs

  /** u and v look alike to depth n. Where the depth ends, either only equal vertices still count as alike, or,
      when cut off, all vertices do. */
  predicate Alike(g: AdjacencyList, n: nat, cutOff: bool, u: Vertex, v: Vertex)
    requires g.Valid() && u < g.Size() && v < g.Size()
    decreases n, 1
  {
    u == v || (if n == 0 then cutOff else
                 g.nodes[u] == g.nodes[v] && |g.adj[u]| == |g.adj[v]| &&
                 (AlikeInOrder(g, n - 1, cutOff, u, v) || AlikeCrosswise(g, n - 1, cutOff, u, v)))
  }

  predicate AlikeEdges(g: AdjacencyList, n: nat, cutOff: bool, e: Edge, f: Edge)
    requires g.Valid() && e.target < g.Size() && f.target < g.Size()
    decreases n, 2
  {
    e.weight == f.weight && Alike(g, n, cutOff, e.target, f.target)
  }

  predicate AlikeInOrder(g: AdjacencyList, n: nat, cutOff: bool, u: Vertex, v: Vertex)
    requires g.Valid() && u < g.Size() && v < g.Size() && |g.adj[u]| == |g.adj[v]|
    decreases n, 3
  {
    forall i: nat :: i < |g.adj[u]| ==> AlikeEdges(g, n, cutOff, g.adj[u][i], g.adj[v][i])
  }

  predicate AlikeCrosswise(g: AdjacencyList, n: nat, cutOff: bool, u: Vertex, v: Vertex)
    requires g.Valid() && u < g.Size() && v < g.Size() && |g.adj[u]| == |g.adj[v]|
    decreases n, 3
  {
    |g.adj[u]| == 2 && AlikeEdges(g, n, cutOff, g.adj[u][0], g.adj[v][1]) && AlikeEdges(g, n, cutOff, g.adj[u][1], g.adj[v][0])
  }

  /** Looking ever deeper, one finds nothing but equal vertices after finitely many edges. */
  ghost predicate AlikeFinitely(g: AdjacencyList, u: Vertex, v: Vertex)
    requires g.Valid() && u < g.Size() && v < g.Size()
  {
    exists n: nat :: Alike(g, n, false, u, v)
  }

  /** However deep one looks, no difference shows. */
  ghost predicate AlikeForever(g: AdjacencyList, u: Vertex, v: Vertex)
    requires g.Valid() && u < g.Size() && v < g.Size()
  {
    forall n: nat :: Alike(g, n, true, u, v)
  }

  lemma {:induction false} AlikeSymmetric(g: AdjacencyList, n: nat, cutOff: bool, u: Vertex, v: Vertex)
    requires g.Valid() && u < g.Size() && v < g.Size() && Alike(g, n, cutOff, u, v)
    ensures Alike(g, n, cutOff, v, u)
    decreases n
  {
    if u != v && n > 0 {
      forall i: nat, j: nat | i < |g.adj[u]| && j < |g.adj[v]| && AlikeEdges(g, n - 1, cutOff, g.adj[u][i], g.adj[v][j])
        ensures AlikeEdges(g, n - 1, cutOff, g.adj[v][j], g.adj[u][i])
      {
        AlikeSymmetric(g, n - 1, cutOff, g.adj[u][i].target, g.adj[v][j].target);
      }
      assert AlikeInOrder(g, n - 1, cutOff, u, v) ==> AlikeInOrder(g, n - 1, cutOff, v, u);
      assert AlikeCrosswise(g, n - 1, cutOff, u, v) ==> AlikeCrosswise(g, n - 1, cutOff, v, u);
    }
  }

  lemma {:induction false} AlikeTransitive(g: AdjacencyList, n: nat, cutOff: bool, u: Vertex, v: Vertex, w: Vertex)
    requires g.Valid() && u < g.Size() && v < g.Size() && w < g.Size()
    requires Alike(g, n, cutOff, u, v) && Alike(g, n, cutOff, v, w)
    ensures Alike(g, n, cutOff, u, w)
    decreases n, 0
  {
    hide AlikeEdges;
    if u != v && v != w && n > 0 {
      var a, b, c := g.adj[u], g.adj[v], g.adj[w];
      if AlikeInOrder(g, n - 1, cutOff, u, v) && AlikeInOrder(g, n - 1, cutOff, v, w) {
        forall i: nat | i < |a|
          ensures AlikeEdges(g, n - 1, cutOff, a[i], c[i])
        {
          EdgesTransitive(g, n - 1, cutOff, a[i], b[i], c[i]);
        }
        assert AlikeInOrder(g, n - 1, cutOff, u, w);
      } else if AlikeInOrder(g, n - 1, cutOff, u, v) {
        EdgesTransitive(g, n - 1, cutOff, a[0], b[0], c[1]);
        EdgesTransitive(g, n - 1, cutOff, a[1], b[1], c[0]);
      } else if AlikeInOrder(g, n - 1, cutOff, v, w) {
        EdgesTransitive(g, n - 1, cutOff, a[0], b[1], c[1]);
        EdgesTransitive(g, n - 1, cutOff, a[1], b[0], c[0]);
      } else {
        EdgesTransitive(g, n - 1, cutOff, a[0], b[1], c[0]);
        EdgesTransitive(g, n - 1, cutOff, a[1], b[0], c[1]);
        assert AlikeInOrder(g, n - 1, cutOff, u, w);
      }
    }
  }

  lemma {:induction false} EdgesTransitive(g: AdjacencyList, n: nat, cutOff: bool, e: Edge, f: Edge, h: Edge)
    requires g.Valid() && e.target < g.Size() && f.target < g.Size() && h.target < g.Size()
    requires AlikeEdges(g, n, cutOff, e, f) && AlikeEdges(g, n, cutOff, f, h)
    ensures AlikeEdges(g, n, cutOff, e, h)
    decreases n, 1
  {
    AlikeTransitive(g, n, cutOff, e.target, f.target, h.target);
  }

  /** Looking deeper finds more finite matches, and more differences. */
  lemma {:induction false} AlikeDeeper(g: AdjacencyList, n: nat, m: nat, u: Vertex, v: Vertex)
    requires g.Valid() && u < g.Size() && v < g.Size() && n <= m
    ensures Alike(g, n, false, u, v) ==> Alike(g, m, false, u, v)
    ensures Alike(g, m, true, u, v) ==> Alike(g, n, true, u, v)
    decreases n
  {
    if u != v && n > 0 {
      forall i: nat, j: nat | i < |g.adj[u]| && j < |g.adj[v]|
        ensures AlikeEdges(g, n - 1, false, g.adj[u][i], g.adj[v][j]) ==> AlikeEdges(g, m - 1, false, g.adj[u][i], g.adj[v][j])
        ensures AlikeEdges(g, m - 1, true, g.adj[u][i], g.adj[v][j]) ==> AlikeEdges(g, n - 1, true, g.adj[u][i], g.adj[v][j])
      {
        AlikeDeeper(g, n - 1, m - 1, g.adj[u][i].target, g.adj[v][j].target);
      }
      if |g.adj[u]| == |g.adj[v]| {
        assert AlikeInOrder(g, n - 1, false, u, v) ==> AlikeInOrder(g, m - 1, false, u, v);
        assert AlikeInOrder(g, m - 1, true, u, v) ==> AlikeInOrder(g, n - 1, true, u, v);
        assert AlikeCrosswise(g, n - 1, false, u, v) ==> AlikeCrosswise(g, m - 1, false, u, v);
        assert AlikeCrosswise(g, m - 1, true, u, v) ==> AlikeCrosswise(g, n - 1, true, u, v);
      }
    }
  }

  /** The depth from which on looking deeper changes nothing. */
  function Depth(g: AdjacencyList): nat {
    g.Size() * g.Size()
  }

  /** Depths n and n + 1 agree on all vertices. */
  ghost predicate Settled(g: AdjacencyList, cutOff: bool, n: nat)
    requires g.Valid()
  {
    forall u: nat, v: nat {:trigger Alike(g, n, cutOff, u, v)} :: u < g.Size() && v < g.Size() ==>
      (Alike(g, n, cutOff, u, v) <==> Alike(g, n + 1, cutOff, u, v))
  }

  lemma StaysSettled(g: AdjacencyList, cutOff: bool, n: nat)
    requires g.Valid() && Settled(g, cutOff, n)
    ensures Settled(g, cutOff, n + 1)
  {
    forall u: nat, v: nat {:trigger Alike(g, n + 1, cutOff, u, v)} | u < g.Size() && v < g.Size()
      ensures Alike(g, n + 1, cutOff, u, v) <==> Alike(g, n + 2, cutOff, u, v)
    {
      forall i: nat, j: nat | i < |g.adj[u]| && j < |g.adj[v]|
        ensures AlikeEdges(g, n, cutOff, g.adj[u][i], g.adj[v][j]) <==> AlikeEdges(g, n + 1, cutOff, g.adj[u][i], g.adj[v][j])
      {
      }
      if g.nodes[u] == g.nodes[v] && |g.adj[u]| == |g.adj[v]| {
        assert AlikeInOrder(g, n, cutOff, u, v) <==> AlikeInOrder(g, n + 1, cutOff, u, v);
        assert AlikeCrosswise(g, n, cutOff, u, v) <==> AlikeCrosswise(g, n + 1, cutOff, u, v);
      }
    }
  }

  lemma {:induction false} SettledForever(g: AdjacencyList, cutOff: bool, n: nat, m: nat, u: Vertex, v: Vertex)
    requires g.Valid() && Settled(g, cutOff, n) && n <= m && u < g.Size() && v < g.Size()
    ensures Alike(g, m, cutOff, u, v) <==> Alike(g, n, cutOff, u, v)
    decreases m - n
  {
    if n < m {
      assert Alike(g, n, cutOff, u, v) <==> Alike(g, n + 1, cutOff, u, v);
      StaysSettled(g, cutOff, n);
      SettledForever(g, cutOff, n + 1, m, u, v);
    }
  }

  /** The pairs of vertices that depth n has decided: those that match, or, when cut off, those that differ. */
  ghost function DecidedPairs(g: AdjacencyList, cutOff: bool, n: nat): set<(Vertex, Vertex)>
    requires g.Valid()
  {
    set u: nat, v: nat | u < g.Size() && v < g.Size() && Decides(g, cutOff, n, u, v) :: (u, v)
  }

  ghost predicate Decides(g: AdjacencyList, cutOff: bool, n: nat, u: Vertex, v: Vertex)
    requires g.Valid() && u < g.Size() && v < g.Size()
  {
    Alike(g, n, cutOff, u, v) != cutOff
  }

  ghost function Row(u: Vertex, n: nat): (r: set<(Vertex, Vertex)>)
    ensures |r| == n && forall v: nat :: (u, v) in r <==> v < n
    ensures forall p :: p in r ==> p.0 == u
  {
    if n == 0 then {} else Row(u, n - 1) + {(u, n - 1)}
  }

  ghost function Rows(m: nat, n: nat): (r: set<(Vertex, Vertex)>)
    ensures |r| == m * n && forall u: nat, v: nat :: (u, v) in r <==> u < m && v < n
  {
    if m == 0 then {} else
      assert Rows(m - 1, n) !! Row(m - 1, n);
      Rows(m - 1, n) + Row(m - 1, n)
  }

  /** Until it has settled, every depth decides another pair. */
  lemma DecidesMore(g: AdjacencyList, cutOff: bool, n: nat)
    requires g.Valid() && !Settled(g, cutOff, n)
    ensures |DecidedPairs(g, cutOff, n)| < |DecidedPairs(g, cutOff, n + 1)|
  {
    hide Alike;
    var u: nat, v: nat :| u < g.Size() && v < g.Size() && Alike(g, n, cutOff, u, v) != Alike(g, n + 1, cutOff, u, v);
    var few, more := DecidedPairs(g, cutOff, n), DecidedPairs(g, cutOff, n + 1);
    forall p | p in few
      ensures p in more
    {
      AlikeDeeper(g, n, n + 1, p.0, p.1);
      assert Decides(g, cutOff, n, p.0, p.1) && Decides(g, cutOff, n + 1, p.0, p.1);
    }
    AlikeDeeper(g, n, n + 1, u, v);
    assert Decides(g, cutOff, n + 1, u, v) && !Decides(g, cutOff, n, u, v);
    Graphs.SubsetSize(few, more - {(u, v)});
  }

  lemma DecidedAreFew(g: AdjacencyList, cutOff: bool, n: nat)
    requires g.Valid()
    ensures |DecidedPairs(g, cutOff, n)| <= Depth(g)
  {
    Graphs.SubsetSize(DecidedPairs(g, cutOff, n), Rows(g.Size(), g.Size()));
  }

  /** No graph settles later than at its depth. */
  lemma SettlesInTime(g: AdjacencyList, cutOff: bool)
    requires g.Valid()
    ensures Settled(g, cutOff, Depth(g))
  {
    var n: nat := 0;
    DecidedAreFew(g, cutOff, n);
    while !Settled(g, cutOff, n)
      invariant n <= |DecidedPairs(g, cutOff, n)| <= Depth(g)
      decreases Depth(g) - n
    {
      DecidesMore(g, cutOff, n);
      DecidedAreFew(g, cutOff, n + 1);
      n := n + 1;
    }
    forall u: nat, v: nat | u < g.Size() && v < g.Size()
      ensures Alike(g, Depth(g), cutOff, u, v) <==> Alike(g, Depth(g) + 1, cutOff, u, v)
    {
      SettledForever(g, cutOff, n, Depth(g), u, v);
      SettledForever(g, cutOff, n, Depth(g) + 1, u, v);
    }
  }

  /** Alike at the depth that decides. */
  predicate AlikeAtLast(g: AdjacencyList, cutOff: bool, u: Vertex, v: Vertex)
    requires g.Valid() && u < g.Size() && v < g.Size()
  {
    Alike(g, Depth(g), cutOff, u, v)
  }

  /** All depths at once come down to a single one. */
  lemma DepthSuffices(g: AdjacencyList, u: Vertex, v: Vertex)
    requires g.Valid() && u < g.Size() && v < g.Size()
    ensures AlikeAtLast(g, false, u, v) <==> AlikeFinitely(g, u, v)
    ensures AlikeAtLast(g, true, u, v) <==> AlikeForever(g, u, v)
  {
    var d := Depth(g);
    if n: nat :| Alike(g, n, false, u, v) {
      AlikeDeeper(g, n, d + n, u, v);
      SettlesInTime(g, false);
      SettledForever(g, false, d, d + n, u, v);
    }
    if AlikeAtLast(g, true, u, v) {
      forall n: nat
        ensures Alike(g, n, true, u, v)
      {
        SettlesInTime(g, true);
        SettledForever(g, true, d, d + n, u, v);
        AlikeDeeper(g, n, d + n, u, v);
      }
    }
  }

  /** Vertices are alike in the end if their edges are, and only then. */
  lemma AlikeByEdges(g: AdjacencyList, cutOff: bool, u: Vertex, v: Vertex)
    requires g.Valid() && u < g.Size() && v < g.Size()
    ensures AlikeAtLast(g, cutOff, u, v) <==>
            u == v || (g.nodes[u] == g.nodes[v] && |g.adj[u]| == |g.adj[v]| &&
                       (AlikeInOrder(g, Depth(g), cutOff, u, v) || AlikeCrosswise(g, Depth(g), cutOff, u, v)))
  {
    SettlesInTime(g, cutOff);
    assert Alike(g, Depth(g), cutOff, u, v) <==> Alike(g, Depth(g) + 1, cutOff, u, v);
  }

  /** r labels the first vertices by whether they are alike. */
  ghost predicate LabelsBy(g: AdjacencyList, cutOff: bool, r: seq<nat>)
    requires g.Valid() && |r| <= g.Size()
  {
    forall u: nat, v: nat :: u < |r| && v < |r| ==> (r[u] == r[v] <==> AlikeAtLast(g, cutOff, u, v))
  }

  /** Labels below the number of vertices labelled, one for each class. */
  lemma {:induction false} SomeLabels(g: AdjacencyList, cutOff: bool, n: nat) returns (r: seq<nat>)
    requires g.Valid() && n <= g.Size()
    ensures |r| == n && LabelsBy(g, cutOff, r) && forall u: nat :: u < n ==> r[u] < n
  {
    if n == 0 {
      r := [];
    } else {
      var init := SomeLabels(g, cutOff, n - 1);
      var x := n - 1;
      if w: nat :| w < x && AlikeAtLast(g, cutOff, w, x) {
        r := init + [init[w]];
        forall u: nat | u < x
          ensures init[u] == init[w] <==> AlikeAtLast(g, cutOff, u, x)
          ensures init[u] == init[w] <==> AlikeAtLast(g, cutOff, x, u)
        {
          LabelsAgree(g, cutOff, u, w, x);
        }
      } else {
        r := init + [x];
        forall u: nat | u < x
          ensures !AlikeAtLast(g, cutOff, u, x) && !AlikeAtLast(g, cutOff, x, u)
        {
          if AlikeAtLast(g, cutOff, x, u) {
            AlikeSymmetric(g, Depth(g), cutOff, x, u);
          }
        }
      }
    }
  }

  lemma LabelsAgree(g: AdjacencyList, cutOff: bool, u: Vertex, w: Vertex, x: Vertex)
    requires g.Valid() && u < g.Size() && w < g.Size() && x < g.Size() && AlikeAtLast(g, cutOff, w, x)
    ensures AlikeAtLast(g, cutOff, u, w) <==> AlikeAtLast(g, cutOff, u, x)
    ensures AlikeAtLast(g, cutOff, u, w) <==> AlikeAtLast(g, cutOff, x, u)
  {
    hide Alike;
    var d := Depth(g);
    AlikeSymmetric(g, d, cutOff, w, x);
    if AlikeAtLast(g, cutOff, u, w) {
      AlikeTransitive(g, d, cutOff, u, w, x);
      AlikeSymmetric(g, d, cutOff, u, x);
    }
    if AlikeAtLast(g, cutOff, x, u) {
      AlikeSymmetric(g, d, cutOff, x, u);
    }
    if AlikeAtLast(g, cutOff, u, x) {
      AlikeTransitive(g, d, cutOff, u, x, w);
    }
  }

  /** Labels by likeness match exactly what is alike by its edges. */
  lemma LabelsMatch(g: AdjacencyList, cutOff: bool, r: seq<nat>, u: Vertex, v: Vertex)
    requires g.Valid() && |r| == g.Size() && LabelsBy(g, cutOff, r) && u < |r| && v < |r|
    ensures Matches(g, r, u, v) <==> r[u] == r[v]
  {
    if u == v {
      MatchesReflexive(g, r, u);
    } else {
      forall i: nat, j: nat | i < |g.adj[u]| && j < |g.adj[v]|
        ensures SameEdge(r, g.adj[u][i], g.adj[v][j]) <==> AlikeEdges(g, Depth(g), cutOff, g.adj[u][i], g.adj[v][j])
      {
        assert AlikeAtLast(g, cutOff, g.adj[u][i].target, g.adj[v][j].target) <==> r[g.adj[u][i].target] == r[g.adj[v][j].target];
      }
      AlikeByEdges(g, cutOff, u, v);
      hide Alike, AlikeEdges, LabelsBy, SameEdge;
      if |g.adj[u]| == |g.adj[v]| {
        assert AlikeInOrder(g, Depth(g), cutOff, u, v) <==> InOrder(g, r, u, v);
        assert AlikeCrosswise(g, Depth(g), cutOff, u, v) <==> Crosswise(g, r, u, v);
      }
    }
  }

  lemma {:induction false} FiniteMatchesMerge(g: AdjacencyList, q: seq<nat>, n: nat, u: Vertex, v: Vertex)
    requires g.Valid() && Closed(g, q) && u < |q| && v < |q| && Alike(g, n, false, u, v)
    ensures q[u] == q[v]
    decreases n
  {
    if u != v {
      forall i: nat, j: nat | i < |g.adj[u]| && j < |g.adj[v]| && AlikeEdges(g, n - 1, false, g.adj[u][i], g.adj[v][j])
        ensures SameEdge(q, g.adj[u][i], g.adj[v][j])
      {
        FiniteMatchesMerge(g, q, n - 1, g.adj[u][i].target, g.adj[v][j].target);
      }
      if AlikeInOrder(g, n - 1, false, u, v) {
        forall i: nat | i < |g.adj[u]|
          ensures SameEdge(q, g.adj[u][i], g.adj[v][i])
        {
          assert AlikeEdges(g, n - 1, false, g.adj[u][i], g.adj[v][i]);
        }
        assert InOrder(g, q, u, v);
      }
      assert Matches(g, q, u, v);
    }
  }

  /** On every graph, cyclic or not: the classes are the vertices that match after finitely many edges, and no more
      than a depth that the size of the graph determines has to be looked at. */
  lemma MergedExactly(g: AdjacencyList, q: seq<nat>, u: Vertex, v: Vertex)
    requires g.Valid() && IsMinimization(g, q) && u < g.Size() && v < g.Size()
    ensures q[u] == q[v] <==> Alike(g, Depth(g), false, u, v)
    ensures q[u] == q[v] <==> AlikeFinitely(g, u, v)
  {
    DepthSuffices(g, u, v);
    if AlikeAtLast(g, false, u, v) {
      FiniteMatchesMerge(g, q, Depth(g), u, v);
    }
    if q[u] == q[v] {
      var r := SomeLabels(g, false, g.Size());
      assert Closed(g, r) by {
        forall x: nat, y: nat | x < |r| && y < |r| && Matches(g, r, x, y)
          ensures r[x] == r[y]
        {
          LabelsMatch(g, false, r, x, y);
        }
      }
      assert Refines(q, r) && Same(q, u, v);
      assert AlikeAtLast(g, false, u, v);
    }
  }

  lemma {:induction false} BisimilarForever(g: AdjacencyList, r: seq<nat>, n: nat, u: Vertex, v: Vertex)
    requires g.Valid() && Bisimulation(g, r) && u < |r| && v < |r| && r[u] == r[v]
    ensures Alike(g, n, true, u, v)
    decreases n
  {
    if n > 0 {
      assert Matches(g, r, u, v);
      forall i: nat, j: nat | i < |g.adj[u]| && j < |g.adj[v]| && SameEdge(r, g.adj[u][i], g.adj[v][j])
        ensures AlikeEdges(g, n - 1, true, g.adj[u][i], g.adj[v][j])
      {
        BisimilarForever(g, r, n - 1, g.adj[u][i].target, g.adj[v][j].target);
      }
      if InOrder(g, r, u, v) {
        forall i: nat | i < |g.adj[u]|
          ensures AlikeEdges(g, n - 1, true, g.adj[u][i], g.adj[v][i])
        {
          assert SameEdge(r, g.adj[u][i], g.adj[v][i]);
        }
      }
    }
  }

  /** On every graph there is a coarsest bisimulation: the vertices between which no depth shows a difference, and
      again a depth that the size of the graph determines is enough. */
  lemma BisimilarExactly(g: AdjacencyList, u: Vertex, v: Vertex)
    requires g.Valid() && u < g.Size() && v < g.Size()
    ensures (exists r :: Bisimulation(g, r) && Same(r, u, v)) <==> Alike(g, Depth(g), true, u, v)
    ensures (exists r :: Bisimulation(g, r) && Same(r, u, v)) <==> AlikeForever(g, u, v)
  {
    DepthSuffices(g, u, v);
    if r :| Bisimulation(g, r) && Same(r, u, v) {
      BisimilarForever(g, r, Depth(g), u, v);
    }
    if AlikeAtLast(g, true, u, v) {
      var r := SomeLabels(g, true, g.Size());
      assert Bisimulation(g, r) by {
        forall x: nat, y: nat | x < |r| && y < |r| && r[x] == r[y]
          ensures Matches(g, r, x, y)
        {
          LabelsMatch(g, true, r, x, y);
        }
      }
      assert Same(r, u, v);
    }
  }

  /** No two vertices are alike down to the depth of the graph only because the search is cut off there. */
  predicate CutOffIsHarmless(g: AdjacencyList)
    requires g.Valid()
  {
    forall u: nat, v: nat :: u < g.Size() && v < g.Size() && Alike(g, Depth(g), true, u, v) ==> Alike(g, Depth(g), false, u, v)
  }

  /** The result is the coarsest bisimulation under exactly this condition, which can be computed beforehand. */
  lemma CoarsestExactly(g: AdjacencyList, q: seq<nat>)
    requires g.Valid() && IsMinimization(g, q)
    ensures (forall r: seq<nat> :: Bisimulation(g, r) ==> Refines(r, q)) <==> CutOffIsHarmless(g)
  {
    if forall r: seq<nat> :: Bisimulation(g, r) ==> Refines(r, q) {
      forall u: nat, v: nat | u < g.Size() && v < g.Size() && Alike(g, Depth(g), true, u, v)
        ensures Alike(g, Depth(g), false, u, v)
      {
        BisimilarExactly(g, u, v);
        var r :| Bisimulation(g, r) && Same(r, u, v);
        assert Refines(r, q);
        MergedExactly(g, q, u, v);
      }
    }
    if CutOffIsHarmless(g) {
      forall r: seq<nat>, u: nat, v: nat | Bisimulation(g, r) && Same(r, u, v)
        ensures q[u] == q[v]
      {
        BisimilarExactly(g, u, v);
        MergedExactly(g, q, u, v);
      }
    }
  }

  ghost predicate Acyclic(g: AdjacencyList) {
    Graphs.Acyclic(g.Targets())
  }

  ghost function Rank(g: AdjacencyList, u: Vertex): nat {
    |Graphs.ReachSet(g.Targets(), u)|
  }

  lemma RankFalls(g: AdjacencyList, u: Vertex, i: nat)
    requires g.Valid() && Acyclic(g) && u < g.Size() && i < |g.adj[u]|
    ensures Rank(g, g.adj[u][i].target) < Rank(g, u)
  {
    TargetsWellFormed(g);
    TargetEdge(g, u, i);
    Graphs.AcyclicRank(g.Targets(), u, g.adj[u][i].target);
  }

  /** Equal tags and degrees, and edges that match recursively by weight and target, in order or, for two edges,
      crosswise. */
  ghost predicate Similar(g: AdjacencyList, u: Vertex, v: Vertex)
    requires g.Valid() && Acyclic(g) && u < g.Size() && v < g.Size()
    decreases Rank(g, u), 1
  {
    && g.nodes[u] == g.nodes[v] && |g.adj[u]| == |g.adj[v]|
    && ((forall i: nat :: i < |g.adj[u]| ==> SimilarEdges(g, u, i, v, i))
        || (|g.adj[u]| == 2 && SimilarEdges(g, u, 0, v, 1) && SimilarEdges(g, u, 1, v, 0)))
  }

  ghost predicate SimilarEdges(g: AdjacencyList, u: Vertex, i: nat, v: Vertex, j: nat)
    requires g.Valid() && Acyclic(g) && u < g.Size() && v < g.Size() && i < |g.adj[u]| && j < |g.adj[v]|
    decreases Rank(g, u), 0
  {
    && g.adj[u][i].weight == g.adj[v][j].weight
    && (RankFalls(g, u, i); Similar(g, g.adj[u][i].target, g.adj[v][j].target))
  }

  lemma {:induction false} FiniteIsSimilar(g: AdjacencyList, n: nat, u: Vertex, v: Vertex)
    requires g.Valid() && Acyclic(g) && u < g.Size() && v < g.Size() && Alike(g, n, false, u, v)
    ensures Similar(g, u, v)
    decreases n
  {
    if u == v {
      SimilarReflexive(g, u);
    } else {
      forall i: nat, j: nat | i < |g.adj[u]| && j < |g.adj[v]| && AlikeEdges(g, n - 1, false, g.adj[u][i], g.adj[v][j])
        ensures SimilarEdges(g, u, i, v, j)
      {
        FiniteIsSimilar(g, n - 1, g.adj[u][i].target, g.adj[v][j].target);
      }
      if AlikeInOrder(g, n - 1, false, u, v) {
        assert forall i: nat :: i < |g.adj[u]| ==> AlikeEdges(g, n - 1, false, g.adj[u][i], g.adj[v][i]);
      }
    }
  }

  lemma {:induction false} SimilarReflexive(g: AdjacencyList, u: Vertex)
    requires g.Valid() && Acyclic(g) && u < g.Size()
    ensures Similar(g, u, u)
    decreases Rank(g, u)
  {
    forall i: nat | i < |g.adj[u]|
      ensures SimilarEdges(g, u, i, u, i)
    {
      RankFalls(g, u, i);
      SimilarReflexive(g, g.adj[u][i].target);
    }
  }

  /** The rank bounds the depth at which matching ends. */
  lemma {:induction false} SimilarIsFinite(g: AdjacencyList, n: nat, u: Vertex, v: Vertex)
    requires g.Valid() && Acyclic(g) && u < g.Size() && v < g.Size() && Similar(g, u, v) && Rank(g, u) < n
    ensures Alike(g, n, false, u, v)
    decreases n
  {
    forall i: nat, j: nat | i < |g.adj[u]| && j < |g.adj[v]| && SimilarEdges(g, u, i, v, j)
      ensures AlikeEdges(g, n - 1, false, g.adj[u][i], g.adj[v][j])
    {
      RankFalls(g, u, i);
      SimilarIsFinite(g, n - 1, g.adj[u][i].target, g.adj[v][j].target);
    }
    if forall i: nat :: i < |g.adj[u]| ==> SimilarEdges(g, u, i, v, i) {
      assert AlikeInOrder(g, n - 1, false, u, v);
    }
  }

  /** On acyclic graphs the classes are exactly the similar vertices. */
  lemma CoarsestOnAcyclicGraphs(g: AdjacencyList, q: seq<nat>, u: Vertex, v: Vertex)
    requires g.Valid() && Acyclic(g) && IsMinimization(g, q) && u < g.Size() && v < g.Size()
    ensures q[u] == q[v] <==> Similar(g, u, v)
  {
    MergedExactly(g, q, u, v);
    if AlikeFinitely(g, u, v) {
      var n: nat :| Alike(g, n, false, u, v);
      FiniteIsSimilar(g, n, u, v);
    }
    if Similar(g, u, v) {
      SimilarIsFinite(g, Rank(g, u) + 1, u, v);
    }
  }

  /** Beyond the rank there is nothing left to cut off. */
  lemma {:induction false} DepthIsBounded(g: AdjacencyList, n: nat, u: Vertex, v: Vertex)
    requires g.Valid() && Acyclic(g) && u < g.Size() && v < g.Size() && Rank(g, u) < n && Alike(g, n, true, u, v)
    ensures Alike(g, n, false, u, v)
    decreases n
  {
    if u != v {
      forall i: nat, j: nat | i < |g.adj[u]| && j < |g.adj[v]| && AlikeEdges(g, n - 1, true, g.adj[u][i], g.adj[v][j])
        ensures AlikeEdges(g, n - 1, false, g.adj[u][i], g.adj[v][j])
      {
        RankFalls(g, u, i);
        DepthIsBounded(g, n - 1, g.adj[u][i].target, g.adj[v][j].target);
      }
      assert AlikeInOrder(g, n - 1, true, u, v) ==> AlikeInOrder(g, n - 1, false, u, v);
      assert AlikeCrosswise(g, n - 1, true, u, v) ==> AlikeCrosswise(g, n - 1, false, u, v);
    }
  }

  /** On acyclic graphs no bisimulation is coarser. */
  lemma NoBisimulationIsCoarser(g: AdjacencyList, q: seq<nat>, r: seq<nat>)
    requires g.Valid() && Acyclic(g) && IsMinimization(g, q) && Bisimulation(g, r)
    ensures Refines(r, q)
  {
    forall u: nat, v: nat | u < g.Size() && v < g.Size() && Alike(g, Depth(g), true, u, v)
      ensures Alike(g, Depth(g), false, u, v)
    {
      DepthSuffices(g, u, v);
      DepthIsBounded(g, Rank(g, u) + 1, u, v);
    }
    CoarsestExactly(g, q);
  }

  /** On a cyclic graph the merging can miss vertices: two loops with equal tags and weights stay apart although
      labelling them alike is a bisimulation. */
  lemma LoopsStayApart(g: AdjacencyList, q: seq<nat>, tag: Tag, weight: Weight)
    requires g == AdjacencyList([tag, tag], [[Edge(0, weight)], [Edge(1, weight)]], []) && g.Valid()
    requires IsMinimization(g, q)
    ensures q[0] != q[1] && Bisimulation(g, [0, 0])
  {
    var apart := [0, 1];
    assert Closed(g, apart) by {
      forall u: nat, v: nat | u < 2 && v < 2 && Matches(g, apart, u, v)
        ensures apart[u] == apart[v]
      {
        assert InOrder(g, apart, u, v);
        assert SameEdge(apart, g.adj[u][0], g.adj[v][0]);
      }
    }
    assert Refines(q, apart);
    assert !Same(q, 0, 1);
  }
}
