/** Minimisation of a tagged graph: vertices are merged, pair by pair, until no further pair has equal tags and
    pairwise equivalent edges. Two edges may also match crosswise. */
module Minimizer {
  import opened UnionFinds
  import opened LabelledGraphs

  /** Edges agree on the weight and on the label of the target. */
  predicate SameEdge(q: seq<nat>, e: Edge, f: Edge)
    requires e.target < |q| && f.target < |q|
  {
    e.weight == f.weight && q[e.target] == q[f.target]
  }

  ghost predicate InOrder(g: AdjacencyList, q: seq<nat>, u: Vertex, v: Vertex)
    requires g.Valid() && |q| == g.Size() && u < |q| && v < |q|
  {
    |g.adj[u]| == |g.adj[v]| && forall i: nat :: i < |g.adj[u]| ==> SameEdge(q, g.adj[u][i], g.adj[v][i])
  }

  predicate Crosswise(g: AdjacencyList, q: seq<nat>, u: Vertex, v: Vertex)
    requires g.Valid() && |q| == g.Size() && u < |q| && v < |q|
  {
    && |g.adj[u]| == |g.adj[v]| == 2
    && SameEdge(q, g.adj[u][0], g.adj[v][1]) && SameEdge(q, g.adj[u][1], g.adj[v][0])
  }

  /** u and v look alike when targets are told apart by their labels only. */
  ghost predicate Matches(g: AdjacencyList, q: seq<nat>, u: Vertex, v: Vertex)
    requires g.Valid() && |q| == g.Size() && u < |q| && v < |q|
  {
    g.nodes[u] == g.nodes[v] && |g.adj[u]| == |g.adj[v]| && (InOrder(g, q, u, v) || Crosswise(g, q, u, v))
  }

  /** Vertices that look alike have the same label. */
  ghost predicate Closed(g: AdjacencyList, q: seq<nat>)
    requires g.Valid()
  {
    |q| == g.Size() && forall u: nat, v: nat :: u < |q| && v < |q| && Matches(g, q, u, v) ==> q[u] == q[v]
  }

  /** Vertices with the same label look alike. */
  ghost predicate Bisimulation(g: AdjacencyList, q: seq<nat>)
    requires g.Valid()
  {
    |q| == g.Size() && forall u: nat, v: nat :: u < |q| && v < |q| && q[u] == q[v] ==> Matches(g, q, u, v)
  }

  /** Every pair was joined only once it matched under the joins before it. */
  ghost predicate Derived(g: AdjacencyList, joins: seq<Pair>)
    requires g.Valid()
  {
    && PairsIn(g.Size(), joins)
    && forall k: nat :: k < |joins| ==> DerivedAt(g, joins, k)
  }

  ghost predicate DerivedAt(g: AdjacencyList, joins: seq<Pair>, k: nat)
    requires g.Valid() && PairsIn(g.Size(), joins) && k < |joins|
  {
    PairsIn(g.Size(), joins[..k]) &&
    Matches(g, JoinAll(Singletons(g.Size()), joins[..k]), joins[k].0, joins[k].1)
  }

  ghost function Classes(g: AdjacencyList, joins: seq<Pair>): Partition
    requires g.Valid() && Derived(g, joins)
  {
    JoinAll(Singletons(g.Size()), joins)
  }

  lemma MatchesMonotone(g: AdjacencyList, p: Partition, q: seq<nat>, u: Vertex, v: Vertex)
    requires g.Valid() && |p| == g.Size() && Refines(p, q) && u < |p| && v < |p|
    requires Matches(g, p, u, v)
    ensures Matches(g, q, u, v)
  {
    if InOrder(g, p, u, v) {
      forall i: nat | i < |g.adj[u]|
        ensures SameEdge(q, g.adj[u][i], g.adj[v][i])
      {
        assert Same(p, g.adj[u][i].target, g.adj[v][i].target);
      }
    } else {
      assert Same(p, g.adj[u][0].target, g.adj[v][1].target);
      assert Same(p, g.adj[u][1].target, g.adj[v][0].target);
    }
  }

  lemma MatchesSymmetric(g: AdjacencyList, q: seq<nat>, u: Vertex, v: Vertex)
    requires g.Valid() && |q| == g.Size() && u < |q| && v < |q| && Matches(g, q, u, v)
    ensures Matches(g, q, v, u)
  {
    if InOrder(g, q, u, v) {
      forall i: nat | i < |g.adj[u]|
        ensures SameEdge(q, g.adj[v][i], g.adj[u][i])
      {
        assert SameEdge(q, g.adj[u][i], g.adj[v][i]);
      }
    }
  }

  lemma MatchesTransitive(g: AdjacencyList, q: seq<nat>, u: Vertex, v: Vertex, w: Vertex)
    requires g.Valid() && |q| == g.Size() && u < |q| && v < |q| && w < |q|
    requires Matches(g, q, u, v) && Matches(g, q, v, w)
    ensures Matches(g, q, u, w)
  {
    if InOrder(g, q, u, v) && InOrder(g, q, v, w) {
      forall i: nat | i < |g.adj[u]|
        ensures SameEdge(q, g.adj[u][i], g.adj[w][i])
      {
        assert SameEdge(q, g.adj[u][i], g.adj[v][i]) && SameEdge(q, g.adj[v][i], g.adj[w][i]);
      }
    }
  }

  lemma MatchesReflexive(g: AdjacencyList, q: seq<nat>, u: Vertex)
    requires g.Valid() && |q| == g.Size() && u < |q|
    ensures Matches(g, q, u, u)
  {
    assert InOrder(g, q, u, u);
  }

  lemma {:induction false} JoinsMatch(g: AdjacencyList, q: seq<nat>, joins: seq<Pair>, x: Vertex, y: Vertex)
    requires g.Valid() && |q| == g.Size() && PairsIn(g.Size(), joins)
    requires forall k: nat :: k < |joins| ==> Matches(g, q, joins[k].0, joins[k].1)
    requires Same(JoinAll(Singletons(g.Size()), joins), x, y)
    ensures Matches(g, q, x, y)
  {
    if joins == [] {
      MatchesReflexive(g, q, x);
    } else {
      var init := joins[..|joins| - 1];
      var (a, b) := joins[|joins| - 1];
      var p := JoinAll(Singletons(g.Size()), init);
      assert forall k: nat :: k < |init| ==> init[k] == joins[k];
      JoinedSame(p, a, b, x, y);
      assert Matches(g, q, a, b);
      MatchesSymmetric(g, q, a, b);
      if Same(p, x, y) {
        JoinsMatch(g, q, init, x, y);
      } else if Same(p, x, a) {
        JoinsMatch(g, q, init, x, a);
        JoinsMatch(g, q, init, b, y);
        MatchesTransitive(g, q, x, a, b);
        MatchesTransitive(g, q, x, b, y);
      } else {
        JoinsMatch(g, q, init, x, b);
        JoinsMatch(g, q, init, a, y);
        MatchesTransitive(g, q, x, b, a);
        MatchesTransitive(g, q, x, a, y);
      }
    }
  }

  lemma PrefixRefines(p: Partition, pairs: seq<Pair>, k: nat)
    requires PairsIn(|p|, pairs) && k <= |pairs|
    ensures PairsIn(|p|, pairs[..k]) && Refines(JoinAll(p, pairs[..k]), JoinAll(p, pairs))
  {
    assert pairs == pairs[..k] + pairs[k..];
    JoinAllConcat(p, pairs[..k], pairs[k..]);
    JoinAllContains(JoinAll(p, pairs[..k]), pairs[k..]);
  }

  /** The classes are a bisimulation on every graph, cyclic ones included. */
  lemma DerivedIsBisimulation(g: AdjacencyList, joins: seq<Pair>)
    requires g.Valid() && Derived(g, joins)
    ensures Bisimulation(g, Classes(g, joins))
  {
    var q := Classes(g, joins);
    forall k: nat | k < |joins|
      ensures Matches(g, q, joins[k].0, joins[k].1)
    {
      assert DerivedAt(g, joins, k);
      PrefixRefines(Singletons(g.Size()), joins, k);
      MatchesMonotone(g, JoinAll(Singletons(g.Size()), joins[..k]), q, joins[k].0, joins[k].1);
    }
    forall u: nat, v: nat | u < |q| && v < |q| && q[u] == q[v]
      ensures Matches(g, q, u, v)
    {
      JoinsMatch(g, q, joins, u, v);
    }
  }

  /** No labelling that is closed under looking alike is finer. */
  lemma {:induction false} DerivedIsLeast(g: AdjacencyList, joins: seq<Pair>, r: seq<nat>)
    requires g.Valid() && Derived(g, joins) && Closed(g, r)
    ensures Refines(Classes(g, joins), r)
  {
    if joins != [] {
      var init := joins[..|joins| - 1];
      var (a, b) := joins[|joins| - 1];
      assert Derived(g, init) by {
        forall k: nat | k < |init|
          ensures DerivedAt(g, init, k)
        {
          assert DerivedAt(g, joins, k) && init[..k] == joins[..k];
        }
      }
      DerivedIsLeast(g, init, r);
      assert DerivedAt(g, joins, |init|);
      MatchesMonotone(g, Classes(g, init), r, a, b);
      JoinedLeast(Classes(g, init), a, b, r);
    }
  }

  /** What minimisation computes on every graph: the finest labelling that is closed under looking alike, which
      at the same time is a bisimulation. */
  ghost predicate IsMinimization(g: AdjacencyList, q: seq<nat>)
    requires g.Valid()
  {
    Closed(g, q) && Bisimulation(g, q) && forall r: seq<nat> :: Closed(g, r) ==> Refines(q, r)
  }

  /** The number of values of the index type; indexes wrap around. */
  const INDEX_RANGE: nat := 0x1_0000_0000_0000_0000
  const MAX_VERTICES: nat := 0xFFFF_FFFF

  function Decremented(i: nat): nat {
    (i + INDEX_RANGE - 1) % INDEX_RANGE
  }

  function Incremented(i: nat): nat {
    (i + 1) % INDEX_RANGE
  }

  /** Going back and forth is safe even at index zero. */
  lemma WrapAround(i: nat)
    requires i < INDEX_RANGE
    ensures Incremented(Decremented(i)) == i
    ensures i + 1 < INDEX_RANGE ==> Incremented(i) == i + 1
  {
  }

  ghost predicate Candidate(g: AdjacencyList, p: Pair)
    requires g.Valid()
  {
    p.0 < p.1 < g.Size() && g.nodes[p.0] == g.nodes[p.1] && |g.adj[p.0]| == |g.adj[p.1]|
  }

  /** Pairs that still may be merged, and the joins made so far. */
  ghost predicate Progress(g: AdjacencyList, workList: seq<Pair>, leaders: Partition, joins: seq<Pair>)
    requires g.Valid()
  {
    && IsPartition(leaders)
    && Derived(g, joins) && leaders == Classes(g, joins)
    && (forall i: nat :: i < |workList| ==> Candidate(g, workList[i]))
    && (forall u: nat, v: nat {:trigger Pending(workList, leaders, u, v)} ::
          Candidate(g, (u, v)) ==> Pending(workList, leaders, u, v))
  }

  ghost predicate Pending(workList: seq<Pair>, leaders: Partition, u: Vertex, v: Vertex) {
    (u, v) in workList || Same(leaders, u, v)
  }

  method IsEquivalent(equiv: UnionFind, e: Edge, f: Edge) returns (b: bool)
    requires e.target < |equiv.leaders| && f.target < |equiv.leaders|
    ensures b == SameEdge(equiv.leaders, e, f)
  {
    if e.weight != f.weight {
      return false;
    }
    if e.target == f.target {
      return true;
    }
    var l := equiv.Find(e.target);
    var r := equiv.Find(f.target);
    return l == r;
  }

  method EdgesEquivalent(g: AdjacencyList, equiv: UnionFind, u: Vertex, v: Vertex) returns (eq: bool)
    requires g.Valid() && |equiv.leaders| == g.Size() && u < g.Size() && v < g.Size()
    requires |g.adj[u]| == |g.adj[v]|
    ensures eq <==> InOrder(g, equiv.leaders, u, v)
  {
    eq := true;
    for i := 0 to |g.adj[u]|
      invariant forall k: nat :: k < i ==> SameEdge(equiv.leaders, g.adj[u][k], g.adj[v][k])
    {
      eq := IsEquivalent(equiv, g.adj[u][i], g.adj[v][i]);
      if !eq {
        break;
      }
    }
  }

  method CrosswiseEquivalent(g: AdjacencyList, equiv: UnionFind, u: Vertex, v: Vertex) returns (eq: bool)
    requires g.Valid() && |equiv.leaders| == g.Size() && u < g.Size() && v < g.Size()
    requires |g.adj[u]| == |g.adj[v]|
    ensures eq <==> Crosswise(g, equiv.leaders, u, v)
  {
    eq := false;
    if |g.adj[u]| == 2 {
      var first := IsEquivalent(equiv, g.adj[u][0], g.adj[v][1]);
      if first {
        eq := IsEquivalent(equiv, g.adj[u][1], g.adj[v][0]);
      }
    }
  }

  /** Moves the last pair to position i; returns the index from which the next step leads back to i. */
  method RemoveAt(workList: seq<Pair>, i: nat) returns (rest: seq<Pair>, prev: nat)
    requires i < |workList| && i < INDEX_RANGE
    ensures |rest| == |workList| - 1
    ensures forall p :: p in workList ==> p in rest || p == workList[i]
    ensures forall k: nat :: k < |rest| ==> rest[k] in workList
    ensures forall k: nat :: k < |rest| && k < i ==> rest[k] == workList[k]
    ensures Incremented(prev) == i
  {
    WrapAround(i);
    var swapped := workList[i := workList[|workList| - 1]];
    rest := swapped[..|workList| - 1];
    prev := Decremented(i);
    forall p | p in workList
      ensures p in rest || p == workList[i]
    {
      var k: nat :| k < |workList| && workList[k] == p;
      if k < |workList| - 1 && k != i {
        assert rest[k] == p;
      } else if i < |workList| - 1 {
        assert rest[i] == workList[|workList| - 1];
      }
    }
  }

  lemma JoinExtends(g: AdjacencyList, workList: seq<Pair>, rest: seq<Pair>, leaders: Partition, joins: seq<Pair>, p: Pair)
    requires g.Valid() && Progress(g, workList, leaders, joins) && p in workList && Matches(g, leaders, p.0, p.1)
    requires forall x :: x in workList ==> x in rest || x == p
    requires forall k: nat :: k < |rest| ==> rest[k] in workList
    ensures p.0 < |leaders| && p.1 < |leaders|
    ensures Progress(g, rest, Joined(leaders, p.0, p.1), joins + [p])
  {
    var joins', leaders' := joins + [p], Joined(leaders, p.0, p.1);
    assert joins'[..|joins|] == joins;
    forall k: nat | k < |joins'|
      ensures PairsIn(g.Size(), joins'[..k]) && DerivedAt(g, joins', k)
    {
      if k < |joins| {
        assert DerivedAt(g, joins, k) && joins'[..k] == joins[..k];
      }
    }
    JoinedIsPartition(leaders, p.0, p.1);
    forall u: nat, v: nat | Candidate(g, (u, v))
      ensures Pending(rest, leaders', u, v)
    {
      assert Pending(workList, leaders, u, v);
      JoinedSame(leaders, p.0, p.1, u, v);
    }
  }

  /** Merges vertices until nothing changes any more. */
  method MinimizeGraph(g: AdjacencyList) returns (ids: seq<nat>, numClasses: nat)
    requires g.Valid() && g.Size() <= MAX_VERTICES
    ensures IsMinimization(g, ids) && |ids| == g.Size()
    ensures forall u: nat, v: nat :: u < |ids| && v < |ids| ==>
              (ids[u] == ids[v] <==>
                 u == v ||
                 (g.nodes[u] == g.nodes[v] && |g.adj[u]| == |g.adj[v]| &&
                  ((forall i: nat :: i < |g.adj[u]| ==>
                      g.adj[u][i].weight == g.adj[v][i].weight && ids[g.adj[u][i].target] == ids[g.adj[v][i].target]) ||
                   (|g.adj[u]| == 2 && g.adj[u][0].weight == g.adj[v][1].weight && g.adj[u][1].weight == g.adj[v][0].weight &&
                    ids[g.adj[u][0].target] == ids[g.adj[v][1].target] && ids[g.adj[u][1].target] == ids[g.adj[v][0].target]))))
    ensures forall i: nat :: i < |ids| ==> ids[i] < numClasses
    ensures forall c: nat :: c < numClasses ==> c in ids
  {
    hide IsMinimization, Matches;
    var workList := Candidates(g);
    var equiv := new UnionFind(g.Size());
    ghost var joins: seq<Pair> := [];
    var changed := true;
    while changed
      invariant fresh(equiv) && Progress(g, workList, equiv.leaders, joins)
      invariant |workList| < INDEX_RANGE
      invariant !changed ==> forall k: nat :: k < |workList| ==> !Matches(g, equiv.leaders, workList[k].0, workList[k].1)
      decreases |workList|, changed
    {
      changed, workList, joins := MergeRound(g, equiv, workList, joins);
    }
    MinimizationReached(g, workList, equiv.leaders, joins);
    MinimizationSize(g, equiv.leaders);
    ids, numClasses := equiv.Compress();
    RenamingKeepsMinimization(g, equiv.leaders, ids);
    forall u: nat, v: nat | u < |ids| && v < |ids|
      ensures (ids[u] == ids[v] <==>
                 u == v ||
                 (g.nodes[u] == g.nodes[v] && |g.adj[u]| == |g.adj[v]| &&
                  ((forall i: nat :: i < |g.adj[u]| ==>
                      g.adj[u][i].weight == g.adj[v][i].weight && ids[g.adj[u][i].target] == ids[g.adj[v][i].target]) ||
                   (|g.adj[u]| == 2 && g.adj[u][0].weight == g.adj[v][1].weight && g.adj[u][1].weight == g.adj[v][0].weight &&
                    ids[g.adj[u][0].target] == ids[g.adj[v][1].target] && ids[g.adj[u][1].target] == ids[g.adj[v][0].target]))))
    {
      MergedByFields(g, ids, u, v);
    }
  }

  lemma MinimizationSize(g: AdjacencyList, q: seq<nat>)
    requires g.Valid() && IsMinimization(g, q)
    ensures |q| == g.Size()
  {
  }

  /** Two vertices are merged exactly if they agree in all that the graph says about them, up to merged targets. */
  lemma MergedByFields(g: AdjacencyList, ids: seq<nat>, u: Vertex, v: Vertex)
    requires g.Valid() && IsMinimization(g, ids) && u < |ids| && v < |ids|
    ensures ids[u] == ids[v] <==>
              u == v ||
              (g.nodes[u] == g.nodes[v] && |g.adj[u]| == |g.adj[v]| &&
               ((forall i: nat :: i < |g.adj[u]| ==>
                   g.adj[u][i].weight == g.adj[v][i].weight && ids[g.adj[u][i].target] == ids[g.adj[v][i].target]) ||
                (|g.adj[u]| == 2 && g.adj[u][0].weight == g.adj[v][1].weight && g.adj[u][1].weight == g.adj[v][0].weight &&
                 ids[g.adj[u][0].target] == ids[g.adj[v][1].target] && ids[g.adj[u][1].target] == ids[g.adj[v][0].target])))
  {
    assert Matches(g, ids, u, v) ==> ids[u] == ids[v];
    assert ids[u] == ids[v] ==> Matches(g, ids, u, v);
    if ids[u] == ids[v] && InOrder(g, ids, u, v) {
      forall i: nat | i < |g.adj[u]|
        ensures g.adj[u][i].weight == g.adj[v][i].weight && ids[g.adj[u][i].target] == ids[g.adj[v][i].target]
      {
        assert SameEdge(ids, g.adj[u][i], g.adj[v][i]);
      }
    }
  }

  /** One pass over the pairs. */
  method MergeRound(g: AdjacencyList, equiv: UnionFind, workList0: seq<Pair>, ghost joins0: seq<Pair>)
    returns (changed: bool, workList: seq<Pair>, ghost joins: seq<Pair>)
    requires g.Valid() && Progress(g, workList0, equiv.leaders, joins0) && |workList0| < INDEX_RANGE
    modifies equiv
    ensures Progress(g, workList, equiv.leaders, joins)
    ensures if changed then |workList| < |workList0| else workList == workList0
    ensures !changed ==> forall k: nat :: k < |workList| ==> !Matches(g, equiv.leaders, workList[k].0, workList[k].1)
  {
    changed, workList, joins := false, workList0, joins0;
    var i: nat := 0;
    while i < |workList|
      invariant i <= |workList| <= |workList0| && Progress(g, workList, equiv.leaders, joins)
      invariant if changed then |workList| < |workList0| else workList == workList0
      invariant !changed ==> forall k: nat :: k < i ==> !Matches(g, equiv.leaders, workList[k].0, workList[k].1)
      decreases |workList| - i
    {
      WrapAround(i);
      assert Candidate(g, workList[i]);
      var (u, v) := workList[i];
      var eq := EdgesEquivalent(g, equiv, u, v);
      if !eq {
        eq := CrosswiseEquivalent(g, equiv, u, v);
      }
      if eq {
        ghost var before := workList;
        ghost var leaders := equiv.leaders;
        var _ := equiv.Join(u, v);
        workList, i := RemoveAt(workList, i);
        JoinExtends(g, before, workList, leaders, joins, (u, v));
        joins := joins + [(u, v)];
        changed := true;
      }
      i := Incremented(i);
    }
  }

  /** All pairs of vertices with equal tags and degrees. */
  method Candidates(g: AdjacencyList) returns (workList: seq<Pair>)
    requires g.Valid() && g.Size() <= MAX_VERTICES
    ensures |workList| < INDEX_RANGE
    ensures Progress(g, workList, Singletons(g.Size()), [])
  {
    workList := [];
    var n := g.Size();
    for u := 0 to n
      invariant |workList| <= u * n
      invariant CandidatesUpTo(g, workList, u, 0)
    {
      workList := CandidatesOf(g, workList, u);
      assert u * n + n == (u + 1) * n;
    }
    ProductBound(n);
    forall u: nat, v: nat | Candidate(g, (u, v))
      ensures Pending(workList, Singletons(n), u, v)
    {
    }
    SingletonsGrown(n, n);
  }

  method CandidatesOf(g: AdjacencyList, workList0: seq<Pair>, u: Vertex) returns (workList: seq<Pair>)
    requires g.Valid() && u < g.Size() && CandidatesUpTo(g, workList0, u, 0)
    ensures |workList| <= |workList0| + g.Size() && CandidatesUpTo(g, workList, u + 1, 0)
  {
    workList := workList0;
    for v := u + 1 to g.Size()
      invariant |workList| <= |workList0| + v && CandidatesUpTo(g, workList, u, v)
    {
      if g.nodes[u] == g.nodes[v] && |g.adj[u]| == |g.adj[v]| {
        workList := workList + [(u, v)];
      }
    }
  }

  lemma ProductMonotone(a: nat, b: nat, c: nat)
    requires a <= b
    ensures a * c <= b * c
  {
  }

  lemma ProductBound(n: nat)
    requires n <= MAX_VERTICES
    ensures n * n < INDEX_RANGE
  {
    ProductMonotone(n, MAX_VERTICES, n);
    assert 0xFFFF_FFFF * n <= 0xFFFF_FFFF * 0xFFFF_FFFF;
  }

  ghost predicate CandidatesUpTo(g: AdjacencyList, workList: seq<Pair>, u: nat, v: nat)
    requires g.Valid()
  {
    && (forall i: nat :: i < |workList| ==> Candidate(g, workList[i]))
    && (forall x: nat, y: nat :: Candidate(g, (x, y)) && (x < u || (x == u && y < v)) ==> (x, y) in workList)
  }

  lemma MinimizationReached(g: AdjacencyList, workList: seq<Pair>, leaders: Partition, joins: seq<Pair>)
    requires g.Valid() && Progress(g, workList, leaders, joins)
    requires forall k: nat :: k < |workList| ==> !Matches(g, leaders, workList[k].0, workList[k].1)
    ensures IsMinimization(g, leaders)
  {
    DerivedIsBisimulation(g, joins);
    forall u: nat, v: nat | u < |leaders| && v < |leaders| && Matches(g, leaders, u, v)
      ensures leaders[u] == leaders[v]
    {
      MatchesSymmetric(g, leaders, u, v);
      if u < v {
        assert Pending(workList, leaders, u, v);
      } else if v < u {
        assert Pending(workList, leaders, v, u);
      }
    }
    forall r: seq<nat> | Closed(g, r)
      ensures Refines(leaders, r)
    {
      DerivedIsLeast(g, joins, r);
    }
  }

  /** Dense class ids say the same as leaders. */
  lemma RenamingKeepsMinimization(g: AdjacencyList, q: seq<nat>, ids: seq<nat>)
    requires g.Valid() && IsMinimization(g, q) && |ids| == |q|
    requires forall i: nat, j: nat :: i < |q| && j < |q| ==> (ids[i] == ids[j] <==> q[i] == q[j])
    ensures IsMinimization(g, ids)
  {
    forall u: nat, v: nat | u < |q| && v < |q|
      ensures Matches(g, ids, u, v) <==> Matches(g, q, u, v)
    {
      RenamedMatch(g, q, ids, u, v);
    }
    forall r: seq<nat> | Closed(g, r)
      ensures Refines(ids, r)
    {
      assert Refines(q, r);
      forall i: nat, j: nat | Same(ids, i, j)
        ensures r[i] == r[j]
      {
        assert Same(q, i, j);
      }
    }
  }

  lemma RenamedMatch(g: AdjacencyList, q: seq<nat>, ids: seq<nat>, u: Vertex, v: Vertex)
    requires g.Valid() && |ids| == |q| == g.Size() && u < |q| && v < |q|
    requires forall i: nat, j: nat :: i < |q| && j < |q| ==> (ids[i] == ids[j] <==> q[i] == q[j])
    ensures Matches(g, ids, u, v) <==> Matches(g, q, u, v)
  {
    assert Refines(q, ids) && Refines(ids, q);
    if Matches(g, q, u, v) {
      MatchesMonotone(g, q, ids, u, v);
    }
    if Matches(g, ids, u, v) {
      MatchesMonotone(g, ids, q, u, v);
    }
  }
}
