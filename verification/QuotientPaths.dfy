/** For an equivalence that respects tags and edges, the quotient graph has the same labelled paths from its
    roots; minimisation delivers such an equivalence. */
module QuotientPaths {
  import opened Compressors
  import opened LabelledGraphs
  import opened Quotient
  import opened Minimizer
  import opened UnionFinds

  /** The i-th edge of u has a counterpart at v: same weight, target in the same class. */
  ghost predicate Counterpart(g: AdjacencyList, ids: seq<nat>, u: Vertex, i: nat, v: Vertex, j: nat)
    requires g.Valid() && |ids| == g.Size()
  {
    && u < g.Size() && v < g.Size() && i < |g.adj[u]| && j < |g.adj[v]|
    && SameEdge(ids, g.adj[u][i], g.adj[v][j])
  }

  /** Members of a class agree on the tag and on the set of weights with target classes. */
  ghost predicate Agreeable(g: AdjacencyList, ids: seq<nat>)
    requires g.Valid() && |ids| == g.Size()
  {
    && (forall u: nat, v: nat :: Same(ids, u, v) ==> g.nodes[u] == g.nodes[v])
    && (forall u: nat, v: nat, i: nat :: Same(ids, u, v) && i < |g.adj[u]| ==> HasCounterpart(g, ids, u, i, v))
  }

  ghost predicate HasCounterpart(g: AdjacencyList, ids: seq<nat>, u: Vertex, i: nat, v: Vertex)
    requires g.Valid() && |ids| == g.Size()
  {
    exists j: nat :: Counterpart(g, ids, u, i, v, j)
  }

  lemma BisimulationIsAgreeable(g: AdjacencyList, ids: seq<nat>)
    requires g.Valid() && Bisimulation(g, ids)
    ensures Agreeable(g, ids)
  {
    forall u: nat, v: nat, i: nat | Same(ids, u, v) && i < |g.adj[u]|
      ensures HasCounterpart(g, ids, u, i, v)
    {
      assert Matches(g, ids, u, v);
      if InOrder(g, ids, u, v) {
        assert Counterpart(g, ids, u, i, v, i);
      } else {
        assert Counterpart(g, ids, u, i, v, 1 - i);
      }
    }
  }

  /** The node for the class of v carries the tag of v. */
  lemma SameTag(g: AdjacencyList, ids: seq<nat>, eq2Vtx: seq<Option<Vertex>>, ret: AdjacencyList, v: Vertex, x: Vertex)
    requires g.Valid() && IsClassification(g, ids, |eq2Vtx|) && Agreeable(g, ids) && NodesAreClasses(g, ids, eq2Vtx, ret)
    requires v < |ids| && eq2Vtx[ids[v]] == Some(x) && x < |ret.nodes| == |ret.adj|
    ensures ret.nodes[x] == g.nodes[v]
  {
    assert HasMember(g, ids, eq2Vtx, ret, x);
    var m: nat :| MadeFrom(g, ids, eq2Vtx, ret, x, m);
    assert Same(ids, m, v);
  }

  /** Each node has exactly the edges of any reached member of its class. */
  lemma EdgesOfAnyMember(g: AdjacencyList, ids: seq<nat>, eq2Vtx: seq<Option<Vertex>>, ret: AdjacencyList,
                         v: Vertex, x: Vertex, e: Edge)
    requires g.Valid() && IsClassification(g, ids, |eq2Vtx|) && Agreeable(g, ids) && IsQuotient(g, ids, eq2Vtx, ret)
    requires v < |ids| && Reached(g, v) && eq2Vtx[ids[v]] == Some(x) && x < ret.Size()
    ensures e in ret.adj[x] <==> exists i: nat :: IsCopy(g, ids, eq2Vtx, e, v, i)
  {
    if e in ret.adj[x] {
      assert InheritedEdge(g, ids, eq2Vtx, x, e);
      var h: nat, i: nat :| InheritedFrom(g, ids, eq2Vtx, x, e, h, i);
      assert Same(ids, h, v) && HasCounterpart(g, ids, h, i, v);
      var j: nat :| Counterpart(g, ids, h, i, v, j);
      assert IsCopy(g, ids, eq2Vtx, e, v, j);
    }
    if i: nat :| IsCopy(g, ids, eq2Vtx, e, v, i) {
      assert InheritedFrom(g, ids, eq2Vtx, x, e, v, i);
      assert InheritedEdge(g, ids, eq2Vtx, x, e);
    }
  }

  /** The labels along a path: the weight of every edge and the tag it leads to. */
  type Word = seq<(Weight, Tag)>

  ghost predicate Spells(g: AdjacencyList, v: Vertex, word: Word)
    requires g.Valid() && v < g.Size()
    decreases |word|
  {
    word == [] || exists i: nat :: SpellsVia(g, v, i, word)
  }

  ghost predicate SpellsVia(g: AdjacencyList, v: Vertex, i: nat, word: Word)
    requires g.Valid() && v < g.Size() && word != []
    decreases |word|, 0
  {
    && i < |g.adj[v]| && g.adj[v][i].weight == word[0].0 && g.nodes[g.adj[v][i].target] == word[0].1
    && Spells(g, g.adj[v][i].target, word[1..])
  }

  ghost predicate RootSpells(g: AdjacencyList, tag: Tag, word: Word)
    requires g.Valid()
  {
    exists r: nat :: r < |g.roots| && g.nodes[g.roots[r]] == tag && Spells(g, g.roots[r], word)
  }

  ghost predicate Setting(g: AdjacencyList, ids: seq<nat>, eq2Vtx: seq<Option<Vertex>>, ret: AdjacencyList) {
    g.Valid() && IsClassification(g, ids, |eq2Vtx|) && Agreeable(g, ids) && IsQuotient(g, ids, eq2Vtx, ret)
  }

  /** v is a reached vertex and x the node of its class. */
  ghost predicate Stands(g: AdjacencyList, ids: seq<nat>, eq2Vtx: seq<Option<Vertex>>, ret: AdjacencyList, v: Vertex, x: Vertex) {
    v < |ids| == g.Size() && Reached(g, v) && ids[v] < |eq2Vtx| && eq2Vtx[ids[v]] == Some(x) && x < ret.Size()
  }

  lemma TargetStands(g: AdjacencyList, ids: seq<nat>, eq2Vtx: seq<Option<Vertex>>, ret: AdjacencyList,
                     v: Vertex, x: Vertex, i: nat) returns (y: Vertex)
    requires Setting(g, ids, eq2Vtx, ret) && Stands(g, ids, eq2Vtx, ret, v, x) && i < |g.adj[v]|
    ensures Stands(g, ids, eq2Vtx, ret, g.adj[v][i].target, y)
    ensures Edge(y, g.adj[v][i].weight) in ret.adj[x]
    ensures ret.nodes[y] == g.nodes[g.adj[v][i].target]
  {
    var t := g.adj[v][i].target;
    ReachedTarget(g, v, i);
    assert ClassReached(g, ids, ids[t]);
    y := eq2Vtx[ids[t]].value;
    assert IsCopy(g, ids, eq2Vtx, Edge(y, g.adj[v][i].weight), v, i);
    EdgesOfAnyMember(g, ids, eq2Vtx, ret, v, x, Edge(y, g.adj[v][i].weight));
    SameTag(g, ids, eq2Vtx, ret, t, y);
  }

  lemma SourceOfEdge(g: AdjacencyList, ids: seq<nat>, eq2Vtx: seq<Option<Vertex>>, ret: AdjacencyList,
                     v: Vertex, x: Vertex, j: nat) returns (i: nat)
    requires Setting(g, ids, eq2Vtx, ret) && Stands(g, ids, eq2Vtx, ret, v, x) && j < |ret.adj[x]|
    ensures i < |g.adj[v]| && g.adj[v][i].weight == ret.adj[x][j].weight
    ensures Stands(g, ids, eq2Vtx, ret, g.adj[v][i].target, ret.adj[x][j].target)
    ensures ret.nodes[ret.adj[x][j].target] == g.nodes[g.adj[v][i].target]
  {
    var e := ret.adj[x][j];
    EdgesOfAnyMember(g, ids, eq2Vtx, ret, v, x, e);
    i :| IsCopy(g, ids, eq2Vtx, e, v, i);
    ReachedTarget(g, v, i);
    SameTag(g, ids, eq2Vtx, ret, g.adj[v][i].target, e.target);
  }

  /** A vertex and the node of its class spell the same words. */
  lemma {:induction false} SameWords(g: AdjacencyList, ids: seq<nat>, eq2Vtx: seq<Option<Vertex>>, ret: AdjacencyList,
                                     v: Vertex, x: Vertex, word: Word)
    requires Setting(g, ids, eq2Vtx, ret) && Stands(g, ids, eq2Vtx, ret, v, x)
    ensures Spells(g, v, word) <==> Spells(ret, x, word)
    decreases |word|
  {
    if word != [] {
      if i: nat :| SpellsVia(g, v, i, word) {
        var y := TargetStands(g, ids, eq2Vtx, ret, v, x, i);
        SameWords(g, ids, eq2Vtx, ret, g.adj[v][i].target, y, word[1..]);
        var j: nat :| j < |ret.adj[x]| && ret.adj[x][j] == Edge(y, g.adj[v][i].weight);
        assert SpellsVia(ret, x, j, word);
      }
      if j: nat :| SpellsVia(ret, x, j, word) {
        var i := SourceOfEdge(g, ids, eq2Vtx, ret, v, x, j);
        SameWords(g, ids, eq2Vtx, ret, g.adj[v][i].target, ret.adj[x][j].target, word[1..]);
        assert SpellsVia(g, v, i, word);
      }
    }
  }

  lemma RootStands(g: AdjacencyList, ids: seq<nat>, eq2Vtx: seq<Option<Vertex>>, ret: AdjacencyList, r: nat)
    returns (s: nat)
    requires Setting(g, ids, eq2Vtx, ret) && r < |g.roots|
    ensures s < |ret.roots| && Stands(g, ids, eq2Vtx, ret, g.roots[r], ret.roots[s])
  {
    Graphs.ReachSelf(g.Targets(), g.roots[r]);
    assert ReachedFromRoot(g, r, g.roots[r]);
    assert ClassReached(g, ids, ids[g.roots[r]]);
    var x := eq2Vtx[ids[g.roots[r]]].value;
    assert IsRootOf(g, ids, eq2Vtx, |g.roots|, x);
    s :| s < |ret.roots| && ret.roots[s] == x;
  }

  /** Tags and weights along paths from the roots are the same in both graphs. */
  lemma PathsPreserved(g: AdjacencyList, ids: seq<nat>, eq2Vtx: seq<Option<Vertex>>, ret: AdjacencyList,
                       tag: Tag, word: Word)
    requires Setting(g, ids, eq2Vtx, ret)
    ensures RootSpells(g, tag, word) <==> RootSpells(ret, tag, word)
  {
    if RootSpells(g, tag, word) {
      var r: nat :| r < |g.roots| && g.nodes[g.roots[r]] == tag && Spells(g, g.roots[r], word);
      var s := RootStands(g, ids, eq2Vtx, ret, r);
      SameWords(g, ids, eq2Vtx, ret, g.roots[r], ret.roots[s], word);
      SameTag(g, ids, eq2Vtx, ret, g.roots[r], ret.roots[s]);
    }
    if RootSpells(ret, tag, word) {
      var s: nat :| s < |ret.roots| && ret.nodes[ret.roots[s]] == tag && Spells(ret, ret.roots[s], word);
      assert ret.roots[s] in ret.roots;
      assert IsRootOf(g, ids, eq2Vtx, |g.roots|, ret.roots[s]);
      var r: nat :| r < |g.roots| && g.roots[r] < |ids| && ids[g.roots[r]] < |eq2Vtx| && eq2Vtx[ids[g.roots[r]]] == Some(ret.roots[s]);
      Graphs.ReachSelf(g.Targets(), g.roots[r]);
      assert ReachedFromRoot(g, r, g.roots[r]);
      SameWords(g, ids, eq2Vtx, ret, g.roots[r], ret.roots[s], word);
      SameTag(g, ids, eq2Vtx, ret, g.roots[r], ret.roots[s]);
    }
  }

  /** Minimising a graph and building the quotient keeps all labelled paths. */
  method Minimize(g: AdjacencyList) returns (ret: AdjacencyList)
    requires g.Valid() && g.Size() <= MAX_VERTICES
    ensures ret.Valid()
    ensures forall tag: Tag, word: Word :: RootSpells(g, tag, word) <==> RootSpells(ret, tag, word)
  {
    var ids, numClasses := MinimizeGraph(g);
    BisimulationIsAgreeable(g, ids);
    var eq2Vtx;
    ret, eq2Vtx := CreateEquivalentGraphFrom(g, ids, numClasses);
    forall tag: Tag, word: Word
      ensures RootSpells(g, tag, word) <==> RootSpells(ret, tag, word)
    {
      PathsPreserved(g, ids, eq2Vtx, ret, tag, word);
    }
  }
}
