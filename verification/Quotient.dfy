/** The graph with one vertex per class of equivalent vertices. */
module Quotient {
  import opened Compressors
  import opened Sequences
  import opened LabelledGraphs
  import Graphs

  ghost predicate Reached(g: AdjacencyList, v: Vertex) {
    exists i: nat :: ReachedFromRoot(g, i, v)
  }

  ghost predicate ReachedFromRoot(g: AdjacencyList, i: nat, v: Vertex) {
    i < |g.roots| && Graphs.Reach(g.Targets(), g.roots[i], v)
  }

  /** Class ids for all vertices. */
  ghost predicate IsClassification(g: AdjacencyList, ids: seq<nat>, numClasses: nat) {
    |ids| == g.Size() && forall v: nat :: v < |ids| ==> ids[v] < numClasses
  }

  /** The construction between two steps; members names the vertex that each new node was made for, and done
      the edges that have been copied, by source and position. */
  datatype State = State(ret: AdjacencyList, eq2Vtx: seq<Option<Vertex>>, workList: seq<Vertex>, handled: set<Vertex>,
                         members: seq<Vertex>, done: set<(Vertex, nat)>)

  /** A vertex of the input that the construction knows about. */
  ghost predicate Known(g: AdjacencyList, ids: seq<nat>, s: State, v: Vertex) {
    && v < |ids| && ids[v] < |s.eq2Vtx| && s.eq2Vtx[ids[v]].Some?
    && Reached(g, v)
  }

  /** New nodes and classes correspond one to one. */
  ghost predicate NodesOk(g: AdjacencyList, ids: seq<nat>, s: State) {
    && |s.ret.nodes| == |s.ret.adj| == |s.members|
    && (forall x: nat :: x < |s.members| ==> MemberOk(g, ids, s, x))
    && (forall c: nat :: c < |s.eq2Vtx| && s.eq2Vtx[c].Some? ==>
          s.eq2Vtx[c].value < |s.members| && s.members[s.eq2Vtx[c].value] < |ids| && ids[s.members[s.eq2Vtx[c].value]] == c)
  }

  ghost predicate MemberOk(g: AdjacencyList, ids: seq<nat>, s: State, x: Vertex)
    requires x < |s.members| && |s.ret.nodes| == |s.members|
  {
    var v := s.members[x];
    Known(g, ids, s, v) && s.eq2Vtx[ids[v]] == Some(x) && v < |g.nodes| && s.ret.nodes[x] == g.nodes[v]
  }

  ghost predicate WorkOk(g: AdjacencyList, ids: seq<nat>, s: State) {
    && (forall i: nat :: i < |s.workList| ==> Known(g, ids, s, s.workList[i]))
    && (forall v: nat :: v in s.handled ==> Known(g, ids, s, v))
  }

  /** t has been handled or will be, before the entry at position p of the work list. */
  ghost predicate HandledBefore(s: State, p: int, t: Vertex) {
    t in s.handled || exists k: nat :: p < k < |s.workList| && s.workList[k] == t
  }

  /** Copied edges start at handled vertices; their targets are handled or scheduled, and above every further
      entry for the same source. */
  ghost predicate DoneOk(g: AdjacencyList, s: State) {
    && (forall h: nat, i: nat :: (h, i) in s.done ==>
          h in s.handled && h < |g.adj| && i < |g.adj[h]| && HandledBefore(s, -1, g.adj[h][i].target))
    && (forall p: nat, i: nat :: p < |s.workList| && (s.workList[p], i) in s.done ==>
          s.workList[p] < |g.adj| && i < |g.adj[s.workList[p]]| && HandledBefore(s, p, g.adj[s.workList[p]][i].target))
  }

  /** e is the copy of the i-th edge of h. */
  predicate IsCopy(g: AdjacencyList, ids: seq<nat>, eq2Vtx: seq<Option<Vertex>>, e: Edge, h: Vertex, i: nat) {
    && h < |g.adj| && i < |g.adj[h]| && g.adj[h][i].target < |ids| && ids[g.adj[h][i].target] < |eq2Vtx|
    && eq2Vtx[ids[g.adj[h][i].target]] == Some(e.target)
    && e.weight == g.adj[h][i].weight
  }

  ghost predicate Copied(g: AdjacencyList, ids: seq<nat>, s: State, x: Vertex, e: Edge) {
    exists h: nat, i: nat :: CopiedFrom(g, ids, s, x, e, h, i)
  }

  ghost predicate CopiedFrom(g: AdjacencyList, ids: seq<nat>, s: State, x: Vertex, e: Edge, h: Vertex, i: nat) {
    && (h, i) in s.done
    && h < |ids| && ids[h] < |s.eq2Vtx| && s.eq2Vtx[ids[h]] == Some(x)
    && IsCopy(g, ids, s.eq2Vtx, e, h, i)
  }

  ghost predicate EdgesOk(g: AdjacencyList, ids: seq<nat>, s: State) {
    && (forall x: nat, e: Edge :: x < |s.ret.adj| ==> (e in s.ret.adj[x] <==> Copied(g, ids, s, x, e)))
    && (forall h: nat, i: nat :: (h, i) in s.done ==> h < |g.adj| && i < |g.adj[h]| && Known(g, ids, s, g.adj[h][i].target))
  }

  /** The first n roots have been taken over. */
  ghost predicate RootsOk(g: AdjacencyList, ids: seq<nat>, s: State, n: nat) {
    && n <= |g.roots|
    && (forall i: nat :: i < n ==> Known(g, ids, s, g.roots[i]) && HandledBefore(s, -1, g.roots[i]))
    && (forall x: nat :: x in s.ret.roots <==> IsRootOf(g, ids, s.eq2Vtx, n, x))
    && Distinct(s.ret.roots)
  }

  ghost predicate IsRootOf(g: AdjacencyList, ids: seq<nat>, eq2Vtx: seq<Option<Vertex>>, n: nat, x: Vertex) {
    exists i: nat :: i < n <= |g.roots| && g.roots[i] < |ids| && ids[g.roots[i]] < |eq2Vtx| &&
                     eq2Vtx[ids[g.roots[i]]] == Some(x)
  }

  ghost predicate Inv(g: AdjacencyList, ids: seq<nat>, s: State, n: nat) {
    NodesOk(g, ids, s) && WorkOk(g, ids, s) && DoneOk(g, s) && EdgesOk(g, ids, s) && RootsOk(g, ids, s, n)
  }

  /** A node for the class of v, unless there is one. */
  function WithNode(g: AdjacencyList, ids: seq<nat>, s: State, v: Vertex): State
    requires v < |ids| && ids[v] < |s.eq2Vtx| && v < |g.nodes|
  {
    if s.eq2Vtx[ids[v]].Some? then s
    else s.(ret := s.ret.(nodes := s.ret.nodes + [g.nodes[v]], adj := s.ret.adj + [[]]),
            eq2Vtx := s.eq2Vtx[ids[v] := Some(|s.ret.nodes|)], members := s.members + [v])
  }

  lemma WithNodeKnown(g: AdjacencyList, ids: seq<nat>, s: State, v: Vertex, w: Vertex)
    requires v < |ids| && ids[v] < |s.eq2Vtx| && v < |g.nodes|
    ensures Known(g, ids, s, w) ==> Known(g, ids, WithNode(g, ids, s, v), w)
    ensures Known(g, ids, s, w) ==> WithNode(g, ids, s, v).eq2Vtx[ids[w]] == s.eq2Vtx[ids[w]]
  {
  }

  lemma WithNodeNodes(g: AdjacencyList, ids: seq<nat>, s: State, v: Vertex)
    requires NodesOk(g, ids, s) && v < |ids| && ids[v] < |s.eq2Vtx| && v < |g.nodes| && Reached(g, v)
    ensures NodesOk(g, ids, WithNode(g, ids, s, v)) && Known(g, ids, WithNode(g, ids, s, v), v)
  {
    var t := WithNode(g, ids, s, v);
    forall x: nat | x < |t.members|
      ensures MemberOk(g, ids, t, x)
    {
      if x < |s.members| {
        assert MemberOk(g, ids, s, x);
        WithNodeKnown(g, ids, s, v, s.members[x]);
      }
    }
  }

  lemma WithNodeWork(g: AdjacencyList, ids: seq<nat>, s: State, v: Vertex)
    requires WorkOk(g, ids, s) && DoneOk(g, s) && v < |ids| && ids[v] < |s.eq2Vtx| && v < |g.nodes|
    ensures WorkOk(g, ids, WithNode(g, ids, s, v)) && DoneOk(g, WithNode(g, ids, s, v))
  {
    var t := WithNode(g, ids, s, v);
    assert forall p: int, w: nat :: HandledBefore(t, p, w) <==> HandledBefore(s, p, w);
  }

  lemma WithNodeCopies(g: AdjacencyList, ids: seq<nat>, s: State, v: Vertex, x: Vertex, e: Edge)
    requires NodesOk(g, ids, s) && EdgesOk(g, ids, s)
    requires forall h: nat, i: nat :: (h, i) in s.done ==> Known(g, ids, s, h)
    requires v < |ids| && ids[v] < |s.eq2Vtx| && v < |g.nodes|
    ensures Copied(g, ids, WithNode(g, ids, s, v), x, e) <==> Copied(g, ids, s, x, e)
    ensures Copied(g, ids, s, x, e) ==> x < |s.ret.adj|
  {
    var t := WithNode(g, ids, s, v);
    if h: nat, i: nat :| CopiedFrom(g, ids, t, x, e, h, i) {
      assert Known(g, ids, s, h) && Known(g, ids, s, g.adj[h][i].target);
      assert CopiedFrom(g, ids, s, x, e, h, i);
    }
    if h: nat, i: nat :| CopiedFrom(g, ids, s, x, e, h, i) {
      assert CopiedFrom(g, ids, t, x, e, h, i);
    }
  }

  lemma WithNodeEdges(g: AdjacencyList, ids: seq<nat>, s: State, v: Vertex)
    requires NodesOk(g, ids, s) && EdgesOk(g, ids, s)
    requires forall h: nat, i: nat :: (h, i) in s.done ==> Known(g, ids, s, h)
    requires v < |ids| && ids[v] < |s.eq2Vtx| && v < |g.nodes|
    ensures EdgesOk(g, ids, WithNode(g, ids, s, v))
  {
    var t := WithNode(g, ids, s, v);
    forall x: nat, e: Edge | x < |t.ret.adj|
      ensures e in t.ret.adj[x] <==> Copied(g, ids, t, x, e)
    {
      WithNodeCopies(g, ids, s, v, x, e);
    }
  }

  lemma WithNodeRoots(g: AdjacencyList, ids: seq<nat>, s: State, v: Vertex, n: nat)
    requires NodesOk(g, ids, s) && RootsOk(g, ids, s, n)
    requires v < |ids| && ids[v] < |s.eq2Vtx| && v < |g.nodes|
    ensures RootsOk(g, ids, WithNode(g, ids, s, v), n)
  {
    var t := WithNode(g, ids, s, v);
    forall x: nat
      ensures IsRootOf(g, ids, t.eq2Vtx, n, x) <==> IsRootOf(g, ids, s.eq2Vtx, n, x)
    {
      if i: nat :| i < n && g.roots[i] < |ids| && ids[g.roots[i]] < |t.eq2Vtx| && t.eq2Vtx[ids[g.roots[i]]] == Some(x) {
        assert Known(g, ids, s, g.roots[i]);
      }
      if i: nat :| i < n && g.roots[i] < |ids| && ids[g.roots[i]] < |s.eq2Vtx| && s.eq2Vtx[ids[g.roots[i]]] == Some(x) {
        assert t.eq2Vtx[ids[g.roots[i]]] == Some(x);
      }
    }
    forall i: nat | i < n
      ensures Known(g, ids, t, g.roots[i]) && HandledBefore(t, -1, g.roots[i])
    {
      assert Known(g, ids, s, g.roots[i]) && HandledBefore(s, -1, g.roots[i]);
    }
  }

  lemma WithNodeInv(g: AdjacencyList, ids: seq<nat>, s: State, v: Vertex, n: nat)
    requires Inv(g, ids, s, n) && v < |ids| && ids[v] < |s.eq2Vtx| && v < |g.nodes| && Reached(g, v)
    ensures Inv(g, ids, WithNode(g, ids, s, v), n) && Known(g, ids, WithNode(g, ids, s, v), v)
  {
    WithNodeNodes(g, ids, s, v);
    WithNodeWork(g, ids, s, v);
    WithNodeEdges(g, ids, s, v);
    WithNodeRoots(g, ids, s, v, n);
  }

  function Pushed(s: State, v: Vertex): State {
    s.(workList := s.workList + [v])
  }

  lemma PushedBefore(s: State, v: Vertex)
    ensures forall p: int, t: Vertex :: HandledBefore(s, p, t) ==> HandledBefore(Pushed(s, v), p, t)
    ensures forall p: int :: p < |s.workList| ==> HandledBefore(Pushed(s, v), p, v)
  {
    var s' := Pushed(s, v);
    assert s'.workList[|s.workList|] == v;
    forall p: int, t: Vertex | HandledBefore(s, p, t)
      ensures HandledBefore(s', p, t)
    {
      if t !in s.handled {
        var k: nat :| p < k < |s.workList| && s.workList[k] == t;
        assert s'.workList[k] == t;
      }
    }
  }

  lemma PushedInv(g: AdjacencyList, ids: seq<nat>, s: State, v: Vertex, n: nat)
    requires Inv(g, ids, s, n) && Known(g, ids, s, v) && v !in s.handled
    ensures Inv(g, ids, Pushed(s, v), n)
  {
    var t := Pushed(s, v);
    PushedBefore(s, v);
    assert NodesOk(g, ids, t) by {
      forall x: nat | x < |t.members|
        ensures MemberOk(g, ids, t, x)
      {
        assert MemberOk(g, ids, s, x);
      }
    }
    SameCopies(g, ids, s, t);
  }

  lemma SameCopies(g: AdjacencyList, ids: seq<nat>, s: State, t: State)
    requires s.done == t.done && s.eq2Vtx == t.eq2Vtx
    ensures forall x: nat, e: Edge :: Copied(g, ids, t, x, e) <==> Copied(g, ids, s, x, e)
  {
    assert forall x: nat, e: Edge, h: nat, i: nat ::
        CopiedFrom(g, ids, t, x, e, h, i) <==> CopiedFrom(g, ids, s, x, e, h, i);
  }

  /** Takes the last entry off the work list and handles it. */
  function Popped(s: State): State
    requires s.workList != []
  {
    s.(workList := s.workList[..|s.workList| - 1], handled := s.handled + {s.workList[|s.workList| - 1]})
  }

  lemma PoppedInv(g: AdjacencyList, ids: seq<nat>, s: State, n: nat)
    requires Inv(g, ids, s, n) && s.workList != []
    ensures Inv(g, ids, Popped(s), n)
  {
    hide NodesOk, EdgesOk, Known;
    PoppedBefore(s);
    PoppedNodes(g, ids, s);
    PoppedEdges(g, ids, s);
    PoppedWork(g, ids, s);
    hide HandledBefore;
  }

  /** Whatever was to be handled still is. */
  lemma PoppedBefore(s: State)
    requires s.workList != []
    ensures forall p: int, v: Vertex :: HandledBefore(s, p, v) ==> HandledBefore(Popped(s), p, v)
  {
    var t := Popped(s);
    forall p: int, v: Vertex | HandledBefore(s, p, v)
      ensures HandledBefore(t, p, v)
    {
      if v !in t.handled {
        var k: nat :| p < k < |s.workList| && s.workList[k] == v;
        assert t.workList[k] == v;
      }
    }
  }

  lemma PoppedNodes(g: AdjacencyList, ids: seq<nat>, s: State)
    requires NodesOk(g, ids, s) && s.workList != []
    ensures NodesOk(g, ids, Popped(s))
  {
    forall x: nat | x < |s.members|
      ensures MemberOk(g, ids, Popped(s), x)
    {
      assert MemberOk(g, ids, s, x);
    }
  }

  lemma PoppedEdges(g: AdjacencyList, ids: seq<nat>, s: State)
    requires EdgesOk(g, ids, s) && s.workList != []
    ensures EdgesOk(g, ids, Popped(s))
  {
    SameCopies(g, ids, s, Popped(s));
  }

  lemma PoppedWork(g: AdjacencyList, ids: seq<nat>, s: State)
    requires WorkOk(g, ids, s) && s.workList != []
    ensures WorkOk(g, ids, Popped(s))
    ensures forall v: Vertex :: Known(g, ids, s, v) <==> Known(g, ids, Popped(s), v)
  {
  }

  /** All targets of a vertex that is popped for a second time are handled already: it pushes nothing. */
  lemma NeverPushesAgain(g: AdjacencyList, ids: seq<nat>, s: State, n: nat)
    requires Inv(g, ids, s, n) && s.workList != []
    ensures var v := s.workList[|s.workList| - 1];
            forall i: nat :: (v, i) in s.done ==> v < |g.adj| && i < |g.adj[v]| && g.adj[v][i].target in s.handled
  {
    var v := s.workList[|s.workList| - 1];
    forall i: nat | (v, i) in s.done
      ensures v < |g.adj| && i < |g.adj[v]| && g.adj[v][i].target in s.handled
    {
      assert HandledBefore(s, |s.workList| - 1, g.adj[v][i].target);
    }
  }

  /** The copy of the i-th edge of v. */
  function WithEdge(g: AdjacencyList, ids: seq<nat>, s: State, v: Vertex, i: nat): State
    requires v < |g.adj| && v < |ids| && i < |g.adj[v]| && ids[v] < |s.eq2Vtx| && s.eq2Vtx[ids[v]].Some?
    requires s.eq2Vtx[ids[v]].value < |s.ret.adj|
    requires var t := g.adj[v][i].target; t < |ids| && ids[t] < |s.eq2Vtx| && s.eq2Vtx[ids[t]].Some?
  {
    var e := g.adj[v][i];
    var x := s.eq2Vtx[ids[v]].value;
    s.(ret := s.ret.(adj := s.ret.adj[x := s.ret.adj[x] + [e.WithTarget(s.eq2Vtx[ids[e.target]].value)]]),
       done := s.done + {(v, i)})
  }

  lemma WithEdgeEdges(g: AdjacencyList, ids: seq<nat>, s: State, v: Vertex, i: nat)
    requires NodesOk(g, ids, s) && EdgesOk(g, ids, s) && Known(g, ids, s, v) && v < |g.adj| && i < |g.adj[v]|
    requires Known(g, ids, s, g.adj[v][i].target)
    ensures s.eq2Vtx[ids[v]].value < |s.ret.adj|
    ensures EdgesOk(g, ids, WithEdge(g, ids, s, v, i))
  {
    var t := WithEdge(g, ids, s, v, i);
    forall x: nat, e: Edge | x < |t.ret.adj|
      ensures e in t.ret.adj[x] <==> Copied(g, ids, t, x, e)
    {
      WithEdgeCopies(g, ids, s, v, i, x, e);
      assert e in s.ret.adj[x] <==> Copied(g, ids, s, x, e);
    }
  }

  lemma WithEdgeCopies(g: AdjacencyList, ids: seq<nat>, s: State, v: Vertex, i: nat, x: Vertex, e: Edge)
    requires Known(g, ids, s, v) && v < |g.adj| && i < |g.adj[v]|
    requires Known(g, ids, s, g.adj[v][i].target) && s.eq2Vtx[ids[v]].value < |s.ret.adj|
    ensures Copied(g, ids, WithEdge(g, ids, s, v, i), x, e) <==>
            Copied(g, ids, s, x, e) || (s.eq2Vtx[ids[v]] == Some(x) && IsCopy(g, ids, s.eq2Vtx, e, v, i))
  {
    var t := WithEdge(g, ids, s, v, i);
    if h: nat, k: nat :| CopiedFrom(g, ids, t, x, e, h, k) {
      if (h, k) != (v, i) {
        assert CopiedFrom(g, ids, s, x, e, h, k);
      }
    }
    if h: nat, k: nat :| CopiedFrom(g, ids, s, x, e, h, k) {
      assert CopiedFrom(g, ids, t, x, e, h, k);
    }
    if s.eq2Vtx[ids[v]] == Some(x) && IsCopy(g, ids, s.eq2Vtx, e, v, i) {
      assert CopiedFrom(g, ids, t, x, e, v, i);
    }
  }

  lemma WithEdgeInv(g: AdjacencyList, ids: seq<nat>, s: State, v: Vertex, i: nat, n: nat)
    requires Inv(g, ids, s, n) && Known(g, ids, s, v) && v in s.handled && v < |g.adj| && i < |g.adj[v]|
    requires Known(g, ids, s, g.adj[v][i].target) && HandledBefore(s, -1, g.adj[v][i].target)
    requires forall p: nat :: p < |s.workList| && s.workList[p] == v ==> HandledBefore(s, p, g.adj[v][i].target)
    ensures s.eq2Vtx[ids[v]].value < |s.ret.adj|
    ensures Inv(g, ids, WithEdge(g, ids, s, v, i), n)
  {
    WithEdgeEdges(g, ids, s, v, i);
    var t := WithEdge(g, ids, s, v, i);
    assert forall p: int, w: Vertex :: HandledBefore(t, p, w) <==> HandledBefore(s, p, w);
    assert NodesOk(g, ids, t) by {
      forall x: nat | x < |t.members|
        ensures MemberOk(g, ids, t, x)
      {
        assert MemberOk(g, ids, s, x);
      }
    }
  }

  /** One round of the inner loop: the target gets a node, is scheduled unless handled, and the edge is copied. */
  function EdgeStep(g: AdjacencyList, ids: seq<nat>, s: State, v: Vertex, i: nat): State
    requires v < |g.adj| && i < |g.adj[v]| && g.adj[v][i].target < |ids| && g.adj[v][i].target < |g.nodes|
    requires ids[g.adj[v][i].target] < |s.eq2Vtx|
    requires v < |ids| && ids[v] < |s.eq2Vtx| && s.eq2Vtx[ids[v]].Some? && s.eq2Vtx[ids[v]].value < |s.ret.adj|
  {
    var t := g.adj[v][i].target;
    var s1 := WithNode(g, ids, s, t);
    var s2 := if t in s1.handled then s1 else Pushed(s1, t);
    WithEdge(g, ids, s2, v, i)
  }

  lemma ReachedTarget(g: AdjacencyList, v: Vertex, i: nat)
    requires g.Valid() && v < g.Size() && Reached(g, v) && i < |g.adj[v]|
    ensures Reached(g, g.adj[v][i].target)
  {
    var r: nat :| ReachedFromRoot(g, r, v);
    TargetEdge(g, v, i);
    Graphs.ReachEdge(g.Targets(), v, g.adj[v][i].target);
    Graphs.ReachTrans(g.Targets(), g.roots[r], v, g.adj[v][i].target);
    assert ReachedFromRoot(g, r, g.adj[v][i].target);
  }

  lemma EdgeStepInv(g: AdjacencyList, ids: seq<nat>, s: State, v: Vertex, i: nat, n: nat)
    requires g.Valid() && IsClassification(g, ids, |s.eq2Vtx|)
    requires Inv(g, ids, s, n) && v in s.handled && v < |g.adj| && i < |g.adj[v]|
    ensures s.eq2Vtx[ids[v]].Some? && s.eq2Vtx[ids[v]].value < |s.ret.adj|
    ensures Inv(g, ids, EdgeStep(g, ids, s, v, i), n)
  {
    var t := g.adj[v][i].target;
    assert Known(g, ids, s, v);
    ReachedTarget(g, v, i);
    WithNodeInv(g, ids, s, t, n);
    WithNodeKnown(g, ids, s, t, v);
    var s1 := WithNode(g, ids, s, t);
    if t !in s1.handled {
      PushedInv(g, ids, s1, t, n);
      PushedBefore(s1, t);
      assert Known(g, ids, Pushed(s1, t), v);
      WithEdgeInv(g, ids, Pushed(s1, t), v, i, n);
    } else {
      WithEdgeInv(g, ids, s1, v, i, n);
    }
  }

  /** Takes over the n-th root: its class becomes a root unless it is one already. */
  function RootStep(g: AdjacencyList, ids: seq<nat>, s: State, v: Vertex): State
    requires v < |ids| && ids[v] < |s.eq2Vtx| && v < |g.nodes|
  {
    var t := if s.eq2Vtx[ids[v]].Some? then s
             else var u := WithNode(g, ids, s, v); u.(ret := u.ret.(roots := u.ret.roots + [|s.ret.nodes|]));
    Pushed(t, v)
  }

  /** While the roots are taken over, every node is a root, nothing is handled and nothing copied. */
  ghost predicate OnlyRoots(s: State) {
    s.handled == {} && s.done == {} && (forall x: nat :: x in s.ret.roots <==> x < |s.members|)
  }

  lemma RootStepInv(g: AdjacencyList, ids: seq<nat>, s: State, n: nat)
    requires g.Valid() && IsClassification(g, ids, |s.eq2Vtx|)
    requires Inv(g, ids, s, n) && OnlyRoots(s) && n < |g.roots|
    ensures g.roots[n] < |g.nodes|
    ensures Inv(g, ids, RootStep(g, ids, s, g.roots[n]), n + 1) && OnlyRoots(RootStep(g, ids, s, g.roots[n]))
  {
    var v := g.roots[n];
    Graphs.ReachSelf(g.Targets(), v);
    assert ReachedFromRoot(g, n, v);
    var s1 := WithNode(g, ids, s, v);
    WithNodeInv(g, ids, s, v, n);
    var s2 := s1.(ret := s1.ret.(roots := NewRoots(s, v, ids)));
    NewRootsOk(g, ids, s, s1, n);
    WithRoots(g, ids, s1, NewRoots(s, v, ids));
    forall i: nat | i < n
      ensures Known(g, ids, s2, g.roots[i]) && HandledBefore(s2, -1, g.roots[i])
    {
      assert Known(g, ids, s1, g.roots[i]) && HandledBefore(s1, -1, g.roots[i]);
    }
    PushedOnRoots(g, ids, s2, v, n);
  }

  /** Registering a root touches nothing else. */
  lemma WithRoots(g: AdjacencyList, ids: seq<nat>, s: State, roots: seq<Vertex>)
    requires NodesOk(g, ids, s) && WorkOk(g, ids, s) && DoneOk(g, s) && EdgesOk(g, ids, s)
    ensures var t := s.(ret := s.ret.(roots := roots));
            NodesOk(g, ids, t) && WorkOk(g, ids, t) && DoneOk(g, t) && EdgesOk(g, ids, t)
  {
    var t := s.(ret := s.ret.(roots := roots));
    forall x: nat | x < |t.members|
      ensures MemberOk(g, ids, t, x)
    {
      assert MemberOk(g, ids, s, x);
    }
    SameCopies(g, ids, s, t);
    assert forall p: int, w: Vertex :: HandledBefore(t, p, w) <==> HandledBefore(s, p, w);
  }

  function NewRoots(s: State, v: Vertex, ids: seq<nat>): seq<Vertex>
    requires v < |ids| && ids[v] < |s.eq2Vtx|
  {
    if s.eq2Vtx[ids[v]].Some? then s.ret.roots else s.ret.roots + [|s.ret.nodes|]
  }

  lemma NewRootsOk(g: AdjacencyList, ids: seq<nat>, s: State, u: State, n: nat)
    requires n < |g.roots| && g.roots[n] < |ids| && g.roots[n] < |g.nodes| && ids[g.roots[n]] < |s.eq2Vtx|
    requires s.eq2Vtx[ids[g.roots[n]]].Some? ==> s.eq2Vtx[ids[g.roots[n]]].value < |s.members| == |s.ret.nodes|
    requires |s.members| == |s.ret.nodes| && OnlyRoots(s) && Distinct(s.ret.roots)
    requires u == WithNode(g, ids, s, g.roots[n])
    requires forall x: nat :: x in s.ret.roots <==> IsRootOf(g, ids, u.eq2Vtx, n, x)
    ensures Distinct(NewRoots(s, g.roots[n], ids))
    ensures forall x: nat :: x in NewRoots(s, g.roots[n], ids) <==> x < |u.members|
    ensures forall x: nat :: x in NewRoots(s, g.roots[n], ids) <==> IsRootOf(g, ids, u.eq2Vtx, n + 1, x)
  {
    var roots := NewRoots(s, g.roots[n], ids);
    assert forall i: nat :: i < |s.ret.roots| ==> s.ret.roots[i] in s.ret.roots;
    forall x: nat
      ensures x in roots <==> IsRootOf(g, ids, u.eq2Vtx, n + 1, x)
    {
      OneMoreRoot(g, ids, u.eq2Vtx, n, x);
    }
  }

  lemma OneMoreRoot(g: AdjacencyList, ids: seq<nat>, eq2Vtx: seq<Option<Vertex>>, n: nat, x: Vertex)
    requires n < |g.roots| && g.roots[n] < |ids| && ids[g.roots[n]] < |eq2Vtx|
    ensures IsRootOf(g, ids, eq2Vtx, n + 1, x) <==>
            IsRootOf(g, ids, eq2Vtx, n, x) || eq2Vtx[ids[g.roots[n]]] == Some(x)
  {
    if i: nat :| i < n && g.roots[i] < |ids| && ids[g.roots[i]] < |eq2Vtx| && eq2Vtx[ids[g.roots[i]]] == Some(x) {
      assert i < n + 1;
    }
  }

  lemma PushedOnRoots(g: AdjacencyList, ids: seq<nat>, s: State, v: Vertex, n: nat)
    requires NodesOk(g, ids, s) && WorkOk(g, ids, s) && DoneOk(g, s) && EdgesOk(g, ids, s) && OnlyRoots(s)
    requires n < |g.roots| && v == g.roots[n] && Known(g, ids, s, v) && Distinct(s.ret.roots)
    requires forall i: nat :: i < n ==> Known(g, ids, s, g.roots[i]) && HandledBefore(s, -1, g.roots[i])
    requires forall x: nat :: x in s.ret.roots <==> IsRootOf(g, ids, s.eq2Vtx, n + 1, x)
    ensures Inv(g, ids, Pushed(s, v), n + 1) && OnlyRoots(Pushed(s, v))
  {
    var t := Pushed(s, v);
    PushedBefore(s, v);
    SameCopies(g, ids, s, t);
    forall x: nat | x < |t.members|
      ensures MemberOk(g, ids, t, x)
    {
      assert MemberOk(g, ids, s, x);
    }
  }

  /** The reached classes and the new nodes correspond one to one, and every node carries the tag of a member. */
  ghost predicate NodesAreClasses(g: AdjacencyList, ids: seq<nat>, eq2Vtx: seq<Option<Vertex>>, ret: AdjacencyList) {
    && (forall c: nat :: c < |eq2Vtx| ==> (eq2Vtx[c].Some? <==> ClassReached(g, ids, c)))
    && (forall c: nat, d: nat :: c < |eq2Vtx| && d < |eq2Vtx| && eq2Vtx[c].Some? && eq2Vtx[c] == eq2Vtx[d] ==> c == d)
    && (forall c: nat :: c < |eq2Vtx| && eq2Vtx[c].Some? ==> eq2Vtx[c].value < ret.Size())
    && (forall x: nat :: x < ret.Size() ==> HasMember(g, ids, eq2Vtx, ret, x))
  }

  /** Every node has the edges of the reached members of its class, each one once. */
  ghost predicate EdgesAreInherited(g: AdjacencyList, ids: seq<nat>, eq2Vtx: seq<Option<Vertex>>, ret: AdjacencyList) {
    && (forall x: nat, e: Edge :: x < ret.Size() ==> (e in ret.adj[x] <==> InheritedEdge(g, ids, eq2Vtx, x, e)))
    && (forall x: nat :: x < ret.Size() ==> Distinct(ret.adj[x]))
  }

  ghost predicate IsQuotient(g: AdjacencyList, ids: seq<nat>, eq2Vtx: seq<Option<Vertex>>, ret: AdjacencyList) {
    && ret.Valid()
    && NodesAreClasses(g, ids, eq2Vtx, ret)
    && EdgesAreInherited(g, ids, eq2Vtx, ret)
    && (forall x: nat :: x in ret.roots <==> IsRootOf(g, ids, eq2Vtx, |g.roots|, x))
    && Distinct(ret.roots)
  }

  ghost predicate HasMember(g: AdjacencyList, ids: seq<nat>, eq2Vtx: seq<Option<Vertex>>, ret: AdjacencyList, x: Vertex) {
    exists v: nat :: MadeFrom(g, ids, eq2Vtx, ret, x, v)
  }

  ghost predicate ClassReached(g: AdjacencyList, ids: seq<nat>, c: nat) {
    exists v: nat :: v < |ids| && Reached(g, v) && ids[v] == c
  }

  /** x stands for the class of v and carries its tag. */
  ghost predicate MadeFrom(g: AdjacencyList, ids: seq<nat>, eq2Vtx: seq<Option<Vertex>>, ret: AdjacencyList, x: Vertex, v: Vertex) {
    && v < |ids| && v < |g.nodes| && Reached(g, v) && ids[v] < |eq2Vtx| && eq2Vtx[ids[v]] == Some(x)
    && x < |ret.nodes| && ret.nodes[x] == g.nodes[v]
  }

  /** Some reached member of the class has this edge. */
  ghost predicate InheritedEdge(g: AdjacencyList, ids: seq<nat>, eq2Vtx: seq<Option<Vertex>>, x: Vertex, e: Edge) {
    exists h: nat, i: nat :: InheritedFrom(g, ids, eq2Vtx, x, e, h, i)
  }

  ghost predicate InheritedFrom(g: AdjacencyList, ids: seq<nat>, eq2Vtx: seq<Option<Vertex>>, x: Vertex, e: Edge, h: Vertex, i: nat) {
    && h < |ids| && Reached(g, h) && ids[h] < |eq2Vtx| && eq2Vtx[ids[h]] == Some(x)
    && IsCopy(g, ids, eq2Vtx, e, h, i)
  }

  /** All edges of all handled vertices have been copied and nothing is left to do. */
  ghost predicate Exhausted(g: AdjacencyList, s: State) {
    && s.workList == []
    && forall h: nat, i: nat :: h in s.handled && h < |g.adj| && i < |g.adj[h]| ==> (h, i) in s.done
  }

  lemma ExhaustedHandlesReached(g: AdjacencyList, ids: seq<nat>, s: State, v: Vertex)
    requires g.Valid() && IsClassification(g, ids, |s.eq2Vtx|) && Inv(g, ids, s, |g.roots|) && Exhausted(g, s)
    requires Reached(g, v)
    ensures v in s.handled
  {
    var r: nat :| ReachedFromRoot(g, r, v);
    assert HandledBefore(s, -1, g.roots[r]);
    forall h: nat, w: nat | h in s.handled && Graphs.Edge(g.Targets(), h, w)
      ensures w in s.handled
    {
      var i: nat :| i < |g.Targets()[h]| && g.Targets()[h][i] == w;
      assert (h, i) in s.done;
      assert HandledBefore(s, -1, g.adj[h][i].target);
    }
    Graphs.ReachClosed(g.Targets(), s.handled, g.roots[r], v);
  }

  lemma ExhaustedCopies(g: AdjacencyList, ids: seq<nat>, s: State, x: Vertex, e: Edge)
    requires g.Valid() && IsClassification(g, ids, |s.eq2Vtx|) && Inv(g, ids, s, |g.roots|) && Exhausted(g, s)
    ensures Copied(g, ids, s, x, e) <==> InheritedEdge(g, ids, s.eq2Vtx, x, e)
  {
    if h: nat, i: nat :| CopiedFrom(g, ids, s, x, e, h, i) {
      assert h in s.handled && Known(g, ids, s, h);
      assert InheritedFrom(g, ids, s.eq2Vtx, x, e, h, i);
    }
    if h: nat, i: nat :| InheritedFrom(g, ids, s.eq2Vtx, x, e, h, i) {
      ExhaustedHandlesReached(g, ids, s, h);
      assert CopiedFrom(g, ids, s, x, e, h, i);
    }
  }

  /** Removing duplicate edges leaves the set of edges of every node. */
  ghost predicate Deduplicated(a: AdjacencyList, b: AdjacencyList) {
    && a.nodes == b.nodes && a.roots == b.roots && |a.adj| == |b.adj|
    && (forall x: nat, e: Edge :: x < |a.adj| ==> (e in b.adj[x] <==> e in a.adj[x]))
    && (forall x: nat :: x < |b.adj| ==> Distinct(b.adj[x]))
  }

  lemma ExhaustedClasses(g: AdjacencyList, ids: seq<nat>, s: State, c: nat)
    requires g.Valid() && IsClassification(g, ids, |s.eq2Vtx|) && Inv(g, ids, s, |g.roots|) && Exhausted(g, s)
    requires c < |s.eq2Vtx|
    ensures s.eq2Vtx[c].Some? <==> ClassReached(g, ids, c)
  {
    if s.eq2Vtx[c].Some? {
      assert MemberOk(g, ids, s, s.eq2Vtx[c].value);
      assert Known(g, ids, s, s.members[s.eq2Vtx[c].value]);
    }
    if ClassReached(g, ids, c) {
      var v: nat :| v < |ids| && Reached(g, v) && ids[v] == c;
      ExhaustedHandlesReached(g, ids, s, v);
      assert Known(g, ids, s, v);
    }
  }

  lemma NodesAreClassesFrom(g: AdjacencyList, ids: seq<nat>, s: State, ret: AdjacencyList)
    requires NodesOk(g, ids, s) && ret.nodes == s.ret.nodes && |ret.adj| == |s.ret.adj|
    requires forall c: nat :: c < |s.eq2Vtx| ==> (s.eq2Vtx[c].Some? <==> ClassReached(g, ids, c))
    ensures NodesAreClasses(g, ids, s.eq2Vtx, ret)
  {
    forall x: nat | x < ret.Size()
      ensures HasMember(g, ids, s.eq2Vtx, ret, x)
    {
      assert MemberOk(g, ids, s, x);
      assert MadeFrom(g, ids, s.eq2Vtx, ret, x, s.members[x]);
    }
  }

  lemma ExhaustedNodes(g: AdjacencyList, ids: seq<nat>, s: State, ret: AdjacencyList)
    requires g.Valid() && IsClassification(g, ids, |s.eq2Vtx|) && Inv(g, ids, s, |g.roots|) && Exhausted(g, s)
    requires ret.nodes == s.ret.nodes && |ret.adj| == |s.ret.adj|
    ensures NodesAreClasses(g, ids, s.eq2Vtx, ret)
  {
    forall c: nat | c < |s.eq2Vtx|
      ensures s.eq2Vtx[c].Some? <==> ClassReached(g, ids, c)
    {
      ExhaustedClasses(g, ids, s, c);
    }
    NodesAreClassesFrom(g, ids, s, ret);
  }

  lemma ExhaustedEdges(g: AdjacencyList, ids: seq<nat>, s: State, ret: AdjacencyList)
    requires g.Valid() && IsClassification(g, ids, |s.eq2Vtx|) && Inv(g, ids, s, |g.roots|) && Exhausted(g, s)
    requires Deduplicated(s.ret, ret)
    ensures EdgesAreInherited(g, ids, s.eq2Vtx, ret)
  {
    forall x: nat, e: Edge | x < ret.Size()
      ensures e in ret.adj[x] <==> InheritedEdge(g, ids, s.eq2Vtx, x, e)
    {
      ExhaustedCopies(g, ids, s, x, e);
    }
  }

  lemma ExhaustedIsQuotient(g: AdjacencyList, ids: seq<nat>, s: State, ret: AdjacencyList)
    requires g.Valid() && IsClassification(g, ids, |s.eq2Vtx|) && Inv(g, ids, s, |g.roots|) && Exhausted(g, s)
    requires Deduplicated(s.ret, ret)
    ensures IsQuotient(g, ids, s.eq2Vtx, ret)
  {
    ExhaustedNodes(g, ids, s, ret);
    ExhaustedEdges(g, ids, s, ret);
    ExhaustedIsValid(g, ids, s, ret);
  }

  lemma ExhaustedIsValid(g: AdjacencyList, ids: seq<nat>, s: State, ret: AdjacencyList)
    requires NodesOk(g, ids, s) && EdgesOk(g, ids, s) && RootsOk(g, ids, s, |g.roots|) && Deduplicated(s.ret, ret)
    ensures ret.Valid()
  {
    forall u: nat, i: nat | u < |ret.adj| && i < |ret.adj[u]|
      ensures ret.adj[u][i].target < |ret.adj|
    {
      var e := ret.adj[u][i];
      assert e in ret.adj[u];
      assert Copied(g, ids, s, u, e);
    }
    forall i: nat | i < |ret.roots|
      ensures ret.roots[i] < |ret.adj|
    {
      assert ret.roots[i] in s.ret.roots;
      assert IsRootOf(g, ids, s.eq2Vtx, |g.roots|, ret.roots[i]);
    }
  }

  /** The graph under construction with the local variables of the construction. */
  class Construction {
    const g: AdjacencyList
    const ids: seq<nat>
    var nodes: seq<Tag>
    var adj: seq<seq<Edge>>
    var roots: seq<Vertex>
    var eq2Vtx: seq<Option<Vertex>>
    var workList: seq<Vertex>
    var handled: set<Vertex>
    ghost var members: seq<Vertex>
    ghost var done: set<(Vertex, nat)>

    ghost function Snapshot(): State
      reads this
    {
      State(AdjacencyList(nodes, adj, roots), eq2Vtx, workList, handled, members, done)
    }

    ghost predicate Valid(n: nat)
      reads this
    {
      g.Valid() && IsClassification(g, ids, |eq2Vtx|) && Inv(g, ids, Snapshot(), n)
    }

    /** Every edge of a handled vertex has been copied. */
    ghost predicate AllCopied()
      reads this
    {
      forall h: nat, k: nat :: h in handled && h < |g.adj| && k < |g.adj[h]| ==> (h, k) in done
    }

    /** The same, where the edges of v have been copied only up to position i. */
    ghost predicate CopiedUpTo(v: Vertex, i: nat)
      reads this
    {
      forall h: nat, k: nat :: h in handled && h < |g.adj| && k < |g.adj[h]| && (h != v || k < i) ==> (h, k) in done
    }

    constructor (g: AdjacencyList, ids: seq<nat>, numClasses: nat)
      requires g.Valid() && IsClassification(g, ids, numClasses)
      ensures this.g == g && this.ids == ids && |eq2Vtx| == numClasses
      ensures Valid(0) && OnlyRoots(Snapshot())
    {
      this.g, this.ids := g, ids;
      nodes, adj, roots := [], [], [];
      eq2Vtx := seq(numClasses, _ => None);
      workList, handled, members, done := [], {}, [], {};
    }

    method AddNode(tag: Tag, ghost member: Vertex) returns (x: Vertex)
      requires |nodes| == |adj|
      modifies `nodes, `adj, `members
      ensures x == old(|nodes|) && nodes == old(nodes) + [tag] && adj == old(adj) + [[]]
      ensures members == old(members) + [member]
    {
      x := |nodes|;
      nodes, adj, members := nodes + [tag], adj + [[]], members + [member];
    }

    method TakeRoot(n: nat)
      requires Valid(n) && OnlyRoots(Snapshot()) && n < |g.roots|
      modifies this
      ensures Valid(n + 1) && OnlyRoots(Snapshot()) && |eq2Vtx| == old(|eq2Vtx|)
    {
      RootStepInv(g, ids, Snapshot(), n);
      ghost var s := Snapshot();
      var rt := g.roots[n];
      var eqRt := ids[rt];
      if eq2Vtx[eqRt].None? {
        var nwRt := AddNode(g.nodes[rt], rt);
        eq2Vtx := eq2Vtx[eqRt := Some(nwRt)];
        roots := roots + [nwRt];
      }
      workList := workList + [rt];
      assert Snapshot() == RootStep(g, ids, s, rt);
    }

    method CopyEdge(vtx: Vertex, i: nat)
      requires Valid(|g.roots|) && vtx in handled && vtx < |g.adj| && i < |g.adj[vtx]|
      modifies this
      ensures Valid(|g.roots|) && |eq2Vtx| == old(|eq2Vtx|) && handled == old(handled)
      ensures workList == if g.adj[vtx][i].target in handled then old(workList) else old(workList) + [g.adj[vtx][i].target]
      ensures done == old(done) + {(vtx, i)}
    {
      hide WorkOk, EdgesOk, RootsOk, DoneOk;
      ghost var s := Snapshot();
      EdgeStepInv(g, ids, s, vtx, i, |g.roots|);
      var nwVtx := eq2Vtx[ids[vtx]].value;
      var edge := g.adj[vtx][i];
      var eqTarget := ids[edge.target];
      if eq2Vtx[eqTarget].None? {
        var x := AddNode(g.nodes[edge.target], edge.target);
        eq2Vtx := eq2Vtx[eqTarget := Some(x)];
      }
      if edge.target !in handled {
        workList := workList + [edge.target];
      }
      var nwTarget := eq2Vtx[eqTarget].value;
      adj := adj[nwVtx := adj[nwVtx] + [edge.WithTarget(nwTarget)]];
      done := done + {(vtx, i)};
      assert Snapshot() == EdgeStep(g, ids, s, vtx, i);
    }

    method TakeNext() returns (vtx: Vertex)
      requires Valid(|g.roots|) && workList != [] && AllCopied()
      modifies `workList, `handled
      ensures vtx == old(workList)[|old(workList)| - 1] && vtx < |g.adj|
      ensures Snapshot() == Popped(old(Snapshot()))
      ensures Valid(|g.roots|) && CopiedUpTo(vtx, 0)
    {
      hide NodesOk, EdgesOk, RootsOk, DoneOk;
      ghost var s := Snapshot();
      vtx := workList[|workList| - 1];
      assert Known(g, ids, s, vtx);
      PoppedInv(g, ids, s, |g.roots|);
      workList := workList[..|workList| - 1];
      handled := handled + {vtx};
      assert Snapshot() == Popped(s);
    }

    /** Handles the last entry of the work list. Either it is handled for the first time or the list shrinks. */
    method HandleNext()
      requires Valid(|g.roots|) && workList != [] && AllCopied()
      modifies this
      ensures Valid(|g.roots|) && AllCopied() && |eq2Vtx| == old(|eq2Vtx|)
      ensures handled > old(handled) || (handled == old(handled) && |workList| < old(|workList|))
    {
      hide NodesOk, EdgesOk, RootsOk, WorkOk, DoneOk, Inv, IsClassification;
      ghost var s := Snapshot();
      NeverPushesAgain(g, ids, s, |g.roots|);
      var vtx := TakeNext();
      for i := 0 to |g.adj[vtx]|
        invariant Valid(|g.roots|) && CopiedUpTo(vtx, i) && |eq2Vtx| == old(|eq2Vtx|)
        invariant handled == s.handled + {vtx} && s.done <= done
        invariant vtx in s.handled ==> workList == s.workList[..|s.workList| - 1]
      {
        assert vtx in s.handled ==> (vtx, i) in s.done;
        CopyEdge(vtx, i);
      }
    }

    method DedupAll()
      requires |nodes| == |adj|
      modifies `adj
      ensures Deduplicated(old(Snapshot().ret), Snapshot().ret)
    {
      for x := 0 to |nodes|
        invariant |adj| == old(|adj|)
        invariant forall y: nat, e: Edge :: y < |adj| ==> (e in adj[y] <==> e in old(adj[y]))
        invariant forall y: nat :: y < x ==> Distinct(adj[y])
        invariant forall y: nat :: x <= y < |adj| ==> adj[y] == old(adj[y])
      {
        var edges := DedupOutEdges(adj[x]);
        adj := adj[x := edges];
      }
    }
  }

  /** The elements of q other than e, in order. */
  function Without(q: seq<Edge>, e: Edge): seq<Edge> {
    if q == [] then [] else (if q[0] == e then [] else [q[0]]) + Without(q[1..], e)
  }

  lemma WithoutMembers(q: seq<Edge>, e: Edge)
    ensures forall f :: f in Without(q, e) <==> f in q && f != e
    ensures |Without(q, e)| <= |q|
  {
    if q != [] {
      WithoutMembers(q[1..], e);
      assert q == [q[0]] + q[1..];
    }
  }

  /** Keeps the first of equal edges: every edge in turn is removed from the rest. */
  method DedupOutEdges(q: seq<Edge>) returns (r: seq<Edge>)
    ensures Distinct(r) && forall e :: e in r <==> e in q
  {
    r := q;
    var it := 0;
    while it < |r|
      invariant it <= |r| && forall e :: e in r <==> e in q
      invariant forall i: nat, j: nat :: i < it && i < j < |r| ==> r[i] != r[j]
      decreases |r| - it
    {
      var rest := Without(r[it + 1..], r[it]);
      WithoutMembers(r[it + 1..], r[it]);
      RemoveRepeats(r, it, rest);
      r := r[..it + 1] + rest;
      it := it + 1;
    }
  }

  lemma RemoveRepeats(r: seq<Edge>, it: nat, rest: seq<Edge>)
    requires it < |r| && forall i: nat, j: nat :: i < it && i < j < |r| ==> r[i] != r[j]
    requires forall f :: f in rest <==> f in r[it + 1..] && f != r[it]
    ensures var t := r[..it + 1] + rest;
            (forall e :: e in t <==> e in r) && (forall i: nat, j: nat :: i < it + 1 && i < j < |t| ==> t[i] != t[j])
  {
    var t := r[..it + 1] + rest;
    assert r == r[..it + 1] + r[it + 1..] && r[it] in r[..it + 1];
    forall i: nat, j: nat | i < it + 1 && i < j < |t|
      ensures t[i] != t[j]
    {
      if j > it {
        assert t[j] in rest;
        var k: nat :| k < |r| - it - 1 && r[it + 1..][k] == t[j];
        assert r[it + 1 + k] == t[j];
      }
    }
  }

  ghost predicate StrictOrder(less: (Edge, Edge) -> bool) {
    && (forall e :: !less(e, e))
    && (forall e, f :: e != f ==> less(e, f) || less(f, e))
    && (forall e, f, h :: less(e, f) && less(f, h) ==> less(e, h))
  }

  /** The other way for edges with an order, on whatever rearrangement a sorting of the edges may return: drops
      every edge that equals the one before it. */
  method DedupOutEdgesSorted(less: (Edge, Edge) -> bool, q: seq<Edge>, sorted: seq<Edge>) returns (r: seq<Edge>)
    requires StrictOrder(less) && multiset(sorted) == multiset(q)
    requires forall i: nat, j: nat :: i < j < |sorted| ==> !less(sorted[j], sorted[i])
    ensures Distinct(r) && forall e :: e in r <==> e in q
  {
    r := [];
    for i := 0 to |sorted|
      invariant forall e :: e in r <==> e in sorted[..i]
      invariant forall a: nat, b: nat :: a < b < |r| ==> less(r[a], r[b])
      invariant (r == [] <==> i == 0) && (i > 0 ==> r[|r| - 1] == sorted[i - 1])
    {
      assert sorted[..i + 1] == sorted[..i] + [sorted[i]];
      if r == [] || r[|r| - 1] != sorted[i] {
        assert i > 0 ==> less(sorted[i - 1], sorted[i]);
        r := r + [sorted[i]];
      }
    }
    assert sorted[..|sorted|] == sorted;
    assert forall e :: e in sorted <==> e in multiset(sorted);
  }

  lemma HandledInRange(g: AdjacencyList, ids: seq<nat>, s: State, n: nat)
    requires g.Valid() && IsClassification(g, ids, |s.eq2Vtx|) && Inv(g, ids, s, n)
    ensures s.handled <= Graphs.Range(|g.adj|) && |s.ret.nodes| == |s.ret.adj|
  {
    Graphs.RangeSize(|g.adj|);
    forall h | h in s.handled
      ensures h < |g.adj|
    {
      assert Known(g, ids, s, h);
    }
  }

  /** Builds the quotient graph; also returns which node stands for which class. */
  method CreateEquivalentGraphFrom(g: AdjacencyList, ids: seq<nat>, numClasses: nat)
    returns (ret: AdjacencyList, eq2Vtx: seq<Option<Vertex>>)
    requires g.Valid() && IsClassification(g, ids, numClasses)
    ensures |eq2Vtx| == numClasses && IsQuotient(g, ids, eq2Vtx, ret)
    ensures g.Size() == |ids| && forall v: nat :: v < |ids| ==> ids[v] < numClasses
    ensures forall c: nat :: c < numClasses ==>
              (eq2Vtx[c].Some? <==>
                 exists v: nat, r: nat :: v < |ids| && ids[v] == c && r < |g.roots| && Graphs.Reach(g.Targets(), g.roots[r], v))
    ensures forall x: nat, e: Edge {:trigger e in ret.adj[x]} :: x < |ret.adj| ==>
              (e in ret.adj[x] <==>
                 exists h: nat, i: nat, r: nat :: h < |g.adj| && i < |g.adj[h]| && r < |g.roots| && Graphs.Reach(g.Targets(), g.roots[r], h) &&
                   eq2Vtx[ids[h]] == Some(x) && e.weight == g.adj[h][i].weight && eq2Vtx[ids[g.adj[h][i].target]] == Some(e.target))
    ensures forall x: nat :: x in ret.roots <==> exists r: nat :: r < |g.roots| && eq2Vtx[ids[g.roots[r]]] == Some(x)
  {
    hide IsQuotient;
    ret, eq2Vtx := BuildQuotient(g, ids, numClasses);
    QuotientByFields(g, ids, eq2Vtx, ret);
  }

  method BuildQuotient(g: AdjacencyList, ids: seq<nat>, numClasses: nat) returns (ret: AdjacencyList, eq2Vtx: seq<Option<Vertex>>)
    requires g.Valid() && IsClassification(g, ids, numClasses)
    ensures |eq2Vtx| == numClasses && IsQuotient(g, ids, eq2Vtx, ret)
  {
    hide NodesOk, EdgesOk, RootsOk, DoneOk, WorkOk, Inv, IsClassification;
    var c := new Construction(g, ids, numClasses);
    for n := 0 to |g.roots|
      invariant fresh(c) && c.g == g && c.ids == ids && |c.eq2Vtx| == numClasses
      invariant c.Valid(n) && OnlyRoots(c.Snapshot())
    {
      c.TakeRoot(n);
    }
    while c.workList != []
      invariant fresh(c) && c.g == g && c.ids == ids && |c.eq2Vtx| == numClasses
      invariant c.Valid(|g.roots|) && c.AllCopied()
      decreases Graphs.Range(|g.adj|) - c.handled, |c.workList|
    {
      c.HandleNext();
      HandledInRange(g, ids, c.Snapshot(), |g.roots|);
    }
    ghost var s := c.Snapshot();
    HandledInRange(g, ids, s, |g.roots|);
    c.DedupAll();
    ret, eq2Vtx := AdjacencyList(c.nodes, c.adj, c.roots), c.eq2Vtx;
    ExhaustedIsQuotient(g, ids, s, ret);
  }

  /** Nodes, edges and roots of the quotient in terms of the graph that it was built from. */
  lemma QuotientByFields(g: AdjacencyList, ids: seq<nat>, eq2Vtx: seq<Option<Vertex>>, ret: AdjacencyList)
    requires g.Valid() && IsClassification(g, ids, |eq2Vtx|) && IsQuotient(g, ids, eq2Vtx, ret)
    ensures forall c: nat :: c < |eq2Vtx| ==>
              (eq2Vtx[c].Some? <==>
                 exists v: nat, r: nat :: v < |ids| && ids[v] == c && r < |g.roots| && Graphs.Reach(g.Targets(), g.roots[r], v))
    ensures forall x: nat, e: Edge {:trigger e in ret.adj[x]} :: x < |ret.adj| ==>
              (e in ret.adj[x] <==>
                 exists h: nat, i: nat, r: nat :: h < |g.adj| && i < |g.adj[h]| && r < |g.roots| && Graphs.Reach(g.Targets(), g.roots[r], h) &&
                   eq2Vtx[ids[h]] == Some(x) && e.weight == g.adj[h][i].weight && eq2Vtx[ids[g.adj[h][i].target]] == Some(e.target))
    ensures forall x: nat :: x in ret.roots <==> exists r: nat :: r < |g.roots| && eq2Vtx[ids[g.roots[r]]] == Some(x)
  {
    forall c: nat | c < |eq2Vtx|
      ensures eq2Vtx[c].Some? <==>
                exists v: nat, r: nat :: v < |ids| && ids[v] == c && r < |g.roots| && Graphs.Reach(g.Targets(), g.roots[r], v)
    {
      NodeByFields(g, ids, eq2Vtx, ret, c);
    }
    forall x: nat, e: Edge {:trigger e in ret.adj[x]} | x < |ret.adj|
      ensures e in ret.adj[x] <==>
                exists h: nat, i: nat, r: nat :: h < |g.adj| && i < |g.adj[h]| && r < |g.roots| && Graphs.Reach(g.Targets(), g.roots[r], h) &&
                  eq2Vtx[ids[h]] == Some(x) && e.weight == g.adj[h][i].weight && eq2Vtx[ids[g.adj[h][i].target]] == Some(e.target)
    {
      EdgeByFields(g, ids, eq2Vtx, ret, x, e);
    }
    RootsByFields(g, ids, eq2Vtx, ret);
  }

  lemma NodeByFields(g: AdjacencyList, ids: seq<nat>, eq2Vtx: seq<Option<Vertex>>, ret: AdjacencyList, c: nat)
    requires g.Valid() && IsClassification(g, ids, |eq2Vtx|) && IsQuotient(g, ids, eq2Vtx, ret) && c < |eq2Vtx|
    ensures eq2Vtx[c].Some? <==>
              exists v: nat, r: nat :: v < |ids| && ids[v] == c && r < |g.roots| && Graphs.Reach(g.Targets(), g.roots[r], v)
  {
    if v: nat :| v < |ids| && Reached(g, v) && ids[v] == c {
      var r: nat :| ReachedFromRoot(g, r, v);
    }
    if v: nat, r: nat :| v < |ids| && ids[v] == c && r < |g.roots| && Graphs.Reach(g.Targets(), g.roots[r], v) {
      assert ReachedFromRoot(g, r, v);
    }
  }

  lemma EdgeByFields(g: AdjacencyList, ids: seq<nat>, eq2Vtx: seq<Option<Vertex>>, ret: AdjacencyList, x: Vertex, e: Edge)
    requires g.Valid() && IsClassification(g, ids, |eq2Vtx|) && IsQuotient(g, ids, eq2Vtx, ret) && x < |ret.adj|
    ensures e in ret.adj[x] <==>
              exists h: nat, i: nat, r: nat :: h < |g.adj| && i < |g.adj[h]| && r < |g.roots| && Graphs.Reach(g.Targets(), g.roots[r], h) &&
                eq2Vtx[ids[h]] == Some(x) && e.weight == g.adj[h][i].weight && eq2Vtx[ids[g.adj[h][i].target]] == Some(e.target)
  {
    if h: nat, i: nat :| InheritedFrom(g, ids, eq2Vtx, x, e, h, i) {
      var r: nat :| ReachedFromRoot(g, r, h);
      assert h < |g.adj| && i < |g.adj[h]|;
    }
    if h: nat, i: nat, r: nat :| h < |g.adj| && i < |g.adj[h]| && r < |g.roots| && Graphs.Reach(g.Targets(), g.roots[r], h)
                                 && eq2Vtx[ids[h]] == Some(x) && e.weight == g.adj[h][i].weight
                                 && eq2Vtx[ids[g.adj[h][i].target]] == Some(e.target) {
      assert ReachedFromRoot(g, r, h);
      assert InheritedFrom(g, ids, eq2Vtx, x, e, h, i);
      assert InheritedEdge(g, ids, eq2Vtx, x, e);
    }
  }

  lemma RootsByFields(g: AdjacencyList, ids: seq<nat>, eq2Vtx: seq<Option<Vertex>>, ret: AdjacencyList)
    requires g.Valid() && IsClassification(g, ids, |eq2Vtx|) && IsQuotient(g, ids, eq2Vtx, ret)
    ensures forall x: nat :: x in ret.roots <==> exists r: nat :: r < |g.roots| && eq2Vtx[ids[g.roots[r]]] == Some(x)
  {
    forall x: nat
      ensures IsRootOf(g, ids, eq2Vtx, |g.roots|, x) <==> exists r: nat :: r < |g.roots| && eq2Vtx[ids[g.roots[r]]] == Some(x)
    {
      if r: nat :| r < |g.roots| && eq2Vtx[ids[g.roots[r]]] == Some(x) {
        assert g.roots[r] < |ids| && ids[g.roots[r]] < |eq2Vtx|;
      }
    }
  }
}
