/** The condensation of the call graph, with edges from callee components to caller components. */
module SccCallers {
  import opened Graphs
  import opened CallGraphSccs
  import opened Sequences

  /** The other index of the call graph: the call sites that may call a function, and the function that
      contains a call site. Call sites of functions that have no id are not in functionOf. */
  datatype CallerIndex = CallerIndex(callersOf: seq<seq<CallSite>>, functionOf: map<CallSite, FunctionId>)

  ghost predicate CalledFrom(c: CallerIndex, f: FunctionId, cs: CallSite, g: FunctionId)
    requires g < |c.callersOf|
  {
    cs in c.callersOf[g] && cs in c.functionOf && c.functionOf[cs] == f
  }

  /** Both indexes of the call graph describe the same call edges. */
  ghost predicate Inverse(g: Graph, c: CallerIndex) {
    && |c.callersOf| == |g|
    && (forall cs :: cs in c.functionOf ==> c.functionOf[cs] < |g|)
    && (forall f: nat, k: nat :: f < |g| && k < |g| ==> (Edge(g, f, k) <==> exists cs :: CalledFrom(c, f, cs, k)))
  }

  datatype SccDependencyGraph = SccDependencyGraph(childrenOfScc: Graph, sccRoots: seq<SccId>)

  /** A call from f to g that leaves the component of f. */
  ghost predicate CallsAcross(g: Graph, h: SccHolder, f: nat, k: nat, callee: SccId, caller: SccId) {
    && f < |h.sccOfNode| && k < |h.sccOfNode|
    && Edge(g, f, k) && h.sccOfNode[f] == caller && h.sccOfNode[k] == callee && caller != callee
  }

  /** Some function of the caller component calls some function of the different callee component. */
  ghost predicate ComponentCalls(g: Graph, h: SccHolder, caller: SccId, callee: SccId) {
    exists f: nat, k: nat :: CallsAcross(g, h, f, k, callee, caller)
  }

  ghost predicate IsCondensation(g: Graph, h: SccHolder, d: SccDependencyGraph) {
    && |d.childrenOfScc| == |h.nodesInScc|
    && (forall s: nat :: s < |d.childrenOfScc| ==> Distinct(d.childrenOfScc[s]))
    && (forall s: nat, t: nat :: s < |h.nodesInScc| ==> (Edge(d.childrenOfScc, s, t) <==> ComponentCalls(g, h, t, s)))
    && Ascending(d.sccRoots)
    && (forall r: nat :: r in d.sccRoots <==> r < |h.nodesInScc| && forall s: nat :: !ComponentCalls(g, h, r, s))
  }

  /** The dependency that the caller cs of function k contributes: callee component, caller component. */
  ghost function DepsOfCaller(c: CallerIndex, h: SccHolder, k: FunctionId, cs: CallSite): set<(SccId, SccId)>
    requires k < |h.sccOfNode|
  {
    if cs in c.functionOf && c.functionOf[cs] < |h.sccOfNode| && h.sccOfNode[c.functionOf[cs]] != h.sccOfNode[k]
    then {(h.sccOfNode[k], h.sccOfNode[c.functionOf[cs]])}
    else {}
  }

  ghost function DepsOfCallers(c: CallerIndex, h: SccHolder, k: FunctionId, callers: seq<CallSite>): set<(SccId, SccId)>
    requires k < |h.sccOfNode|
  {
    if callers == [] then {}
    else DepsOfCallers(c, h, k, callers[..|callers| - 1]) + DepsOfCaller(c, h, k, callers[|callers| - 1])
  }

  /** All dependencies into the functions below k. */
  ghost function DepsBelow(c: CallerIndex, h: SccHolder, k: nat): set<(SccId, SccId)>
    requires k <= |h.sccOfNode| && k <= |c.callersOf|
  {
    if k == 0 then {} else DepsBelow(c, h, k - 1) + DepsOfCallers(c, h, k - 1, c.callersOf[k - 1])
  }

  ghost predicate Represents(children: Graph, leaves: set<SccId>, n: nat, deps: set<(SccId, SccId)>) {
    && |children| == n
    && (forall s: nat :: s < n ==> Distinct(children[s]))
    && (forall s: nat, t: nat :: Edge(children, s, t) <==> (s, t) in deps)
    && (forall r: nat :: r in leaves <==> r < n && forall s: nat :: (s, r) !in deps)
  }

  lemma DepsOfCallersMember(c: CallerIndex, h: SccHolder, k: FunctionId, callers: seq<CallSite>, d: (SccId, SccId))
    requires k < |h.sccOfNode|
    ensures d in DepsOfCallers(c, h, k, callers) <==> exists cs :: cs in callers && d in DepsOfCaller(c, h, k, cs)
  {
    if callers != [] {
      var init, last := callers[..|callers| - 1], callers[|callers| - 1];
      DepsOfCallersMember(c, h, k, init, d);
      assert callers == init + [last];
    }
  }

  lemma DepsBelowMember(c: CallerIndex, h: SccHolder, k: nat, d: (SccId, SccId))
    requires k <= |h.sccOfNode| && k <= |c.callersOf|
    ensures d in DepsBelow(c, h, k) <==>
            exists f: nat :: f < k && d in DepsOfCallers(c, h, f, c.callersOf[f])
  {
  }

  lemma DepsAreCalls(g: Graph, c: CallerIndex, h: SccHolder, callee: SccId, caller: SccId)
    requires WellFormed(g) && Inverse(g, c) && |h.sccOfNode| == |g|
    ensures (callee, caller) in DepsBelow(c, h, |g|) <==> ComponentCalls(g, h, caller, callee)
  {
    var d := (callee, caller);
    DepsBelowMember(c, h, |g|, d);
    if d in DepsBelow(c, h, |g|) {
      var k: nat :| k < |g| && d in DepsOfCallers(c, h, k, c.callersOf[k]);
      DepsOfCallersMember(c, h, k, c.callersOf[k], d);
      var cs :| cs in c.callersOf[k] && d in DepsOfCaller(c, h, k, cs);
      assert CalledFrom(c, c.functionOf[cs], cs, k);
      assert CallsAcross(g, h, c.functionOf[cs], k, callee, caller);
    }
    if ComponentCalls(g, h, caller, callee) {
      var f: nat, k: nat :| CallsAcross(g, h, f, k, callee, caller);
      var cs :| CalledFrom(c, f, cs, k);
      assert d in DepsOfCaller(c, h, k, cs);
      DepsOfCallersMember(c, h, k, c.callersOf[k], d);
    }
  }

  lemma NoDependencies(n: nat)
    ensures Represents(seq(n, _ => []), Range(n), n, {})
  {
    RangeSize(n);
  }

  /** The dependencies of all functions make up the condensation. */
  lemma AllDependencies(g: Graph, c: CallerIndex, h: SccHolder, d: SccDependencyGraph, leaves: set<SccId>)
    requires WellFormed(g) && Inverse(g, c) && |h.sccOfNode| == |g|
    requires Represents(d.childrenOfScc, leaves, |h.nodesInScc|, DepsBelow(c, h, |g|))
    requires Ascending(d.sccRoots) && forall r: nat :: r in d.sccRoots <==> r in leaves
    ensures IsCondensation(g, h, d)
  {
    forall s: nat, t: nat
      ensures (s, t) in DepsBelow(c, h, |g|) <==> ComponentCalls(g, h, t, s)
    {
      DepsAreCalls(g, c, h, s, t);
    }
  }

  lemma ComponentsInRange(g: Graph, h: SccHolder)
    requires IsPartition(|g|, h)
    ensures |h.sccOfNode| == |g| && forall f: nat :: f < |g| ==> h.sccOfNode[f] < |h.nodesInScc|
  {
    RangeSize(|g|);
  }

  lemma DepsStep(c: CallerIndex, h: SccHolder)
    ensures DepsBelow(c, h, 0) == {}
    ensures forall f: nat :: f < |h.sccOfNode| && f < |c.callersOf| ==>
              DepsBelow(c, h, f + 1) == DepsBelow(c, h, f) + DepsOfCallers(c, h, f, c.callersOf[f])
  {
  }

  lemma LeavesInRange(children: Graph, leaves: set<SccId>, n: nat, deps: set<(SccId, SccId)>)
    requires Represents(children, leaves, n, deps)
    ensures |children| == n && forall r :: r in leaves ==> r < n
  {
  }

  /** Builds the condensation from the callers of every function. */
  method ComputeCgSccCallers(ghost g: Graph, c: CallerIndex, h: SccHolder) returns (d: SccDependencyGraph)
    requires WellFormed(g) && Inverse(g, c) && IsPartition(|g|, h)
    ensures IsCondensation(g, h, d) && |d.childrenOfScc| == |h.nodesInScc|
    ensures forall s: nat, t: nat :: s < |d.childrenOfScc| ==>
              (t in d.childrenOfScc[s] <==>
                 exists f: nat, k: nat :: f < |g| && k in g[f] && h.sccOfNode[f] == t && h.sccOfNode[k] == s && s != t)
    ensures forall r: nat :: r in d.sccRoots <==>
              r < |h.nodesInScc| && forall f: nat, k: nat :: f < |g| && k in g[f] && h.sccOfNode[f] == r ==> h.sccOfNode[k] == r
  {
    hide Represents, IsCondensation, DepsBelow, DepsOfCallers, IsPartition;
    ComponentsInRange(g, h);
    DepsStep(c, h);
    var n := |h.nodesInScc|;
    var children: Graph := seq(n, _ => []);
    var leaves := Range(n);
    NoDependencies(n);
    for f := 0 to |c.callersOf|
      invariant Represents(children, leaves, n, DepsBelow(c, h, f))
    {
      LeavesInRange(children, leaves, n, DepsBelow(c, h, f));
      children, leaves := AddCallers(c, h, children, leaves, f, DepsBelow(c, h, f));
    }
    LeavesInRange(children, leaves, n, DepsBelow(c, h, |g|));
    var roots := AscendingMembers(leaves, n);
    d := SccDependencyGraph(children, roots);
    AllDependencies(g, c, h, d, leaves);
    CondensationSpelledOut(g, h, d);
  }

  lemma CondensationSpelledOut(g: Graph, h: SccHolder, d: SccDependencyGraph)
    requires WellFormed(g) && |h.sccOfNode| == |g| && IsCondensation(g, h, d)
    ensures |d.childrenOfScc| == |h.nodesInScc|
    ensures forall s: nat, t: nat :: s < |d.childrenOfScc| ==>
              (t in d.childrenOfScc[s] <==>
                 exists f: nat, k: nat :: f < |g| && k in g[f] && h.sccOfNode[f] == t && h.sccOfNode[k] == s && s != t)
    ensures forall r: nat :: r in d.sccRoots <==>
              r < |h.nodesInScc| && forall f: nat, k: nat :: f < |g| && k in g[f] && h.sccOfNode[f] == r ==> h.sccOfNode[k] == r
  {
    forall s: nat, t: nat
      ensures ComponentCalls(g, h, t, s) <==>
              exists f: nat, k: nat :: f < |g| && k in g[f] && h.sccOfNode[f] == t && h.sccOfNode[k] == s && s != t
    {
      if f: nat, k: nat :| CallsAcross(g, h, f, k, s, t) {
        assert f < |g| && k in g[f];
      }
      if f: nat, k: nat :| f < |g| && k in g[f] && h.sccOfNode[f] == t && h.sccOfNode[k] == s && s != t {
        assert CallsAcross(g, h, f, k, s, t);
      }
    }
    forall s: nat, t: nat | s < |d.childrenOfScc|
      ensures t in d.childrenOfScc[s] <==> ComponentCalls(g, h, t, s)
    {
      assert Edge(d.childrenOfScc, s, t) <==> ComponentCalls(g, h, t, s);
    }
    forall r: nat {:trigger r in d.sccRoots}
      ensures r in d.sccRoots <==>
              r < |h.nodesInScc| && forall f: nat, k: nat :: f < |g| && k in g[f] && h.sccOfNode[f] == r ==> h.sccOfNode[k] == r
    {
      CallsNoOther(g, h, r);
    }
  }

  lemma CallsNoOther(g: Graph, h: SccHolder, r: SccId)
    requires WellFormed(g) && |h.sccOfNode| == |g|
    ensures (forall s: nat :: !ComponentCalls(g, h, r, s)) <==>
            forall f: nat, k: nat :: f < |g| && k in g[f] && h.sccOfNode[f] == r ==> h.sccOfNode[k] == r
  {
    if f: nat, k: nat :| f < |g| && k in g[f] && h.sccOfNode[f] == r && h.sccOfNode[k] != r {
      assert CallsAcross(g, h, f, k, h.sccOfNode[k], r);
      assert ComponentCalls(g, h, r, h.sccOfNode[k]);
    }
    if s: nat :| ComponentCalls(g, h, r, s) {
      var f: nat, k: nat :| CallsAcross(g, h, f, k, s, r);
      assert f < |g| && k in g[f];
    }
  }

  /** The edges that the callers of function f contribute. */
  method AddCallers(c: CallerIndex, h: SccHolder, children: Graph, leaves: set<SccId>, f: FunctionId,
                    ghost below: set<(SccId, SccId)>)
    returns (children': Graph, leaves': set<SccId>)
    requires f < |c.callersOf| && f < |h.sccOfNode| && h.sccOfNode[f] < |children|
    requires forall cs :: cs in c.functionOf ==> c.functionOf[cs] < |h.sccOfNode|
    requires Represents(children, leaves, |children|, below)
    ensures Represents(children', leaves', |children|, below + DepsOfCallers(c, h, f, c.callersOf[f]))
  {
    children', leaves' := children, leaves;
    var scc := h.sccOfNode[f];
    var callers := c.callersOf[f];
    ghost var deps := below;
    for i := 0 to |callers|
      invariant deps == below + DepsOfCallers(c, h, f, callers[..i])
      invariant Represents(children', leaves', |children|, deps)
    {
      var cs := callers[i];
      assert callers[..i + 1][..i] == callers[..i];
      if cs in c.functionOf {
        var csScc := h.sccOfNode[c.functionOf[cs]];
        if csScc != scc {
          children', leaves' := AddDependency(children', leaves', scc, csScc, deps);
        }
      }
      assert DepsOfCaller(c, h, f, cs) == {} ==> deps + DepsOfCaller(c, h, f, cs) == deps;
      deps := deps + DepsOfCaller(c, h, f, cs);
    }
    assert callers[..|callers|] == callers;
  }

  method AddDependency(children: Graph, leaves: set<SccId>, scc: SccId, csScc: SccId, ghost deps: set<(SccId, SccId)>)
    returns (children': Graph, leaves': set<SccId>)
    requires Represents(children, leaves, |children|, deps) && scc < |children|
    ensures Represents(children', leaves', |children|, deps + {(scc, csScc)})
  {
    children', leaves' := children, leaves - {csScc};
    if csScc !in children[scc] {
      children' := children[scc := children[scc] + [csScc]];
    }
    forall s: nat, t: nat
      ensures Edge(children', s, t) <==> (s, t) in deps + {(scc, csScc)}
    {
      assert Edge(children, s, t) <==> (s, t) in deps;
    }
  }

  method AscendingMembers(members: set<SccId>, n: nat) returns (q: seq<SccId>)
    requires forall r :: r in members ==> r < n
    ensures Ascending(q) && forall r: nat :: r in q <==> r in members
  {
    q := [];
    for r := 0 to n
      invariant Ascending(q) && forall k: nat :: k in q <==> k in members && k < r
    {
      assert forall j: nat :: j < |q| ==> q[j] in q;
      if r in members {
        q := q + [r];
      }
    }
  }

  /** With components numbered callees first, every edge of the condensation goes to a greater id. */
  lemma EdgesIncrease(g: Graph, h: SccHolder, d: SccDependencyGraph, s: SccId, t: SccId)
    requires CalleesFirst(g, h) && IsCondensation(g, h, d) && Edge(d.childrenOfScc, s, t)
    ensures s < t
  {
    var f: nat, k: nat :| CallsAcross(g, h, f, k, s, t);
  }

  lemma PathsIncrease(g: Graph, h: SccHolder, d: SccDependencyGraph, p: seq<nat>)
    requires CalleesFirst(g, h) && IsCondensation(g, h, d) && IsPath(d.childrenOfScc, p)
    ensures p[0] <= p[|p| - 1]
  {
    for i := 0 to |p| - 1
      invariant p[0] <= p[i]
    {
      assert StepAt(d.childrenOfScc, p, i);
      EdgesIncrease(g, h, d, p[i], p[i + 1]);
    }
  }

  lemma CondensationIsAcyclic(g: Graph, h: SccHolder, d: SccDependencyGraph)
    requires CalleesFirst(g, h) && IsCondensation(g, h, d)
    ensures Acyclic(d.childrenOfScc)
  {
    forall s: nat, t: nat | Edge(d.childrenOfScc, s, t)
      ensures !Reach(d.childrenOfScc, t, s)
    {
      EdgesIncrease(g, h, d, s, t);
      if Reach(d.childrenOfScc, t, s) {
        var p :| IsPath(d.childrenOfScc, p) && p[0] == t && p[|p| - 1] == s;
        PathsIncrease(g, h, d, p);
      }
    }
  }

  /** The roots suffice as starting points: every component is a transitive caller of some root. */
  lemma {:induction false} ReachableFromRoots(g: Graph, h: SccHolder, d: SccDependencyGraph, s: SccId)
    requires IsPartition(|g|, h) && CalleesFirst(g, h) && IsCondensation(g, h, d) && s < |h.nodesInScc|
    ensures exists r: nat :: r in d.sccRoots && Reach(d.childrenOfScc, r, s)
  {
    if s in d.sccRoots {
      ReachSelf(d.childrenOfScc, s);
    } else {
      RangeSize(|g|);
      var callee: nat :| ComponentCalls(g, h, s, callee);
      var f: nat, k: nat :| CallsAcross(g, h, f, k, callee, s);
      EdgesIncrease(g, h, d, callee, s);
      ReachableFromRoots(g, h, d, callee);
      var r: nat :| r in d.sccRoots && Reach(d.childrenOfScc, r, callee);
      ReachEdge(d.childrenOfScc, callee, s);
      ReachTrans(d.childrenOfScc, r, callee, s);
    }
  }
}
