/** One call graph as the component search, the condensation and the context enumeration see it. */
module CallGraphViews {
  import opened Graphs
  import opened Sequences
  import CallGraphs
  import CallGraphSccs
  import SccCallers
  import ContextAA

  type CallSite = CallGraphs.CallSite
  type Function = CallGraphs.Function

  /** Function ids number the given functions; the callees at every call site are those of the call graph. */
  ghost predicate SeenBySearch(cg: CallGraphs.CallGraph, functions: seq<Function>, p: CallGraphSccs.Program) {
    && |p.insts| == |functions| && Distinct(functions)
    && forall cs :: SameCallees(cg, functions, p, cs)
  }

  ghost predicate SameCallees(cg: CallGraphs.CallGraph, functions: seq<Function>, p: CallGraphSccs.Program, cs: CallSite) {
    Numbers(functions, if cs.id in p.calleesAt then p.calleesAt[cs.id] else [], if cs in cg.calleesAt then cg.calleesAt[cs] else [])
  }

  ghost predicate Numbers(functions: seq<Function>, ids: seq<nat>, fs: seq<Function>) {
    |ids| == |fs| && forall i: nat :: i < |ids| ==> ids[i] < |functions| && functions[ids[i]] == fs[i]
  }

  /** Callers come from the other index, and every call site belongs to the one function that contains it. */
  ghost predicate SeenByCondensation(cg: CallGraphs.CallGraph, functions: seq<Function>, p: CallGraphSccs.Program,
                                     c: SccCallers.CallerIndex) {
    && |c.callersOf| == |functions| == |p.insts|
    && (forall f: nat :: f < |functions| ==> c.callersOf[f] == Ids(cg.Callers(functions[f])))
    && (forall f: nat, cs: nat :: (cs in c.functionOf && c.functionOf[cs] == f) <==> Contains(p, f, cs))
  }

  function Ids(css: seq<CallSite>): (r: seq<nat>)
    ensures |r| == |css| && forall i: nat :: i < |css| ==> r[i] == css[i].id
  {
    seq<nat>(|css|, i requires 0 <= i < |css| => css[i].id)
  }

  lemma IdsMember(css: seq<CallSite>, cs: CallSite)
    ensures cs.id in Ids(css) <==> cs in css
  {
    if i: nat :| i < |css| && css[i] == cs {
      assert Ids(css)[i] == cs.id;
    }
    if i: nat :| i < |css| && Ids(css)[i] == cs.id {
      assert css[i] == CallGraphs.CallSite(cs.id);
    }
  }

  ghost predicate Contains(p: CallGraphSccs.Program, f: nat, cs: nat) {
    f < |p.insts| && CallGraphSccs.Inst(cs, true) in p.insts[f]
  }

  lemma {:induction false} CalleesOfCode(p: CallGraphSccs.Program, code: seq<CallGraphSccs.Inst>, k: nat)
    ensures k in p.CalleesOfInsts(code) <==> exists cs: nat :: CallGraphSccs.Inst(cs, true) in code && k in p.CalleesOfCallAt(cs)
  {
    if code != [] {
      var init, last := code[..|code| - 1], code[|code| - 1];
      CalleesOfCode(p, init, k);
      assert code == init + [last];
      assert last.isCallSite ==> last == CallGraphSccs.Inst(last.id, true);
    }
  }

  lemma CallMeansCaller(cg: CallGraphs.CallGraph, functions: seq<Function>, p: CallGraphSccs.Program, c: SccCallers.CallerIndex,
                        cs: CallSite, k: nat)
    requires CallGraphs.Inverse(cg) && SeenBySearch(cg, functions, p) && SeenByCondensation(cg, functions, p, c) && k < |functions|
    ensures k in p.CalleesOfCallAt(cs.id) <==> cs.id in c.callersOf[k]
  {
    assert CallGraphs.SameCount(cg, cs, functions[k]) && SameCallees(cg, functions, p, cs);
    var ids, callees := p.CalleesOfCallAt(cs.id), cg.Callees(cs);
    if i: nat :| i < |ids| && ids[i] == k {
      assert callees[i] == functions[k];
      assert functions[k] in multiset(callees);
    }
    if i: nat :| i < |callees| && callees[i] == functions[k] {
      assert functions[ids[i]] == functions[k];
      assert ids[i] == k;
    }
    IdsMember(cg.Callers(functions[k]), cs);
    assert cs in cg.Callers(functions[k]) <==> cs in multiset(cg.Callers(functions[k]));
    assert functions[k] in callees <==> functions[k] in multiset(callees);
  }

  /** The two indexes that the call graph keeps inverse are inverse in the sense of the condensation, too. */
  lemma IndexesAreInverse(cg: CallGraphs.CallGraph, functions: seq<Function>, p: CallGraphSccs.Program, c: SccCallers.CallerIndex)
    requires CallGraphs.Inverse(cg) && SeenBySearch(cg, functions, p) && SeenByCondensation(cg, functions, p, c)
    ensures WellFormed(p.Calls()) && SccCallers.Inverse(p.Calls(), c)
  {
    var g := p.Calls();
    forall f: nat, k: nat | f < |g|
      ensures Edge(g, f, k) <==> exists cs: nat :: Contains(p, f, cs) && k in p.CalleesOfCallAt(cs)
    {
      CalleesOfCode(p, p.insts[f], k);
    }
    forall cs: nat, k: nat | k in p.CalleesOfCallAt(cs)
      ensures k < |functions|
    {
      assert SameCallees(cg, functions, p, CallGraphs.CallSite(cs));
    }
    forall f: nat, k: nat | f < |g| && k in g[f]
      ensures k < |g|
    {
      assert Edge(g, f, k);
      var cs: nat :| Contains(p, f, cs) && k in p.CalleesOfCallAt(cs);
    }
    forall f: nat, k: nat | f < |g| && k < |g|
      ensures Edge(g, f, k) <==> exists cs: nat :: SccCallers.CalledFrom(c, f, cs, k)
    {
      if Edge(g, f, k) {
        var cs: nat :| Contains(p, f, cs) && k in p.CalleesOfCallAt(cs);
        CallMeansCaller(cg, functions, p, c, CallGraphs.CallSite(cs), k);
        assert SccCallers.CalledFrom(c, f, cs, k);
      }
      if cs: nat :| SccCallers.CalledFrom(c, f, cs, k) {
        CallMeansCaller(cg, functions, p, c, CallGraphs.CallSite(cs), k);
        assert Contains(p, f, cs);
      }
    }
    forall cs: nat | cs in c.functionOf
      ensures c.functionOf[cs] < |g|
    {
      assert Contains(p, c.functionOf[cs], cs);
    }
  }

  /** From a call graph to its components and their condensation. */
  method Condense(ghost cg: CallGraphs.CallGraph, ghost functions: seq<Function>, p: CallGraphSccs.Program, c: SccCallers.CallerIndex)
    returns (h: CallGraphSccs.SccHolder, d: SccCallers.SccDependencyGraph)
    requires CallGraphs.Inverse(cg) && SeenBySearch(cg, functions, p) && SeenByCondensation(cg, functions, p, c)
    requires |functions| <= CallGraphSccs.UNSEEN
    ensures CallGraphSccs.IsPartition(|functions|, h) && CallGraphSccs.AreComponents(p.Calls(), h)
    ensures SccCallers.IsCondensation(p.Calls(), h, d) && Acyclic(d.childrenOfScc)
  {
    IndexesAreInverse(cg, functions, p, c);
    h := CallGraphSccs.ComputeCgSccs(p);
    d := SccCallers.ComputeCgSccCallers(p.Calls(), c, h);
    SccCallers.CondensationIsAcyclic(p.Calls(), h, d);
  }

  /** The call graph as the context enumeration sees it. */
  function ContextView(cg: CallGraphs.CallGraph, functionOf: map<nat, nat>): (g: ContextAA.CallGraphView)
    ensures forall f: Function :: g.Callers(f.id) == Ids(cg.Callers(f))
  {
    ContextAA.CallGraphView(map f | f in cg.callersOf :: f.id := Ids(cg.callersOf[f]), functionOf)
  }

  /** Contexts can be enumerated if the functions of all call sites with callees are known. */
  lemma ContextViewIsValid(cg: CallGraphs.CallGraph, functionOf: map<nat, nat>)
    requires CallGraphs.Inverse(cg) && forall cs :: cg.Callees(cs) != [] ==> cs.id in functionOf
    ensures ContextView(cg, functionOf).Valid()
  {
    var g := ContextView(cg, functionOf);
    forall f: nat, cs: nat | cs in g.Callers(f)
      ensures cs in functionOf
    {
      var site, fun := CallGraphs.CallSite(cs), CallGraphs.Function(f);
      IdsMember(cg.Callers(fun), site);
      assert CallGraphs.SameCount(cg, site, fun);
      assert site in multiset(cg.Callers(fun));
      assert fun in multiset(cg.Callees(site));
    }
  }
}
