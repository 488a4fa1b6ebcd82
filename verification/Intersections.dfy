/** What the context-sensitive and the indirection-sensitive analysis are run together for: a result that reports
    less than either of them, and still every alias of every run. */
module Intersections {
  import opened Compressors
  import opened AliasResults
  import opened PointerAssignmentGraph
  import opened Machines
  import opened ContextAA
  import opened ContextSoundness
  import opened ContextRuns
  import IndirectionAA
  import IndirectionSoundness

  lemma HoldersHold(states: seq<Machine>, v: ValueId, o: ValueId, calls: seq<CallSite>)
    requires EverHoldsOf(states, v, o, calls)
    ensures EverHolds(states, v, o)
  {
    var i: nat, slot :| i < |states| && HoldsOf(states[i], slot, v, o, calls);
    assert HoldsAt(states[i], slot, v, o);
  }

  /** Both results report every alias of a run, and so does their intersection. */
  lemma IntersectionReports(g: CallGraphView, k: nat, funs: seq<Option<Function>>, edges: seq<GraphEdge>,
                            first: RawResult, second: RawResult)
    requires g.Valid() && AllIn(funs, edges)
    requires ContextRuns.ReportsAliases(g, k, funs, edges, first)
    requires IndirectionSoundness.ReportsAliases(|funs|, Plain(edges), second)
    ensures ContextRuns.ReportsAliases(g, k, funs, edges, Intersection(first, second))
  {
    hide CallGraphView.Valid, EverHolds, EverHoldsOf, IsRun;
    forall actions, states, v: nat, w: nat, o: nat, calls
      | IsCallRun(g, k, funs, edges, actions, states) && EverHoldsOf(states, v, o, calls) && EverHoldsOf(states, w, o, calls)
      ensures Intersection(first, second).MayAlias(v, w)
    {
      HoldersHold(states, v, o, calls);
      HoldersHold(states, w, o, calls);
      assert first.MayAlias(v, w) && second.MayAlias(v, w);
    }
  }

  /** Reports all values and edges to both analyses and intersects their results: aliases are exactly those that
      contexts and depths of indirection force alike, and no alias of any covered run is missed. */
  method AnalyzeProgram(g: CallGraphView, k: nat, depth: nat, funs: seq<Option<Function>>, edges: seq<GraphEdge>,
                        included: set<ValueId>)
    returns (r: RawResult)
    requires g.Valid() && k > 0 && depth > 0 && AllIn(funs, edges)
    requires forall i: nat :: i < |edges| ==> Recorded(g, funs, edges[i])
    ensures r.Size() == |funs| && IsConsumed(r, included)
    ensures (k == 1 || Covered(g, k, funs, edges)) && (depth >= 2 || IndirectionSoundness.NoCopies(Plain(edges))) ==>
              ContextRuns.ReportsAliases(g, k, funs, edges, r)
    ensures forall v: nat, w: nat :: v < |funs| && w < |funs| && v != w ==>
              (r.MayAlias(v, w) <==> Forced(g, k, funs, edges, v, w) && IndirectionAA.Forced(depth, Plain(edges), v, 0, w, 0))
    ensures forall v: nat, w: nat :: v < r.Size() && w in included ==> (r.MayAlias(v, w) <==> w in r.GetRawAliasSet(v))
  {
    hide Covered, Recorded, Forced, IndirectionAA.Forced, IndirectionSoundness.NoCopies, CallGraphView.Valid,
      ContextRuns.ReportsAliases, IndirectionSoundness.ReportsAliases;
    var first := ContextSoundness.AnalyzeProgram(g, k, funs, edges, included);
    var second := IndirectionSoundness.AnalyzeProgram(depth, |funs|, Plain(edges), included);
    r := Intersection(first, second);
    AgreementCondition(first, included);
    AgreementCondition(r, included);
    if k == 1 {
      SingleCallsCovered(g, funs, edges);
    }
    if Covered(g, k, funs, edges) && (depth >= 2 || IndirectionSoundness.NoCopies(Plain(edges))) {
      ForcedMeansReports(g, k, funs, edges, first);
      IntersectionReports(g, k, funs, edges, first, second);
    }
  }
}
