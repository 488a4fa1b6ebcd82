/** The order of components that the bottom-up analysis works in: components of the reversed call graph, whose edges
    lead from each function to its callers. */
module BottomupOrder {
  import Graphs
  import opened Compressors
  import opened AliasResults
  import opened PointerAssignmentGraph
  import opened SccCallers
  import CallGraphSccs
  import BottomupAA
  import opened BottomupSummaries

  type Function = CallGraphSccs.FunctionId

  /** The functions that contain the given call sites. */
  function CallerFunctions(c: CallerIndex, callers: seq<CallSite>): seq<Function> {
    if callers == [] then []
    else
      var cs := callers[|callers| - 1];
      CallerFunctions(c, callers[..|callers| - 1]) + if cs in c.functionOf then [c.functionOf[cs]] else []
  }

  function Reversed(c: CallerIndex): Graphs.Graph {
    seq(|c.callersOf|, k requires 0 <= k < |c.callersOf| => CallerFunctions(c, c.callersOf[k]))
  }

  lemma {:induction false} CallerFunctionsMember(c: CallerIndex, callers: seq<CallSite>, f: Function)
    ensures f in CallerFunctions(c, callers) <==> exists cs: nat :: cs in callers && cs in c.functionOf && c.functionOf[cs] == f
  {
    if callers != [] {
      CallerFunctionsMember(c, callers[..|callers| - 1], f);
      assert callers == callers[..|callers| - 1] + [callers[|callers| - 1]];
    }
  }

  /** Turning the callers around gives the calls. */
  lemma ReversedExactly(g: Graphs.Graph, c: CallerIndex, f: Function, k: Function)
    requires Inverse(g, c) && f < |g| && k < |g|
    ensures Graphs.Edge(Reversed(c), k, f) <==> Graphs.Edge(g, f, k)
  {
    CallerFunctionsMember(c, c.callersOf[k], f);
    if cs: nat :| CalledFrom(c, f, cs, k) {
      assert cs in c.callersOf[k];
    }
    if cs: nat :| cs in c.callersOf[k] && cs in c.functionOf && c.functionOf[cs] == f {
      assert CalledFrom(c, f, cs, k);
    }
  }

  /** The components of the values, through the functions that they belong to. */
  function SccsOf(h: CallGraphSccs.SccHolder, funs: seq<Option<Function>>): (sccs: seq<Option<BottomupAA.SccId>>)
    ensures |sccs| == |funs|
    ensures forall v: nat :: v < |funs| ==>
              (sccs[v].Some? <==> funs[v].Some? && funs[v].value < |h.sccOfNode|) &&
              (sccs[v].Some? ==> sccs[v].value == h.sccOfNode[funs[v].value])
  {
    seq(|funs|, v requires 0 <= v < |funs| =>
      if funs[v].Some? && funs[v].value < |h.sccOfNode| then Some(h.sccOfNode[funs[v].value]) else None)
  }

  /** Arguments and returned values cross a call that the call graph knows. */
  ghost predicate CallKnown(g: Graphs.Graph, funs: seq<Option<Function>>, e: Edge)
    requires e.from < |funs| && e.to < |funs|
  {
    funs[e.from].Some? && funs[e.to].Some? ==>
      && (e.kind.Call? ==> Graphs.Edge(g, funs[e.from].value, funs[e.to].value))
      && (e.kind.Return? ==> Graphs.Edge(g, funs[e.to].value, funs[e.from].value))
  }

  /** Components of the reversed call graph are in the order that the analysis needs. */
  lemma ReversedIsCalleesLater(g: Graphs.Graph, c: CallerIndex, h: CallGraphSccs.SccHolder, funs: seq<Option<Function>>, e: SiteEdge)
    requires Inverse(g, c) && Graphs.WellFormed(g) && CallGraphSccs.CalleesFirst(Reversed(c), h)
    requires e.0.from < |funs| && e.0.to < |funs| && CallKnown(g, funs, e.0)
    ensures CalleesLater(SccsOf(h, funs), e)
  {
    var sccs := SccsOf(h, funs);
    if (e.0.kind.Call? || e.0.kind.Return?) && sccs[e.0.from].Some? && sccs[e.0.to].Some? {
      var outer, inner := funs[if e.0.kind.Call? then e.0.from else e.0.to].value, funs[if e.0.kind.Call? then e.0.to else e.0.from].value;
      ReversedExactly(g, c, outer, inner);
      assert h.sccOfNode[outer] <= h.sccOfNode[inner];
    }
  }

  /** With that numbering the aliases stay inside their components exactly if the other edges keep the components
      apart, and then every call is summarised. */
  method AnalyzeUnsound(ghost g: Graphs.Graph, ghost c: CallerIndex, h: CallGraphSccs.SccHolder, funs: seq<Option<Function>>,
                        edges: seq<SiteEdge>, included: set<ValueId>)
    returns (r: RawResult)
    requires Inverse(g, c) && Graphs.WellFormed(g)
    requires CallGraphSccs.CalleesFirst(Reversed(c), h) && GraphOk(|h.nodesInScc|, SccsOf(h, funs), edges)
    requires forall i: nat :: i < |edges| ==> InRange(SccsOf(h, funs), edges[i]) && CallKnown(g, funs, edges[i].0)
    ensures r.Size() == |funs| && IsConsumed(r, included)
    ensures NothingElse(SccsOf(h, funs), edges, r) && JoinsLocalEdges(SccsOf(h, funs), edges, r)
    ensures Ordered(SccsOf(h, funs), edges) <==> StaysInside(SccsOf(h, funs), r)
    ensures StaysInside(SccsOf(h, funs), r) ==> Summarises(SccsOf(h, funs), edges, r)
  {
    hide Ordered, StaysInside, Summarises, NothingElse, JoinsLocalEdges, GraphOk;
    var sccs := SccsOf(h, funs);
    forall i: nat | i < |edges|
      ensures CalleesLater(sccs, edges[i])
    {
      ReversedIsCalleesLater(g, c, h, funs, edges[i]);
    }
    ghost var run;
    r, run := BottomupSummaries.AnalyzeUnsound(|h.nodesInScc|, sccs, edges, included);
  }
}
