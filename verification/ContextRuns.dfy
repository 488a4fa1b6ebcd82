/** Whole runs under the calling-context-sensitive analysis: values that ever hold addresses of one object, each in
    a frame with its call string, alias in the result. */
module ContextRuns {
  import opened Compressors
  import opened AliasResults
  import opened PointerAssignmentGraph
  import opened Machines
  import opened ContextAA
  import opened ContextChains
  import opened ContextFrames
  import opened ContextSoundness

  predicate SlotOk(g: CallGraphView, k: nat, funs: seq<Option<Function>>, slot: Slot)
    requires g.Valid()
  {
    slot.value < |funs| && FrameOk(g, k, funs[slot.value], slot.frame.calls)
  }

  /** inner is entered from outer through cs; global values may be passed from anywhere. */
  predicate Enters(k: nat, outerFun: Option<Function>, outer: seq<CallSite>, cs: Option<CallSite>, innerFun: Option<Function>,
                   inner: seq<CallSite>) {
    innerFun.Some? && cs.Some? ==> inner != [] && inner[0] == cs.value && (outerFun.Some? ==> inner == Latest(k, [cs.value] + outer))
  }

  /** A call enters a frame through its call site and a return leaves such a frame; everything else stays in
      frames that were entered alike, or touches a value of no function. */
  predicate FramesFit(k: nat, funs: seq<Option<Function>>, e: GraphEdge, from: seq<CallSite>, to: seq<CallSite>)
    requires e.In(|funs|)
  {
    var fromFun, toFun := funs[e.edge.from], funs[e.edge.to];
    match e.edge.kind
    case Call(_) => Enters(k, fromFun, from, e.callSite, toFun, to)
    case Return => Enters(k, toFun, to, e.callSite, fromFun, from)
    case _ => fromFun.None? || toFun.None? || from == to
  }

  /** An object belongs to the frame that allocated it; its fields and cells do, too. */
  predicate TagsFit(s: Machine, a: Action)
    requires a.Flow? && a.Source() in s.env && (a.edge.kind.Copy? ==> a.Target() in s.env)
  {
    && (a.edge.kind.Gep? ==> a.writeTag.calls == s.env[a.Source()].tag.calls)
    && (a.edge.kind.Copy? ==> a.readTag.calls == s.env[a.Source()].tag.calls && a.writeTag.calls == s.env[a.Target()].tag.calls)
  }

  function Plain(edges: seq<GraphEdge>): (r: seq<Edge>)
    ensures |r| == |edges| && forall i: nat :: i < |edges| ==> r[i] == edges[i].edge
  {
    seq(|edges|, i requires 0 <= i < |edges| => edges[i].edge)
  }

  ghost predicate AllIn(funs: seq<Option<Function>>, edges: seq<GraphEdge>) {
    forall i: nat :: i < |edges| ==> edges[i].In(|funs|)
  }

  /** The edge is one of the given ones, with a call site that fits the frames. */
  ghost predicate FlowsAlong(k: nat, funs: seq<Option<Function>>, edges: seq<GraphEdge>, a: Action, i: nat)
    requires AllIn(funs, edges) && i < |edges| && a.Flow?
  {
    edges[i].edge == a.edge && FramesFit(k, funs, edges[i], a.fromFrame.calls, a.toFrame.calls)
  }

  ghost predicate Fits(g: CallGraphView, k: nat, funs: seq<Option<Function>>, edges: seq<GraphEdge>, s: Machine, a: Action)
    requires g.Valid() && AllIn(funs, edges) && Enabled(|funs|, Plain(edges), s, a)
  {
    match a
    case Allocate(slot, tag) => SlotOk(g, k, funs, slot) && tag.calls == slot.frame.calls
    case Flow(_, _, _, _, _) =>
      && SlotOk(g, k, funs, a.Source()) && SlotOk(g, k, funs, a.Target()) && TagsFit(s, a)
      && exists i: nat :: i < |edges| && FlowsAlong(k, funs, edges, a, i)
  }

  ghost predicate FitsAt(g: CallGraphView, k: nat, funs: seq<Option<Function>>, edges: seq<GraphEdge>, actions: seq<Action>,
                         states: seq<Machine>, i: nat)
    requires g.Valid() && AllIn(funs, edges) && i < |actions| && |states| == |actions| + 1
  {
    Enabled(|funs|, Plain(edges), states[i], actions[i]) && Fits(g, k, funs, edges, states[i], actions[i])
  }

  /** A run in which frames are entered and left along the call graph. */
  ghost predicate IsCallRun(g: CallGraphView, k: nat, funs: seq<Option<Function>>, edges: seq<GraphEdge>, actions: seq<Action>,
                            states: seq<Machine>)
    requires g.Valid() && AllIn(funs, edges)
  {
    IsRun(|funs|, Plain(edges), actions, states) && forall i: nat :: i < |actions| ==> FitsAt(g, k, funs, edges, actions, states, i)
  }

  /** At some time v holds an address of the object that o allocated in a frame with the given call string. */
  ghost predicate EverHoldsOf(states: seq<Machine>, v: ValueId, o: ValueId, calls: seq<CallSite>) {
    exists i: nat, slot :: i < |states| && HoldsOf(states[i], slot, v, o, calls)
  }

  ghost predicate HoldsOf(s: Machine, slot: Slot, v: ValueId, o: ValueId, calls: seq<CallSite>) {
    HoldsAt(s, slot, v, o) && s.env[slot].tag.calls == calls
  }

  /** Code that passes a global value is itself not called, as far as call strings tell. */
  predicate GlobalsPassed(g: CallGraphView, k: nat, funs: seq<Option<Function>>, e: GraphEdge)
    requires g.Valid() && e.In(|funs|) && Recorded(g, funs, e)
  {
    var outer, inner := if e.edge.kind.Return? then e.edge.to else e.edge.from, if e.edge.kind.Return? then e.edge.from else e.edge.to;
    k > 1 && (e.edge.kind.Call? || e.edge.kind.Return?) && funs[outer].None? && funs[inner].Some? ==>
      g.Callers(g.functionOf[e.callSite.value]) == []
  }

  /** The call graph knows all calls, and no frame stands for a context that is hidden. */
  ghost predicate Covered(g: CallGraphView, k: nat, funs: seq<Option<Function>>, edges: seq<GraphEdge>)
    requires g.Valid() && AllIn(funs, edges)
  {
    && (forall v: nat :: v < |funs| && funs[v].Some? ==> AllVisible(g, k, funs[v].value))
    && (forall i: nat :: i < |edges| ==> Recorded(g, funs, edges[i]) && GlobalsPassed(g, k, funs, edges[i]))
  }

  /** A call that passes a global value from code that is called itself is not honoured, so that the condition cannot
      be left out. */
  lemma UncoveredGlobalIsLost(g: CallGraphView, k: nat, funs: seq<Option<Function>>, e: GraphEdge)
    requires g.Valid() && k > 0 && e.In(|funs|) && Recorded(g, funs, e)
    ensures !GlobalsPassed(g, k, funs, e) ==> !Honoured(g, k, funs, e)
  {
    if !GlobalsPassed(g, k, funs, e) {
      var inner, cs := funs[if e.edge.kind.Return? then e.edge.from else e.edge.to].value, e.callSite.value;
      forall n: nat | n < |g.Callers(inner)| && g.Callers(inner)[n] == cs
        ensures !UnshadowedAt(g, k, None, cs, inner, n)
      {
        var caller := CallerFunction(g, inner, n);
        assert IsCallChain(g, caller, [g.Callers(caller)[0]]);
        assert HasCallChain(g, caller, 1) && !Called(g, None, 1);
      }
    }
  }

  /** Call strings of length one cover all recorded calls. */
  lemma SingleCallsCovered(g: CallGraphView, funs: seq<Option<Function>>, edges: seq<GraphEdge>)
    requires g.Valid() && AllIn(funs, edges) && forall i: nat :: i < |edges| ==> Recorded(g, funs, edges[i])
    ensures Covered(g, 1, funs, edges)
  {
    forall v: nat | v < |funs| && funs[v].Some?
      ensures AllVisible(g, 1, funs[v].value)
    {
      SingleCallIsVisible(g, funs[v].value);
    }
  }

  lemma FrameVisited(g: CallGraphView, k: nat, f: Option<Function>, calls: seq<CallSite>)
    requires g.Valid() && FrameOk(g, k, f, calls) && (f.Some? ==> AllVisible(g, k, f.value))
    ensures ContextOf(g, k, f, calls) in ContextSet(g, k, f)
  {
    if f.Some? {
      FramesVisitedExactly(g, k, f.value);
    }
  }

  /** The context of the inner frame is the one of the outer frame with the call site in front. */
  lemma EnteredContext(g: CallGraphView, k: nat, outerFun: Option<Function>, outer: seq<CallSite>, cs: Option<CallSite>,
                       innerFun: Option<Function>, inner: seq<CallSite>)
    requires g.Valid() && k > 0 && FrameOk(g, k, outerFun, outer) && FrameOk(g, k, innerFun, inner)
    requires CallsInto(g, outerFun, cs, innerFun) && Enters(k, outerFun, outer, cs, innerFun, inner)
    requires k > 1 && outerFun.None? && innerFun.Some? ==> g.Callers(g.functionOf[cs.value]) == []
    ensures innerFun.Some? ==> ContextOf(g, k, innerFun, inner) == WithPrefix(ContextOf(g, k, outerFun, outer), cs)
  {
    if innerFun.Some? && outerFun.Some? {
      CalleeContext(g, k, cs.value, innerFun.value, outer);
    } else if innerFun.Some? {
      var caller := g.functionOf[cs.value];
      assert inner == [cs.value] + inner[1..] && IsCallChain(g, caller, inner[1..]);
      ExtendedCall(g, k, cs.value, innerFun.value, inner[1..]);
      assert k > 1 ==> inner[1..] == [];
    }
  }

  /** Frames that fit an edge stand for contexts that the edge joins. */
  lemma FittingFramesJoined(g: CallGraphView, k: nat, funs: seq<Option<Function>>, e: GraphEdge, from: seq<CallSite>,
                            to: seq<CallSite>)
    requires g.Valid() && k > 0 && e.In(|funs|) && Recorded(g, funs, e) && GlobalsPassed(g, k, funs, e)
    requires FrameOk(g, k, funs[e.edge.from], from) && FrameOk(g, k, funs[e.edge.to], to) && FramesFit(k, funs, e, from, to)
    requires funs[e.edge.from].Some? ==> AllVisible(g, k, funs[e.edge.from].value)
    requires funs[e.edge.to].Some? ==> AllVisible(g, k, funs[e.edge.to].value)
    ensures JoinsContexts(g, k, funs, e, ContextOf(g, k, funs[e.edge.from], from), ContextOf(g, k, funs[e.edge.to], to))
  {
    hide FrameOk, ContextOf, WithPrefix, AllVisible, Enters, ContextSet, CallGraphView.Valid, CallsInto;
    var fromFun, toFun := funs[e.edge.from], funs[e.edge.to];
    FrameVisited(g, k, fromFun, from);
    FrameVisited(g, k, toFun, to);
    NoFunction(g, k, from);
    NoFunction(g, k, to);
    match e.edge.kind
    case Call(_) => EnteredContext(g, k, fromFun, from, e.callSite, toFun, to);
    case Return => EnteredContext(g, k, toFun, to, e.callSite, fromFun, from);
    case _ =>
  }

  /** Global values have the empty context only. */
  lemma NoFunction(g: CallGraphView, k: nat, calls: seq<CallSite>)
    requires g.Valid()
    ensures ContextSet(g, k, None) == {NoContext(k)}
    ensures FrameOk(g, k, None, calls) ==> ContextOf(g, k, None, calls) == NoContext(k)
  {
  }

  /** The label of a value in a frame. */
  ghost function LabelIn(g: CallGraphView, k: nat, funs: seq<Option<Function>>, lab: Labelling, v: ValueId, calls: seq<CallSite>): nat
    requires g.Valid() && v < |funs| && FrameOk(g, k, funs[v], calls)
  {
    lab(v, ContextOf(g, k, funs[v], calls))
  }

  /** The object belongs to a value in a frame. */
  ghost predicate ObjectOk(g: CallGraphView, k: nat, funs: seq<Option<Function>>, a: Address)
    requires g.Valid()
  {
    a.origin < |funs| && FrameOk(g, k, funs[a.origin], a.tag.calls)
  }

  /** A slot, or a cell of an object, has the label of the object whose address it holds. */
  ghost predicate Agrees(g: CallGraphView, k: nat, funs: seq<Option<Function>>, lab: Labelling, v: ValueId, calls: seq<CallSite>,
                         a: Address)
    requires g.Valid()
  {
    && v < |funs| && FrameOk(g, k, funs[v], calls) && ObjectOk(g, k, funs, a)
    && LabelIn(g, k, funs, lab, v, calls) == LabelIn(g, k, funs, lab, a.origin, a.tag.calls)
  }

  /** The labels know every address held by a value and every address stored in memory. */
  ghost predicate Tracks(g: CallGraphView, k: nat, funs: seq<Option<Function>>, lab: Labelling, s: Machine)
    requires g.Valid()
  {
    && (forall slot :: slot in s.env ==> Agrees(g, k, funs, lab, slot.value, slot.frame.calls, s.env[slot]))
    && (forall a :: a in s.mem ==> Agrees(g, k, funs, lab, a.origin, a.tag.calls, s.mem[a]))
  }

  lemma FlowKeepsLabel(g: CallGraphView, k: nat, funs: seq<Option<Function>>, edges: seq<GraphEdge>, lab: Labelling, s: Machine,
                       a: Action)
    requires g.Valid() && k > 0 && AllIn(funs, edges) && Covered(g, k, funs, edges) && Respects(g, k, funs, edges, lab)
    requires Enabled(|funs|, Plain(edges), s, a) && Fits(g, k, funs, edges, s, a) && a.Flow?
    ensures LabelIn(g, k, funs, lab, a.edge.from, a.fromFrame.calls) == LabelIn(g, k, funs, lab, a.edge.to, a.toFrame.calls)
  {
    hide FrameOk, JoinsContexts, AllVisible, ContextOf, FramesFit, TagsFit, CallGraphView.Valid, Recorded, GlobalsPassed;
    var i: nat :| i < |edges| && FlowsAlong(k, funs, edges, a, i);
    FittingFramesJoined(g, k, funs, edges[i], a.fromFrame.calls, a.toFrame.calls);
  }

  lemma StepTracks(g: CallGraphView, k: nat, funs: seq<Option<Function>>, edges: seq<GraphEdge>, lab: Labelling, s: Machine, a: Action)
    requires g.Valid() && k > 0 && AllIn(funs, edges) && Covered(g, k, funs, edges) && Respects(g, k, funs, edges, lab)
    requires Enabled(|funs|, Plain(edges), s, a) && Fits(g, k, funs, edges, s, a) && Tracks(g, k, funs, lab, s)
    ensures Tracks(g, k, funs, lab, Apply(|funs|, Plain(edges), s, a))
  {
    hide Respects, FrameOk, LabelIn, Covered, FlowsAlong, CallGraphView.Valid;
    if a.Flow? {
      FlowKeepsLabel(g, k, funs, edges, lab, s, a);
    }
  }

  lemma {:induction false} RunTracks(g: CallGraphView, k: nat, funs: seq<Option<Function>>, edges: seq<GraphEdge>, lab: Labelling,
                                     actions: seq<Action>, states: seq<Machine>, i: nat)
    requires g.Valid() && k > 0 && AllIn(funs, edges) && Covered(g, k, funs, edges) && Respects(g, k, funs, edges, lab)
    requires IsCallRun(g, k, funs, edges, actions, states) && i < |states|
    ensures Tracks(g, k, funs, lab, states[i])
  {
    hide Respects, Covered, Enabled, Fits, Agrees, CallGraphView.Valid;
    if i > 0 {
      RunTracks(g, k, funs, edges, lab, actions, states, i - 1);
      assert StepsAt(|funs|, Plain(edges), actions, states, i - 1) && FitsAt(g, k, funs, edges, actions, states, i - 1);
      StepTracks(g, k, funs, edges, lab, states[i - 1], actions[i - 1]);
    }
  }

  /** Values that ever hold addresses of one object, at the same time or not, are forced into one class. */
  lemma HoldersAreForced(g: CallGraphView, k: nat, funs: seq<Option<Function>>, edges: seq<GraphEdge>, actions: seq<Action>,
                         states: seq<Machine>, v: ValueId, w: ValueId, o: ValueId, calls: seq<CallSite>)
    requires g.Valid() && k > 0 && AllIn(funs, edges) && Covered(g, k, funs, edges)
    requires IsCallRun(g, k, funs, edges, actions, states) && EverHoldsOf(states, v, o, calls) && EverHoldsOf(states, w, o, calls)
    ensures v < |funs| && w < |funs| && Forced(g, k, funs, edges, v, w)
  {
    hide Respects, IsCallRun, ContextSet, FrameOk, AllVisible, ContextOf, CallGraphView.Valid;
    var i: nat, x :| i < |states| && HoldsOf(states[i], x, v, o, calls);
    var j: nat, y :| j < |states| && HoldsOf(states[j], y, w, o, calls);
    SomeLabelling(g, k, funs, edges);
    forall lab: Labelling | Respects(g, k, funs, edges, lab)
      ensures v < |funs| && w < |funs| && MeetIn(g, k, funs, lab, v, w)
    {
      RunTracks(g, k, funs, edges, lab, actions, states, i);
      RunTracks(g, k, funs, edges, lab, actions, states, j);
      FrameVisited(g, k, funs[v], x.frame.calls);
      FrameVisited(g, k, funs[w], y.frame.calls);
      assert LabelIn(g, k, funs, lab, v, x.frame.calls) == LabelIn(g, k, funs, lab, w, y.frame.calls);
    }
  }

  lemma SomeLabelling(g: CallGraphView, k: nat, funs: seq<Option<Function>>, edges: seq<GraphEdge>)
    requires g.Valid() && AllIn(funs, edges)
    ensures exists lab: Labelling :: Respects(g, k, funs, edges, lab)
  {
    var lab: Labelling := (v: ValueId, c: Context) => 0;
    assert Respects(g, k, funs, edges, lab);
  }

  ghost predicate ReportsAliases(g: CallGraphView, k: nat, funs: seq<Option<Function>>, edges: seq<GraphEdge>, r: RawResult)
    requires g.Valid() && AllIn(funs, edges)
  {
    forall actions, states, v: nat, w: nat, o: nat, calls ::
      IsCallRun(g, k, funs, edges, actions, states) && EverHoldsOf(states, v, o, calls) && EverHoldsOf(states, w, o, calls) ==>
        r.MayAlias(v, w)
  }

  /** A result that reports whatever the edges force reports all aliases of all covered runs. */
  lemma ForcedMeansReports(g: CallGraphView, k: nat, funs: seq<Option<Function>>, edges: seq<GraphEdge>, r: RawResult)
    requires g.Valid() && k > 0 && AllIn(funs, edges) && Covered(g, k, funs, edges)
    requires forall v: nat, w: nat :: v < |funs| && w < |funs| && v != w && Forced(g, k, funs, edges, v, w) ==> r.MayAlias(v, w)
    ensures ReportsAliases(g, k, funs, edges, r)
  {
    hide Covered, Forced, IsCallRun, EverHoldsOf, CallGraphView.Valid;
    forall actions, states, v: nat, w: nat, o: nat, calls
      | IsCallRun(g, k, funs, edges, actions, states) && EverHoldsOf(states, v, o, calls) && EverHoldsOf(states, w, o, calls)
      ensures r.MayAlias(v, w)
    {
      HoldersAreForced(g, k, funs, edges, actions, states, v, w, o, calls);
      SelfAlias(r, v);
    }
  }

  /** Soundness over whole runs, from the first value to the result. */
  method AnalyzeProgram(g: CallGraphView, k: nat, funs: seq<Option<Function>>, edges: seq<GraphEdge>, included: set<ValueId>)
    returns (r: RawResult)
    requires g.Valid() && k > 0 && AllIn(funs, edges) && forall i: nat :: i < |edges| ==> Recorded(g, funs, edges[i])
    ensures r.Size() == |funs| && IsConsumed(r, included)
    ensures k == 1 || Covered(g, k, funs, edges) ==> ReportsAliases(g, k, funs, edges, r)
  {
    hide Covered, Recorded, Forced, IsCallRun, EverHoldsOf, CallGraphView.Valid;
    r := ContextSoundness.AnalyzeProgram(g, k, funs, edges, included);
    if k == 1 {
      SingleCallsCovered(g, funs, edges);
    }
    if Covered(g, k, funs, edges) {
      ForcedMeansReports(g, k, funs, edges, r);
    }
  }
}
