/** The guarantees of the bottom-up analysis in terms of the edges it was given. */
module BottomupSummaries {
  import opened UnionFinds
  import opened Compressors
  import opened AliasResults
  import opened PointerAssignmentGraph
  import opened BottomupAA

  type SiteEdge = (Edge, CallSite)

  ghost predicate CrossingReturn(sccs: seq<Option<SccId>>, e: SiteEdge, s: SccId, cs: CallSite, slot: ValueId) {
    && e.0.kind.Return? && e.0.from < |sccs| && e.0.to < |sccs| && e.1 == cs && e.0.to == slot
    && sccs[e.0.to] == Some(s) && sccs[e.0.from].Some? && sccs[e.0.from] != Some(s)
  }

  /** What the source demands of its callers: known values and components, and all returns at one call site go to
      the same value. */
  ghost predicate GraphOk(numSccs: nat, sccs: seq<Option<SccId>>, edges: seq<SiteEdge>) {
    && (forall v: nat :: v < |sccs| && sccs[v].Some? ==> sccs[v].value < numSccs)
    && (forall i: nat :: i < |edges| ==> InRange(sccs, edges[i]))
    && (forall i: nat, j: nat, s: nat, cs: CallSite, v: nat, w: nat ::
          i < |edges| && j < |edges| && CrossingReturn(sccs, edges[i], s, cs, v) && CrossingReturn(sccs, edges[j], s, cs, w) ==>
            v == w)
  }

  ghost predicate InRange(sccs: seq<Option<SccId>>, e: SiteEdge) {
    e.0.from < |sccs| && e.0.to < |sccs|
  }

  /** Callee components have greater ids than caller components. */
  ghost predicate CalleesLater(sccs: seq<Option<SccId>>, e: SiteEdge) {
    e.0.from < |sccs| && e.0.to < |sccs| && sccs[e.0.from].Some? && sccs[e.0.to].Some? && sccs[e.0.from] != sccs[e.0.to] ==>
      && (e.0.kind.Call? ==> sccs[e.0.from].value < sccs[e.0.to].value)
      && (e.0.kind.Return? ==> sccs[e.0.to].value < sccs[e.0.from].value)
  }

  /** The components are in order, and the edges that do not cross components put no two of them into one class. */
  ghost predicate Ordered(sccs: seq<Option<SccId>>, edges: seq<SiteEdge>) {
    && (forall i: nat :: i < |edges| ==> CalleesLater(sccs, edges[i]))
    && (exists r: seq<nat> :: LocalEdgesHeld(sccs, edges, r) && Local(sccs, r))
  }

  /** An edge has been recorded at its call site or its ends are in one class. */
  ghost predicate Recorded(sccs: seq<Option<SccId>>, calls: seq<map<CallSite, CallSiteInfo>>, p: Partition, e: SiteEdge) {
    if Crosses(sccs, e.0) then
      var s := sccs[Actual(e.0)].value;
      s < |calls| && e.1 in calls[s] && Binds(calls[s][e.1], Actual(e.0), Formal(e.0))
    else
      Same(p, e.0.from, e.0.to)
  }

  /** A slot for returned values stems from a return edge, and without one nothing is returned. */
  ghost predicate SlotsOk(sccs: seq<Option<SccId>>, calls: seq<map<CallSite, CallSiteInfo>>, edges: seq<SiteEdge>) {
    forall s: nat, cs: CallSite {:trigger calls[s][cs]} :: s < |calls| && cs in calls[s] ==>
      SlotOk(sccs, calls[s][cs], edges, s, cs)
  }

  ghost predicate SlotOk(sccs: seq<Option<SccId>>, info: CallSiteInfo, edges: seq<SiteEdge>, s: SccId, cs: CallSite) {
    if info.retSlot.None? then info.ret == []
    else exists i: nat :: i < |edges| && CrossingReturn(sccs, edges[i], s, cs, info.retSlot.value)
  }

  ghost predicate Reflects(sccs: seq<Option<SccId>>, calls: seq<map<CallSite, CallSiteInfo>>, p: Partition, edges: seq<SiteEdge>) {
    SlotsOk(sccs, calls, edges) && forall i: nat :: i < |edges| ==> Recorded(sccs, calls, p, edges[i])
  }

  /** Recording an edge adds exactly one binding at its call site. */
  lemma BindsAfter(calls: seq<map<CallSite, CallSiteInfo>>, s: SccId, cs: CallSite, e: Edge, a: ValueId, f: ValueId)
    requires s < |calls| && (e.kind.Call? || e.kind.Return?)
    requires e.kind.Return? ==> SlotOf(calls[s], cs) == Some(e.to) || (SlotOf(calls[s], cs).None? && InfoAt(calls[s], cs).ret == [])
    ensures cs in WithBinding(calls, s, cs, e)[s]
    ensures Binds(WithBinding(calls, s, cs, e)[s][cs], a, f) <==>
            Binds(InfoAt(calls[s], cs), a, f) || (a == Actual(e) && f == Formal(e))
  {
  }

  lemma SlotIsFree(numSccs: nat, sccs: seq<Option<SccId>>, calls: seq<map<CallSite, CallSiteInfo>>,
                   edges: seq<SiteEdge>, n: nat, s: SccId)
    requires GraphOk(numSccs, sccs, edges) && n < |edges| && SlotsOk(sccs, calls, edges[..n])
    requires edges[n].0.kind.Return? && Crosses(sccs, edges[n].0) && sccs[edges[n].0.to] == Some(s) && s < |calls|
    ensures SlotOf(calls[s], edges[n].1) in {None, Some(edges[n].0.to)}
    ensures SlotOf(calls[s], edges[n].1).None? ==> InfoAt(calls[s], edges[n].1).ret == []
  {
    var cs := edges[n].1;
    if cs in calls[s] {
      assert SlotOk(sccs, calls[s][cs], edges[..n], s, cs);
      if calls[s][cs].retSlot.Some? {
        var i: nat :| i < n && CrossingReturn(sccs, edges[..n][i], s, cs, calls[s][cs].retSlot.value);
        assert edges[..n][i] == edges[i];
        assert CrossingReturn(sccs, edges[n], s, cs, edges[n].0.to);
      }
    }
  }

  lemma RecordKeepsCalls(ordered: bool, sccs: seq<Option<SccId>>, calls: seq<map<CallSite, CallSiteInfo>>,
                         idsForSum: seq<set<ValueId>>, e: SiteEdge,
                         calls': seq<map<CallSite, CallSiteInfo>>, idsForSum': seq<set<ValueId>>)
    requires CallsIf(ordered, sccs, calls, idsForSum) && Crosses(sccs, e.0) && (ordered ==> CalleesLater(sccs, e))
    requires sccs[Formal(e.0)].value < |calls| && sccs[Actual(e.0)].value < |calls|
    requires var s := sccs[Actual(e.0)].value;
             e.0.kind.Return? ==> SlotOf(calls[s], e.1) == Some(e.0.to) || (SlotOf(calls[s], e.1).None? && InfoAt(calls[s], e.1).ret == [])
    requires calls' == WithBinding(calls, sccs[Actual(e.0)].value, e.1, e.0)
    requires var t := sccs[Formal(e.0)].value; idsForSum' == idsForSum[t := idsForSum[t] + {Formal(e.0)}]
    ensures CallsIf(ordered, sccs, calls', idsForSum')
  {
    var s0 := sccs[Actual(e.0)].value;
    forall t: nat | t < |idsForSum|
      ensures idsForSum[t] <= idsForSum'[t]
    {
    }
    forall s: nat, k: CallSite, a: nat, f: nat | s < |calls'| && k in calls'[s] && Binds(calls'[s][k], a, f)
      ensures a < |sccs| && f < |sccs| && (ordered ==> BindingOk(sccs, idsForSum', s, a, f))
    {
      if s == s0 && k == e.1 {
        BindsAfter(calls, s0, e.1, e.0, a, f);
        if Binds(InfoAt(calls[s0], e.1), a, f) {
          assert e.1 in calls[s0] && (ordered ==> BindingOk(sccs, idsForSum, s, a, f));
        }
      } else {
        assert calls'[s][k] == calls[s][k];
        assert ordered ==> BindingOk(sccs, idsForSum, s, a, f);
      }
    }
  }

  lemma RecordKeepsReflects(sccs: seq<Option<SccId>>, calls: seq<map<CallSite, CallSiteInfo>>, p: Partition,
                            edges: seq<SiteEdge>, e: SiteEdge, calls': seq<map<CallSite, CallSiteInfo>>)
    requires Reflects(sccs, calls, p, edges) && Crosses(sccs, e.0)
    requires sccs[Actual(e.0)].value < |calls|
    requires var s := sccs[Actual(e.0)].value;
             e.0.kind.Return? ==> SlotOf(calls[s], e.1) == Some(e.0.to) || (SlotOf(calls[s], e.1).None? && InfoAt(calls[s], e.1).ret == [])
    requires calls' == WithBinding(calls, sccs[Actual(e.0)].value, e.1, e.0)
    ensures Reflects(sccs, calls', p, edges + [e])
  {
    var s0, edges' := sccs[Actual(e.0)].value, edges + [e];
    forall i: nat | i < |edges'|
      ensures Recorded(sccs, calls', p, edges'[i])
    {
      if i == |edges| {
        BindsAfter(calls, s0, e.1, e.0, Actual(e.0), Formal(e.0));
      } else {
        assert Recorded(sccs, calls, p, edges[i]);
        if Crosses(sccs, edges[i].0) && edges[i].1 == e.1 && sccs[Actual(edges[i].0)].value == s0 {
          BindsAfter(calls, s0, e.1, e.0, Actual(edges[i].0), Formal(edges[i].0));
        }
      }
    }
    forall s: nat, cs: CallSite | s < |calls'| && cs in calls'[s]
      ensures SlotOk(sccs, calls'[s][cs], edges', s, cs)
    {
      if s == s0 && cs == e.1 && e.0.kind.Return? {
        assert CrossingReturn(sccs, edges'[|edges|], s, cs, e.0.to);
      } else if cs in calls[s] {
        SlotOkLater(sccs, calls[s][cs], edges, e, s, cs);
        SlotOkSame(sccs, calls[s][cs], calls'[s][cs], edges', s, cs);
      }
    }
  }

  lemma SlotOkSame(sccs: seq<Option<SccId>>, info: CallSiteInfo, info': CallSiteInfo, edges: seq<SiteEdge>, s: SccId, cs: CallSite)
    requires SlotOk(sccs, info, edges, s, cs) && info'.retSlot == info.retSlot && info'.ret == info.ret
    ensures SlotOk(sccs, info', edges, s, cs)
  {
  }

  lemma SlotOkLater(sccs: seq<Option<SccId>>, info: CallSiteInfo, edges: seq<SiteEdge>, e: SiteEdge, s: SccId, cs: CallSite)
    requires SlotOk(sccs, info, edges, s, cs)
    ensures SlotOk(sccs, info, edges + [e], s, cs)
  {
    if info.retSlot.Some? {
      var i: nat :| i < |edges| && CrossingReturn(sccs, edges[i], s, cs, info.retSlot.value);
      assert (edges + [e])[i] == edges[i];
    }
  }

  lemma JoinKeepsReflects(sccs: seq<Option<SccId>>, calls: seq<map<CallSite, CallSiteInfo>>, p: Partition, q: Partition,
                          edges: seq<SiteEdge>, e: SiteEdge)
    requires Reflects(sccs, calls, p, edges) && Refines(p, q)
    requires !Crosses(sccs, e.0) && Same(q, e.0.from, e.0.to)
    ensures Reflects(sccs, calls, q, edges + [e])
  {
    var edges' := edges + [e];
    forall i: nat | i < |edges'|
      ensures Recorded(sccs, calls, q, edges'[i])
    {
      if i < |edges| {
        assert Recorded(sccs, calls, p, edges[i]);
      }
    }
    forall s: nat, cs: CallSite | s < |calls| && cs in calls[s]
      ensures SlotOk(sccs, calls[s][cs], edges', s, cs)
    {
      SlotOkLater(sccs, calls[s][cs], edges, e, s, cs);
    }
  }

  /** At call site cs of component s, the edge passes the actual value a to the formal value f of another component,
      or returns f to a. */
  ghost predicate BoundBy(sccs: seq<Option<SccId>>, e: SiteEdge, s: SccId, cs: CallSite, a: ValueId, f: ValueId) {
    && a < |sccs| && f < |sccs| && e.1 == cs && sccs[a] == Some(s) && sccs[f].Some? && sccs[f] != Some(s)
    && ((e.0.kind.Call? && e.0.from == a && e.0.to == f) || (e.0.kind.Return? && e.0.to == a && e.0.from == f))
  }

  ghost predicate BoundByAny(sccs: seq<Option<SccId>>, edges: seq<SiteEdge>, s: SccId, cs: CallSite, a: ValueId, f: ValueId) {
    exists i: nat :: i < |edges| && BoundBy(sccs, edges[i], s, cs, a, f)
  }

  /** Nothing but edges has been recorded. */
  ghost predicate OnlyRecords(sccs: seq<Option<SccId>>, calls: seq<map<CallSite, CallSiteInfo>>, edges: seq<SiteEdge>) {
    forall s: nat, cs: CallSite, a: nat, f: nat :: s < |calls| && cs in calls[s] && Binds(calls[s][cs], a, f) ==>
      BoundByAny(sccs, edges, s, cs, a, f)
  }

  /** The labelling puts the ends of every edge together that does not cross components. */
  ghost predicate LocalEdgesHeld(sccs: seq<Option<SccId>>, edges: seq<SiteEdge>, r: seq<nat>) {
    |r| == |sccs| && forall i: nat :: i < |edges| ==> LocalEdgeHeld(sccs, edges[i].0, r)
  }

  ghost predicate LocalEdgeHeld(sccs: seq<Option<SccId>>, e: Edge, r: seq<nat>)
    requires |r| == |sccs|
  {
    ((e.kind.Call? || e.kind.Return?) && e.from < |sccs| && e.to < |sccs| && sccs[e.from].Some? && sccs[e.to].Some? &&
     sccs[e.from] != sccs[e.to])
    || Same(r, e.from, e.to)
  }

  ghost predicate OnlyLocalJoins(sccs: seq<Option<SccId>>, p: Partition, edges: seq<SiteEdge>) {
    |p| == |sccs| && forall r: seq<nat> :: LocalEdgesHeld(sccs, edges, r) ==> Refines(p, r)
  }

  lemma NothingReflected(sccs: seq<Option<SccId>>, calls: seq<map<CallSite, CallSiteInfo>>)
    requires forall s: nat :: s < |calls| ==> calls[s] == map[]
    ensures Reflects(sccs, calls, Singletons(|sccs|), [])
    ensures OnlyRecords(sccs, calls, []) && OnlyLocalJoins(sccs, Singletons(|sccs|), [])
  {
  }

  lemma RecordAddsOnly(sccs: seq<Option<SccId>>, calls: seq<map<CallSite, CallSiteInfo>>, p: Partition, edges: seq<SiteEdge>,
                       e: SiteEdge, calls': seq<map<CallSite, CallSiteInfo>>)
    requires OnlyRecords(sccs, calls, edges) && OnlyLocalJoins(sccs, p, edges) && Crosses(sccs, e.0)
    requires sccs[Actual(e.0)].value < |calls|
    requires var s := sccs[Actual(e.0)].value;
             e.0.kind.Return? ==> SlotOf(calls[s], e.1) == Some(e.0.to) || (SlotOf(calls[s], e.1).None? && InfoAt(calls[s], e.1).ret == [])
    requires calls' == WithBinding(calls, sccs[Actual(e.0)].value, e.1, e.0)
    ensures OnlyRecords(sccs, calls', edges + [e]) && OnlyLocalJoins(sccs, p, edges + [e])
  {
    var s0, edges' := sccs[Actual(e.0)].value, edges + [e];
    forall s: nat, cs: CallSite, a: nat, f: nat | s < |calls'| && cs in calls'[s] && Binds(calls'[s][cs], a, f)
      ensures BoundByAny(sccs, edges', s, cs, a, f)
    {
      if s == s0 && cs == e.1 {
        BindsAfter(calls, s0, e.1, e.0, a, f);
      }
      if a == Actual(e.0) && f == Formal(e.0) && s == s0 && cs == e.1 {
        assert BoundBy(sccs, edges'[|edges|], s, cs, a, f);
      } else {
        assert cs in calls[s] && Binds(calls[s][cs], a, f);
        assert BoundByAny(sccs, edges, s, cs, a, f);
        var i: nat :| i < |edges| && BoundBy(sccs, edges[i], s, cs, a, f);
        assert edges'[i] == edges[i];
      }
    }
    FewerEdges(sccs, p, edges, e);
  }

  lemma FewerEdges(sccs: seq<Option<SccId>>, p: Partition, edges: seq<SiteEdge>, e: SiteEdge)
    requires OnlyLocalJoins(sccs, p, edges)
    ensures OnlyLocalJoins(sccs, p, edges + [e])
  {
    forall r: seq<nat> | LocalEdgesHeld(sccs, edges + [e], r)
      ensures Refines(p, r)
    {
      assert forall i: nat :: i < |edges| ==> (edges + [e])[i] == edges[i];
      assert LocalEdgesHeld(sccs, edges, r);
    }
  }

  lemma JoinAddsOnly(sccs: seq<Option<SccId>>, calls: seq<map<CallSite, CallSiteInfo>>, p: Partition, edges: seq<SiteEdge>, e: SiteEdge)
    requires OnlyRecords(sccs, calls, edges) && OnlyLocalJoins(sccs, p, edges) && !Crosses(sccs, e.0)
    requires e.0.from < |sccs| && e.0.to < |sccs|
    ensures OnlyRecords(sccs, calls, edges + [e]) && OnlyLocalJoins(sccs, Joined(p, e.0.from, e.0.to), edges + [e])
  {
    var edges' := edges + [e];
    FewerEdges(sccs, p, edges, e);
    forall r: seq<nat> | LocalEdgesHeld(sccs, edges', r)
      ensures Refines(Joined(p, e.0.from, e.0.to), r)
    {
      assert edges'[|edges|] == e && Same(r, e.0.from, e.0.to);
      JoinedLeast(p, e.0.from, e.0.to, r);
    }
    forall s: nat, cs: CallSite, a: nat, f: nat | s < |calls| && cs in calls[s] && Binds(calls[s][cs], a, f)
      ensures BoundByAny(sccs, edges', s, cs, a, f)
    {
      assert BoundByAny(sccs, edges, s, cs, a, f);
      var i: nat :| i < |edges| && BoundBy(sccs, edges[i], s, cs, a, f);
      assert edges'[i] == edges[i];
    }
  }

  /** What the analysis has recorded before it propagates anything. */
  datatype Records = Records(calls: seq<map<CallSite, CallSiteInfo>>, idsForSum: seq<set<ValueId>>, p: Partition)

  ghost function WithEdge(sccs: seq<Option<SccId>>, x: Records, e: SiteEdge): (y: Records)
    requires InRange(sccs, e) && |x.calls| == |x.idsForSum| && |x.p| == |sccs|
    ensures |y.calls| == |y.idsForSum| == |x.calls| && |y.p| == |sccs|
  {
    if !Crosses(sccs, e.0) then x.(p := Joined(x.p, e.0.from, e.0.to)) else
      var s, t := sccs[Actual(e.0)].value, sccs[Formal(e.0)].value;
      if s < |x.calls| && t < |x.calls|
      then x.(calls := WithBinding(x.calls, s, e.1, e.0), idsForSum := x.idsForSum[t := x.idsForSum[t] + {Formal(e.0)}])
      else x
  }

  ghost function RecordsOf(numSccs: nat, sccs: seq<Option<SccId>>, edges: seq<SiteEdge>): (x: Records)
    requires forall i: nat :: i < |edges| ==> InRange(sccs, edges[i])
    ensures |x.calls| == |x.idsForSum| == numSccs && |x.p| == |sccs|
  {
    if edges == [] then Records(seq(numSccs, _ => map[]), seq(numSccs, _ => {}), Singletons(|sccs|))
    else WithEdge(sccs, RecordsOf(numSccs, sccs, edges[..|edges| - 1]), edges[|edges| - 1])
  }

  lemma RecordsMore(numSccs: nat, sccs: seq<Option<SccId>>, edges: seq<SiteEdge>, e: SiteEdge)
    requires InRange(sccs, e) && forall i: nat :: i < |edges| ==> InRange(sccs, edges[i])
    ensures forall i: nat :: i < |edges + [e]| ==> InRange(sccs, (edges + [e])[i])
    ensures RecordsOf(numSccs, sccs, edges + [e]) == WithEdge(sccs, RecordsOf(numSccs, sccs, edges), e)
  {
    assert (edges + [e])[..|edges|] == edges;
  }

  /** Reports all values and then all edges to a new analysis. */
  method BuildGraph(numSccs: nat, sccs: seq<Option<SccId>>, edges: seq<SiteEdge>) returns (aa: BottomupUnionFindAA)
    requires GraphOk(numSccs, sccs, edges)
    ensures fresh(aa) && fresh(aa.aliasSets) && aa.Valid() && aa.sccOfVal == sccs
    ensures CallsIf(Ordered(sccs, edges), sccs, aa.calls, aa.idsForSum)
    ensures Ordered(sccs, edges) ==> Local(sccs, aa.aliasSets.leaders)
    ensures Reflects(sccs, aa.calls, aa.aliasSets.leaders, edges)
    ensures OnlyRecords(sccs, aa.calls, edges) && OnlyLocalJoins(sccs, aa.aliasSets.leaders, edges)
    ensures RecordsOf(numSccs, sccs, edges) == Records(aa.calls, aa.idsForSum, aa.aliasSets.leaders)
  {
    hide OnlyRecords, OnlyLocalJoins, Ordered, Reflects, Local, WithEdge;
    aa := new BottomupUnionFindAA(numSccs);
    for v := 0 to |sccs|
      invariant fresh(aa) && fresh(aa.aliasSets) && aa.Valid()
      invariant aa.sccOfVal == sccs[..v] && aa.aliasSets.leaders == Singletons(v)
      invariant aa.calls == seq(numSccs, _ => map[]) && aa.idsForSum == seq(numSccs, _ => {})
    {
      SingletonsGrown(v, v + 1);
      aa.OnAddValue(v, sccs[v]);
      assert sccs[..v + 1] == sccs[..v] + [sccs[v]];
    }
    assert sccs[..|sccs|] == sccs && edges[..0] == [];
    NothingReflected(sccs, aa.calls);
    ghost var ordered := Ordered(sccs, edges);
    for i := 0 to |edges|
      invariant fresh(aa) && fresh(aa.aliasSets) && aa.Valid() && aa.sccOfVal == sccs && |aa.calls| == numSccs
      invariant CallsIf(ordered, sccs, aa.calls, aa.idsForSum)
      invariant Reflects(sccs, aa.calls, aa.aliasSets.leaders, edges[..i])
      invariant OnlyRecords(sccs, aa.calls, edges[..i]) && OnlyLocalJoins(sccs, aa.aliasSets.leaders, edges[..i])
      invariant RecordsOf(numSccs, sccs, edges[..i]) == Records(aa.calls, aa.idsForSum, aa.aliasSets.leaders)
    {
      RecordsMore(numSccs, sccs, edges[..i], edges[i]);
      AddEdge(aa, numSccs, edges, i);
      assert edges[..i + 1] == edges[..i] + [edges[i]];
    }
    assert edges[..|edges|] == edges;
    if ordered {
      OrderedIsLocal(sccs, edges, aa.aliasSets.leaders);
    }
  }

  lemma OrderedIsLocal(sccs: seq<Option<SccId>>, edges: seq<SiteEdge>, p: Partition)
    requires Ordered(sccs, edges) && OnlyLocalJoins(sccs, p, edges)
    ensures Local(sccs, p)
  {
    var r: seq<nat> :| LocalEdgesHeld(sccs, edges, r) && Local(sccs, r);
    assert Refines(p, r);
    forall v: nat, w: nat | Same(p, v, w) && sccs[v].Some? && sccs[w].Some?
      ensures sccs[v] == sccs[w]
    {
      assert Same(r, v, w);
    }
  }

  lemma OrderedEdge(sccs: seq<Option<SccId>>, edges: seq<SiteEdge>, i: nat)
    requires Ordered(sccs, edges) && i < |edges|
    ensures CalleesLater(sccs, edges[i])
  {
  }

  method AddEdge(aa: BottomupUnionFindAA, ghost numSccs: nat, edges: seq<SiteEdge>, i: nat)
    requires aa.Valid() && GraphOk(numSccs, aa.sccOfVal, edges) && |aa.calls| == numSccs && i < |edges|
    requires CallsIf(Ordered(aa.sccOfVal, edges), aa.sccOfVal, aa.calls, aa.idsForSum)
    requires Reflects(aa.sccOfVal, aa.calls, aa.aliasSets.leaders, edges[..i])
    requires OnlyRecords(aa.sccOfVal, aa.calls, edges[..i]) && OnlyLocalJoins(aa.sccOfVal, aa.aliasSets.leaders, edges[..i])
    modifies aa, aa.aliasSets
    ensures aa.Valid() && aa.sccOfVal == old(aa.sccOfVal) && |aa.calls| == numSccs
    ensures CallsIf(Ordered(aa.sccOfVal, edges), aa.sccOfVal, aa.calls, aa.idsForSum)
    ensures Reflects(aa.sccOfVal, aa.calls, aa.aliasSets.leaders, edges[..i] + [edges[i]])
    ensures OnlyRecords(aa.sccOfVal, aa.calls, edges[..i] + [edges[i]])
    ensures OnlyLocalJoins(aa.sccOfVal, aa.aliasSets.leaders, edges[..i] + [edges[i]])
    ensures WithEdge(aa.sccOfVal, old(Records(aa.calls, aa.idsForSum, aa.aliasSets.leaders)), edges[i]) ==
              Records(aa.calls, aa.idsForSum, aa.aliasSets.leaders)
  {
    hide OnlyRecords, OnlyLocalJoins, Ordered, CallsIf, Reflects, WithEdge;
    ghost var sccs, x := aa.sccOfVal, Records(aa.calls, aa.idsForSum, aa.aliasSets.leaders);
    assert InRange(sccs, edges[i]);
    SlotFits(numSccs, sccs, x.calls, x.p, edges, i);
    RecordEdge(aa, edges[i].0, edges[i].1);
    EdgeKeeps(numSccs, sccs, x, edges, i);
  }

  lemma SlotFits(numSccs: nat, sccs: seq<Option<SccId>>, calls: seq<map<CallSite, CallSiteInfo>>, p: Partition, edges: seq<SiteEdge>, i: nat)
    requires GraphOk(numSccs, sccs, edges) && |calls| == numSccs && i < |edges| && Reflects(sccs, calls, p, edges[..i])
    ensures InRange(sccs, edges[i]) && forall v: nat :: v < |sccs| && sccs[v].Some? ==> sccs[v].value < |calls|
    ensures Crosses(sccs, edges[i].0) && edges[i].0.kind.Return? ==>
              var s := sccs[edges[i].0.to].value;
              && SlotOf(calls[s], edges[i].1) in {None, Some(edges[i].0.to)}
              && (SlotOf(calls[s], edges[i].1).None? ==> InfoAt(calls[s], edges[i].1).ret == [])
  {
    var (e, cs) := edges[i];
    if Crosses(sccs, e) && e.kind.Return? {
      SlotIsFree(numSccs, sccs, calls, edges, i, sccs[e.to].value);
    }
  }

  method RecordEdge(aa: BottomupUnionFindAA, e: Edge, cs: CallSite)
    requires aa.Valid() && InRange(aa.sccOfVal, (e, cs))
    requires forall v: nat :: v < |aa.sccOfVal| && aa.sccOfVal[v].Some? ==> aa.sccOfVal[v].value < |aa.calls|
    requires Crosses(aa.sccOfVal, e) && e.kind.Return? ==> SlotOf(aa.calls[aa.sccOfVal[e.to].value], cs) in {None, Some(e.to)}
    modifies aa, aa.aliasSets
    ensures aa.Valid() && aa.sccOfVal == old(aa.sccOfVal)
    ensures WithEdge(aa.sccOfVal, old(Records(aa.calls, aa.idsForSum, aa.aliasSets.leaders)), (e, cs)) ==
              Records(aa.calls, aa.idsForSum, aa.aliasSets.leaders)
  {
    aa.OnAddEdge(e, cs);
  }

  /** One more edge keeps what is known about the records. */
  lemma EdgeKeeps(numSccs: nat, sccs: seq<Option<SccId>>, x: Records, edges: seq<SiteEdge>, i: nat)
    requires GraphOk(numSccs, sccs, edges) && |x.calls| == |x.idsForSum| == numSccs && i < |edges| && |x.p| == |sccs|
    requires CallsIf(Ordered(sccs, edges), sccs, x.calls, x.idsForSum) && Reflects(sccs, x.calls, x.p, edges[..i])
    requires OnlyRecords(sccs, x.calls, edges[..i]) && OnlyLocalJoins(sccs, x.p, edges[..i])
    ensures var y := WithEdge(sccs, x, edges[i]);
            && CallsIf(Ordered(sccs, edges), sccs, y.calls, y.idsForSum) && Reflects(sccs, y.calls, y.p, edges[..i] + [edges[i]])
            && OnlyRecords(sccs, y.calls, edges[..i] + [edges[i]]) && OnlyLocalJoins(sccs, y.p, edges[..i] + [edges[i]])
  {
    SlotFits(numSccs, sccs, x.calls, x.p, edges, i);
    hide OnlyRecords, OnlyLocalJoins, Ordered, CallsIf, Reflects, GraphOk;
    var y, e := WithEdge(sccs, x, edges[i]), edges[i].0;
    if Ordered(sccs, edges) {
      OrderedEdge(sccs, edges, i);
    }
    if Crosses(sccs, e) {
      RecordKeepsCalls(Ordered(sccs, edges), sccs, x.calls, x.idsForSum, edges[i], y.calls, y.idsForSum);
      RecordKeepsReflects(sccs, x.calls, x.p, edges[..i], edges[i], y.calls);
      RecordAddsOnly(sccs, x.calls, x.p, edges[..i], edges[i], y.calls);
    } else {
      JoinedRefines(x.p, e.from, e.to);
      JoinKeepsReflects(sccs, x.calls, x.p, y.p, edges[..i], edges[i]);
      JoinAddsOnly(sccs, x.calls, x.p, edges[..i], edges[i]);
    }
  }

  /** Actual values alias wherever their formals do. */
  ghost predicate Summarises(sccs: seq<Option<SccId>>, edges: seq<SiteEdge>, r: RawResult) {
    forall i: nat, j: nat, s: nat, cs: CallSite, a: nat, f: nat, b: nat, g: nat ::
      i < |edges| && j < |edges| && BoundBy(sccs, edges[i], s, cs, a, f) && BoundBy(sccs, edges[j], s, cs, b, g) && r.MayAlias(f, g) ==>
        r.MayAlias(a, b)
  }

  /** No alias leaves its component. */
  ghost predicate StaysInside(sccs: seq<Option<SccId>>, r: RawResult) {
    forall v: nat, w: nat :: v < |sccs| && w < |sccs| && r.MayAlias(v, w) && sccs[v].Some? && sccs[w].Some? ==> sccs[v] == sccs[w]
  }

  /** The ends of every edge that does not cross components alias. */
  ghost predicate JoinsLocalEdges(sccs: seq<Option<SccId>>, edges: seq<SiteEdge>, r: RawResult) {
    forall i: nat :: i < |edges| && edges[i].0.from < |sccs| && edges[i].0.to < |sccs| &&
                     ((!edges[i].0.kind.Call? && !edges[i].0.kind.Return?) ||
                      sccs[edges[i].0.from].None? || sccs[edges[i].0.to].None? || sccs[edges[i].0.from] == sccs[edges[i].0.to]) ==>
      r.MayAlias(edges[i].0.from, edges[i].0.to)
  }

  /** A labelling that fulfils what the edges ask for. */
  ghost predicate FulfilsEdges(sccs: seq<Option<SccId>>, edges: seq<SiteEdge>, r: seq<nat>) {
    && LocalEdgesHeld(sccs, edges, r)
    && (forall i: nat, j: nat, s: nat, cs: CallSite, a: nat, f: nat, b: nat, g: nat ::
          i < |edges| && j < |edges| && BoundBy(sccs, edges[i], s, cs, a, f) && BoundBy(sccs, edges[j], s, cs, b, g) && Same(r, f, g) ==>
            Same(r, a, b))
  }

  /** No alias is reported that the edges do not ask for. */
  ghost predicate NothingElse(sccs: seq<Option<SccId>>, edges: seq<SiteEdge>, r: RawResult) {
    forall q: seq<nat>, v: nat, w: nat :: FulfilsEdges(sccs, edges, q) && v < |sccs| && w < |sccs| && r.MayAlias(v, w) ==> q[v] == q[w]
  }

  lemma FulfilsSummaries(sccs: seq<Option<SccId>>, calls: seq<map<CallSite, CallSiteInfo>>, edges: seq<SiteEdge>, r: seq<nat>)
    requires FulfilsEdges(sccs, edges, r) && OnlyRecords(sccs, calls, edges)
    ensures SummarisedFrom(r, calls, 0)
  {
    forall s: nat, cs: CallSite | s < |calls| && cs in calls[s]
      ensures Summarised(r, calls[s][cs])
    {
      forall a: nat, f: nat, b: nat, g: nat
        | Binds(calls[s][cs], a, f) && Binds(calls[s][cs], b, g) && Same(r, f, g)
        ensures Same(r, a, b)
      {
        assert BoundByAny(sccs, edges, s, cs, a, f) && BoundByAny(sccs, edges, s, cs, b, g);
        var i: nat :| i < |edges| && BoundBy(sccs, edges[i], s, cs, a, f);
        var j: nat :| j < |edges| && BoundBy(sccs, edges[j], s, cs, b, g);
      }
    }
  }

  lemma SummariesShowNothingElse(sccs: seq<Option<SccId>>, calls: seq<map<CallSite, CallSiteInfo>>, p: Partition, q: Partition,
                                 edges: seq<SiteEdge>, r: RawResult)
    requires OnlyRecords(sccs, calls, edges) && OnlyLocalJoins(sccs, p, edges) && OnlySummarises(p, q, calls)
    requires forall v: nat, w: nat :: v < |sccs| && w < |sccs| ==> (r.MayAlias(v, w) <==> Same(q, v, w))
    ensures NothingElse(sccs, edges, r)
  {
    forall l: seq<nat>, v: nat, w: nat | FulfilsEdges(sccs, edges, l) && v < |sccs| && w < |sccs| && r.MayAlias(v, w)
      ensures l[v] == l[w]
    {
      FulfilsSummaries(sccs, calls, edges, l);
      assert Refines(p, l) && Refines(q, l) && Same(q, v, w);
    }
  }

  lemma SummariesShow(sccs: seq<Option<SccId>>, calls: seq<map<CallSite, CallSiteInfo>>, p: Partition, q: Partition,
                      edges: seq<SiteEdge>, r: RawResult)
    requires Reflects(sccs, calls, p, edges) && Local(sccs, q) && SummarisedFrom(q, calls, 0)
    requires forall v: nat, w: nat :: v < |sccs| && w < |sccs| ==> (r.MayAlias(v, w) <==> Same(q, v, w))
    ensures Summarises(sccs, edges, r) && StaysInside(sccs, r)
  {
    forall i: nat, j: nat, s: nat, cs: CallSite, a: nat, f: nat, b: nat, g: nat | i < |edges| && j < |edges| &&
        BoundBy(sccs, edges[i], s, cs, a, f) && BoundBy(sccs, edges[j], s, cs, b, g) && r.MayAlias(f, g)
      ensures r.MayAlias(a, b)
    {
      assert Recorded(sccs, calls, p, edges[i]) && Recorded(sccs, calls, p, edges[j]);
      assert Summarised(q, calls[s][cs]);
      assert Binds(calls[s][cs], a, f) && Binds(calls[s][cs], b, g);
    }
  }

  lemma LocalEdgesShow(sccs: seq<Option<SccId>>, calls: seq<map<CallSite, CallSiteInfo>>, p: Partition, q: Partition,
                       edges: seq<SiteEdge>, r: RawResult)
    requires Reflects(sccs, calls, p, edges) && Refines(p, q) && |q| == |sccs|
    requires forall v: nat, w: nat :: v < |sccs| && w < |sccs| ==> (r.MayAlias(v, w) <==> Same(q, v, w))
    ensures JoinsLocalEdges(sccs, edges, r)
  {
    forall i: nat | i < |edges| && !Crosses(sccs, edges[i].0)
      ensures r.MayAlias(edges[i].0.from, edges[i].0.to)
    {
      assert Recorded(sccs, calls, p, edges[i]) && Same(q, edges[i].0.from, edges[i].0.to);
    }
  }

  /** If the components are numbered callees later, it depends on the other edges alone whether aliases stay inside. */
  lemma InsideExactly(sccs: seq<Option<SccId>>, edges: seq<SiteEdge>, p: Partition, r: RawResult)
    requires (forall i: nat :: i < |edges| ==> InRange(sccs, edges[i]) && CalleesLater(sccs, edges[i])) && |p| == |sccs|
    requires forall v: nat, w: nat :: v < |sccs| && w < |sccs| ==> (r.MayAlias(v, w) <==> Same(p, v, w))
    requires JoinsLocalEdges(sccs, edges, r) && (Ordered(sccs, edges) ==> Local(sccs, p))
    ensures Ordered(sccs, edges) <==> StaysInside(sccs, r)
  {
    if StaysInside(sccs, r) {
      assert LocalEdgesHeld(sccs, edges, p) && Local(sccs, p);
    }
  }

  /** The analysis from its first value to its result, without the top-down pass. It reports no alias that the edges
      do not ask for; if the components are in order, its aliases are the least equivalence that fulfils the edges.
      In any case it is the result of a run of the pass over what has been recorded. */
  method AnalyzeUnsound(numSccs: nat, sccs: seq<Option<SccId>>, edges: seq<SiteEdge>, included: set<ValueId>)
    returns (r: RawResult, ghost run: seq<Snapshot>)
    requires GraphOk(numSccs, sccs, edges)
    ensures r.Size() == |sccs| && IsConsumed(r, included)
    ensures JoinsLocalEdges(sccs, edges, r) && NothingElse(sccs, edges, r)
    ensures Ordered(sccs, edges) ==> Summarises(sccs, edges, r) && StaysInside(sccs, r)
    ensures (forall i: nat :: i < |edges| ==> CalleesLater(sccs, edges[i])) ==> (Ordered(sccs, edges) <==> StaysInside(sccs, r))
    ensures var x := RecordsOf(numSccs, sccs, edges); PassRun(x.calls, x.idsForSum, Snapshot(x.p, NoViews(|sccs|)), run)
    ensures forall v: nat, w: nat :: v < |sccs| && w < |sccs| ==> (r.MayAlias(v, w) <==> Same(run[0].p, v, w))
  {
    hide Ordered, CallsIf, RunFrom, StaysInside;
    var aa := BuildGraph(numSccs, sccs, edges);
    ghost var p, ordered := aa.aliasSets.leaders, Ordered(sccs, edges);
    ghost var bottomUp;
    r, bottomUp, run := aa.ConsumeAAResults(false, included, ordered);
    LocalEdgesShow(sccs, aa.calls, p, bottomUp, edges, r);
    SummariesShowNothingElse(sccs, aa.calls, p, bottomUp, edges, r);
    if ordered {
      SummariesShow(sccs, aa.calls, p, bottomUp, edges, r);
    }
    if forall i: nat :: i < |edges| ==> CalleesLater(sccs, edges[i]) {
      InsideExactly(sccs, edges, bottomUp, r);
    }
  }
}
