/** The bottom-up analysis with its top-down pass, in terms of the edges it was given. */
module BottomupSoundy {
  import opened UnionFinds
  import opened Compressors
  import opened AliasResults
  import opened PointerAssignmentGraph
  import opened BottomupAA
  import opened BottomupSummaries

  /** The edge passes argument a to parameter f of another component. */
  ghost predicate PassesBy(sccs: seq<Option<SccId>>, e: SiteEdge, s: SccId, cs: CallSite, a: ValueId, f: ValueId) {
    && e.0.kind.Call? && e.0.from == a && e.0.to == f && e.1 == cs
    && a < |sccs| && f < |sccs| && sccs[a] == Some(s) && sccs[f].Some? && sccs[f] != Some(s)
  }

  ghost predicate PassesByAny(sccs: seq<Option<SccId>>, edges: seq<SiteEdge>, s: SccId, cs: CallSite, a: ValueId, f: ValueId) {
    exists i: nat :: i < |edges| && PassesBy(sccs, edges[i], s, cs, a, f)
  }

  ghost predicate IsParam(calls: seq<map<CallSite, CallSiteInfo>>, s: SccId, cs: CallSite, a: ValueId, f: ValueId) {
    s < |calls| && cs in calls[s] && (a, f) in calls[s][cs].params
  }

  ghost predicate SccsIn(numSccs: nat, sccs: seq<Option<SccId>>) {
    forall v: nat :: v < |sccs| && sccs[v].Some? ==> sccs[v].value < numSccs
  }

  lemma EdgeAddsParam(numSccs: nat, sccs: seq<Option<SccId>>, x: Records, e: SiteEdge, s: SccId, cs: CallSite, a: ValueId, f: ValueId)
    requires InRange(sccs, e) && |x.calls| == |x.idsForSum| == numSccs && |x.p| == |sccs| && SccsIn(numSccs, sccs)
    ensures IsParam(WithEdge(sccs, x, e).calls, s, cs, a, f) <==> IsParam(x.calls, s, cs, a, f) || PassesBy(sccs, e, s, cs, a, f)
  {
  }

  /** The parameters recorded at a call site are those that edges pass there. */
  lemma {:induction false} ParamsExactly(numSccs: nat, sccs: seq<Option<SccId>>, edges: seq<SiteEdge>, s: SccId, cs: CallSite,
                                         a: ValueId, f: ValueId)
    requires SccsIn(numSccs, sccs) && forall i: nat :: i < |edges| ==> InRange(sccs, edges[i])
    ensures IsParam(RecordsOf(numSccs, sccs, edges).calls, s, cs, a, f) <==> PassesByAny(sccs, edges, s, cs, a, f)
  {
    hide WithEdge, PassesBy, PassesByAny, SccsIn;
    if edges == [] {
      NothingPassed(numSccs, sccs, s, cs, a, f);
    } else {
      var init, last := edges[..|edges| - 1], edges[|edges| - 1];
      ParamsExactly(numSccs, sccs, init, s, cs, a, f);
      EdgeAddsParam(numSccs, sccs, RecordsOf(numSccs, sccs, init), last, s, cs, a, f);
      OneMorePass(sccs, init, last, s, cs, a, f);
      assert edges == init + [last];
    }
  }

  lemma NothingPassed(numSccs: nat, sccs: seq<Option<SccId>>, s: SccId, cs: CallSite, a: ValueId, f: ValueId)
    ensures !IsParam(RecordsOf(numSccs, sccs, []).calls, s, cs, a, f) && !PassesByAny(sccs, [], s, cs, a, f)
  {
  }

  lemma OneMorePass(sccs: seq<Option<SccId>>, edges: seq<SiteEdge>, e: SiteEdge, s: SccId, cs: CallSite, a: ValueId, f: ValueId)
    ensures PassesByAny(sccs, edges + [e], s, cs, a, f) <==> PassesByAny(sccs, edges, s, cs, a, f) || PassesBy(sccs, e, s, cs, a, f)
  {
    hide PassesBy;
    var more := edges + [e];
    if i: nat :| i < |edges| && PassesBy(sccs, edges[i], s, cs, a, f) {
      assert more[i] == edges[i];
    }
    assert more[|edges|] == e;
    if i: nat :| i < |more| && PassesBy(sccs, more[i], s, cs, a, f) {
      assert i < |edges| ==> more[i] == edges[i];
    }
  }

  /** Parameters are together in q if their arguments, passed at one call site, are together in p. */
  ghost predicate PassedDown(sccs: seq<Option<SccId>>, edges: seq<SiteEdge>, p: seq<nat>, q: seq<nat>) {
    forall i: nat, j: nat, s: nat, cs: CallSite, a: nat, f: nat, b: nat, g: nat ::
      i < |edges| && j < |edges| && PassesBy(sccs, edges[i], s, cs, a, f) && PassesBy(sccs, edges[j], s, cs, b, g) && Same(p, a, b) ==>
        Same(q, f, g)
  }

  lemma PassedOnIsDown(numSccs: nat, sccs: seq<Option<SccId>>, edges: seq<SiteEdge>, p: Partition, q: Partition)
    requires SccsIn(numSccs, sccs) && (forall i: nat :: i < |edges| ==> InRange(sccs, edges[i])) && |q| == |sccs|
    requires PassedOn(RecordsOf(numSccs, sccs, edges).calls, numSccs, {}, p, q)
    ensures PassedDown(sccs, edges, p, q)
  {
    hide RecordsOf;
    var calls: seq<map<CallSite, CallSiteInfo>> := RecordsOf(numSccs, sccs, edges).calls;
    forall i: nat, j: nat, s: nat, cs: CallSite, a: nat, f: nat, b: nat, g: nat | i < |edges| && j < |edges| &&
        PassesBy(sccs, edges[i], s, cs, a, f) && PassesBy(sccs, edges[j], s, cs, b, g) && Same(p, a, b)
      ensures Same(q, f, g)
    {
      ParamsExactly(numSccs, sccs, edges, s, cs, a, f);
      ParamsExactly(numSccs, sccs, edges, s, cs, b, g);
      assert IsParam(calls, s, cs, a, f) && IsParam(calls, s, cs, b, g);
      var m: nat :| m < |calls[s][cs].params| && calls[s][cs].params[m] == (a, f);
      var n: nat :| n < |calls[s][cs].params| && calls[s][cs].params[n] == (b, g);
      assert ParamsFollow(calls[s][cs].params, p, q);
    }
  }

  lemma DownIsPassedOn(numSccs: nat, sccs: seq<Option<SccId>>, edges: seq<SiteEdge>, r: seq<nat>)
    requires SccsIn(numSccs, sccs) && (forall i: nat :: i < |edges| ==> InRange(sccs, edges[i]))
    requires PassedDown(sccs, edges, r, r)
    ensures PassedOn(RecordsOf(numSccs, sccs, edges).calls, numSccs, {}, r, r)
  {
    hide RecordsOf, InRange;
    var calls: seq<map<CallSite, CallSiteInfo>> := RecordsOf(numSccs, sccs, edges).calls;
    forall s: nat, cs: CallSite | s < |calls| && cs in calls[s]
      ensures ParamsFollow(calls[s][cs].params, r, r)
    {
      var params := calls[s][cs].params;
      forall m: nat, n: nat | m < n < |params| && Same(r, params[m].0, params[n].0)
        ensures Same(r, params[m].1, params[n].1)
      {
        assert params[m] in params && params[n] in params;
        ParamsExactly(numSccs, sccs, edges, s, cs, params[m].0, params[m].1);
        ParamsExactly(numSccs, sccs, edges, s, cs, params[n].0, params[n].1);
        var i: nat :| i < |edges| && PassesBy(sccs, edges[i], s, cs, params[m].0, params[m].1);
        var j: nat :| j < |edges| && PassesBy(sccs, edges[j], s, cs, params[n].0, params[n].1);
      }
    }
  }

  /** The analysis from its first value to its result, with both passes. The top-down pass starts from what the
      bottom-up pass has found; parameters alias whose arguments were together then, and nothing is reported that
      aliases of arguments do not ask for. */
  method AnalyzeSoundy(numSccs: nat, sccs: seq<Option<SccId>>, edges: seq<SiteEdge>, included: set<ValueId>)
    returns (r: RawResult, ghost bottomUp: Partition)
    requires GraphOk(numSccs, sccs, edges)
    ensures r.Basic? && r.Size() == |sccs| && |bottomUp| == |sccs| && IsConsumed(r, included)
    ensures forall l: seq<nat> :: FulfilsEdges(sccs, edges, l) ==> Refines(bottomUp, l)
    ensures JoinsLocalEdges(sccs, edges, r) && Refines(bottomUp, r.var2Rep) && PassedDown(sccs, edges, bottomUp, r.var2Rep)
    ensures forall l: seq<nat> :: Refines(bottomUp, l) && PassedDown(sccs, edges, l, l) ==> Refines(r.var2Rep, l)
  {
    hide Ordered, CallsIf, RunFrom, RecordsOf, PassedDown, OnlyPassesOn, FulfilsEdges;
    var aa := BuildGraph(numSccs, sccs, edges);
    ghost var p, ordered := aa.aliasSets.leaders, Ordered(sccs, edges);
    ghost var run;
    r, bottomUp, run := aa.ConsumeAAResults(true, included, ordered);
    ghost var q := aa.aliasSets.leaders;
    LabelsSame(q, r);
    RefinesTrans(p, bottomUp, q);
    LocalEdgesShow(sccs, aa.calls, p, q, edges, r);
    PassedOnIsDown(numSccs, sccs, edges, bottomUp, q);
    DownRenamed(sccs, edges, bottomUp, q, r.var2Rep);
    forall l: seq<nat> | FulfilsEdges(sccs, edges, l)
      ensures Refines(bottomUp, l)
    {
      BottomUpIsLeast(sccs, aa.calls, p, bottomUp, edges, l);
    }
    forall l: seq<nat> | Refines(bottomUp, l) && PassedDown(sccs, edges, l, l)
      ensures Refines(r.var2Rep, l)
    {
      DownIsPassedOn(numSccs, sccs, edges, l);
      NothingElsePassed(aa.calls, bottomUp, q, r.var2Rep, l);
    }
  }

  lemma LabelsSame(q: Partition, r: RawResult)
    requires r.Basic? && |r.var2Rep| == |q|
    requires forall v: nat, w: nat :: v < |q| && w < |q| ==> (r.MayAlias(v, w) <==> Same(q, v, w))
    ensures forall v: nat, w: nat :: Same(r.var2Rep, v, w) <==> Same(q, v, w)
  {
    forall v: nat, w: nat | v < |q| && w < |q|
      ensures r.var2Rep[v] == r.var2Rep[w] <==> q[v] == q[w]
    {
      assert r.MayAlias(v, w) <==> Same(q, v, w);
    }
  }

  lemma DownRenamed(sccs: seq<Option<SccId>>, edges: seq<SiteEdge>, p: Partition, q: Partition, labels: seq<nat>)
    requires PassedDown(sccs, edges, p, q) && Refines(p, q) && |labels| == |q|
    requires forall v: nat, w: nat :: Same(labels, v, w) <==> Same(q, v, w)
    ensures PassedDown(sccs, edges, p, labels) && Refines(p, labels)
  {
    forall v: nat, w: nat | Same(p, v, w)
      ensures labels[v] == labels[w]
    {
      assert Same(q, v, w) && Same(labels, v, w);
    }
  }

  lemma BottomUpIsLeast(sccs: seq<Option<SccId>>, calls: seq<map<CallSite, CallSiteInfo>>, p: Partition, bottomUp: Partition,
                        edges: seq<SiteEdge>, l: seq<nat>)
    requires OnlyRecords(sccs, calls, edges) && OnlyLocalJoins(sccs, p, edges) && OnlySummarises(p, bottomUp, calls)
    requires FulfilsEdges(sccs, edges, l)
    ensures Refines(bottomUp, l)
  {
    FulfilsSummaries(sccs, calls, edges, l);
  }

  lemma NothingElsePassed(calls: seq<map<CallSite, CallSiteInfo>>, p: Partition, q: Partition, labels: seq<nat>, l: seq<nat>)
    requires OnlyPassesOn(p, q, calls) && Refines(p, l) && PassedOn(calls, |calls|, {}, l, l) && |labels| == |q|
    requires forall v: nat, w: nat :: Same(labels, v, w) <==> Same(q, v, w)
    ensures Refines(labels, l)
  {
    forall v: nat, w: nat | Same(labels, v, w)
      ensures l[v] == l[w]
    {
      assert Same(q, v, w);
    }
  }
}
