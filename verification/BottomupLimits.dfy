/** What the bottom-up analysis loses when a value of no component ties two components together. */
module BottomupLimits {
  import opened UnionFinds
  import opened Compressors
  import opened AliasResults
  import opened PointerAssignmentGraph
  import opened BottomupAA
  import opened BottomupSummaries
  import opened Sequences

  /** For a global x: h(f, g) { x = f; x = g; }  m(p) { q = x; h(p, q); }  main() { h(a, b); }
      The values are p, q, x, f, g, a, b. */
  const SCCS: seq<Option<SccId>> := [Some(1), Some(1), None, Some(2), Some(2), Some(0), Some(0)]

  const X_IS_F: SiteEdge := (Edge(3, 2, Assign), 0)
  const X_IS_G: SiteEdge := (Edge(4, 2, Assign), 0)
  const Q_IS_X: SiteEdge := (Edge(2, 1, Assign), 0)
  const F_IS_P: SiteEdge := (Edge(0, 3, Call(0)), 100)
  const G_IS_Q: SiteEdge := (Edge(1, 4, Call(1)), 100)
  const F_IS_A: SiteEdge := (Edge(5, 3, Call(0)), 200)
  const G_IS_B: SiteEdge := (Edge(6, 4, Call(1)), 200)

  const EDGES: seq<SiteEdge> := [X_IS_F, X_IS_G, Q_IS_X, F_IS_P, G_IS_Q, F_IS_A, G_IS_B]

  const IN_MAIN := CallSiteInfo([(5, 3), (6, 4)], [], None)
  const IN_M := CallSiteInfo([(0, 3), (1, 4)], [], None)

  lemma GraphIsOk()
    ensures GraphOk(3, SCCS, EDGES) && forall i: nat :: i < |EDGES| ==> CalleesLater(SCCS, EDGES[i])
  {
  }

  /** The assignments put q, x, f and g together. */
  lemma LocalRecords()
    ensures InRange(SCCS, X_IS_F) && InRange(SCCS, X_IS_G) && InRange(SCCS, Q_IS_X)
    ensures RecordsOf(3, SCCS, [X_IS_F, X_IS_G, Q_IS_X]) == Records([map[], map[], map[]], [{}, {}, {}], [0, 1, 1, 1, 1, 5, 6])
  {
    var x := RecordsOf(3, SCCS, []);
    assert x == Records([map[], map[], map[]], [{}, {}, {}], [0, 1, 2, 3, 4, 5, 6]);
    RecordsMore(3, SCCS, [], X_IS_F);
    assert [] + [X_IS_F] == [X_IS_F];
    assert WithEdge(SCCS, x, X_IS_F).p == [0, 1, 2, 2, 4, 5, 6];
    RecordsMore(3, SCCS, [X_IS_F], X_IS_G);
    assert [X_IS_F] + [X_IS_G] == [X_IS_F, X_IS_G];
    assert RecordsOf(3, SCCS, [X_IS_F, X_IS_G]).p == [0, 1, 2, 2, 2, 5, 6];
    RecordsMore(3, SCCS, [X_IS_F, X_IS_G], Q_IS_X);
    assert [X_IS_F, X_IS_G] + [Q_IS_X] == [X_IS_F, X_IS_G, Q_IS_X];
  }

  /** A call edge adds one parameter to its call site, and the parameter to what its component summarises. */
  lemma CallRecorded(x: Records, e: SiteEdge, s: SccId, t: SccId, params: seq<(ValueId, ValueId)>)
    requires InRange(SCCS, e) && |x.calls| == |x.idsForSum| && |x.p| == |SCCS| && e.0.kind.Call?
    requires SCCS[e.0.from] == Some(s) && SCCS[e.0.to] == Some(t) && s != t && s < |x.calls| && t < |x.calls|
    requires x.calls[s] == if params == [] then map[] else map[e.1 := CallSiteInfo(params, [], None)]
    ensures var y, params' := WithEdge(SCCS, x, e), params + [(e.0.from, e.0.to)];
            && y.p == x.p && y.idsForSum == x.idsForSum[t := x.idsForSum[t] + {e.0.to}]
            && |y.calls| == |x.calls| && y.calls[s] == map[e.1 := CallSiteInfo(params', [], None)]
            && forall i: nat :: i < |x.calls| && i != s ==> y.calls[i] == x.calls[i]
  {
  }

  lemma RecordsAreThese()
    ensures forall i: nat :: i < |EDGES| ==> InRange(SCCS, EDGES[i])
    ensures RecordsOf(3, SCCS, EDGES) ==
              Records([map[200 := IN_MAIN], map[100 := IN_M], map[]], [{}, {}, {3, 4}], [0, 1, 1, 1, 1, 5, 6])
  {
    hide Joined, WithEdge, RecordsOf;
    LocalRecords();
    var local := [X_IS_F, X_IS_G, Q_IS_X];
    var x0 := RecordsOf(3, SCCS, local);
    RecordsMore(3, SCCS, local, F_IS_P);
    CallRecorded(x0, F_IS_P, 1, 2, []);
    var x1 := WithEdge(SCCS, x0, F_IS_P);
    assert [] + [(0, 3)] == [(0, 3)];
    RecordsMore(3, SCCS, local + [F_IS_P], G_IS_Q);
    CallRecorded(x1, G_IS_Q, 1, 2, [(0, 3)]);
    var x2 := WithEdge(SCCS, x1, G_IS_Q);
    assert [(0, 3)] + [(1, 4)] == [(0, 3), (1, 4)];
    RecordsMore(3, SCCS, local + [F_IS_P] + [G_IS_Q], F_IS_A);
    CallRecorded(x2, F_IS_A, 0, 2, []);
    var x3 := WithEdge(SCCS, x2, F_IS_A);
    assert [] + [(5, 3)] == [(5, 3)];
    RecordsMore(3, SCCS, local + [F_IS_P] + [G_IS_Q] + [F_IS_A], G_IS_B);
    CallRecorded(x3, G_IS_B, 0, 2, [(5, 3)]);
    var x4 := WithEdge(SCCS, x3, G_IS_B);
    assert [(5, 3)] + [(6, 4)] == [(5, 3), (6, 4)];
    assert x4.calls == [map[200 := IN_MAIN], map[100 := IN_M], map[]];
    assert x4.idsForSum[2] == {3, 4} && x4.idsForSum == [{}, {}, {3, 4}];
    assert local + [F_IS_P] + [G_IS_Q] + [F_IS_A] + [G_IS_B] == EDGES;
  }

  /** Where there are no call sites nothing is joined. */
  lemma NoSitesNoJoins(ids: set<ValueId>, s: Snapshot, t: Snapshot)
    requires SccRun(map[], ids, s, t)
    ensures t.p == s.p && Adds(s.view, t.view, ids, t.p)
  {
    var sites, steps: seq<Partition> :|
      ListsSites(map[], sites) && SitesRun(map[], s.view, sites, steps) && steps[0] == s.p && steps[|sites|] == t.p;
    if sites != [] {
      FirstIsListed(sites);
    }
  }

  lemma FirstIsListed(sites: seq<CallSite>)
    requires sites != []
    ensures exists cs :: cs in sites
  {
    assert sites[0] in sites;
  }

  lemma FirstTwoDiffer(sites: seq<CallSite>)
    requires |sites| > 1 && Distinct(sites)
    ensures exists cs, cs' :: cs in sites && cs' in sites && cs != cs'
  {
    assert sites[0] in sites && sites[1] in sites && sites[0] != sites[1];
  }

  lemma OneSite(cs: CallSite, info: CallSiteInfo, ids: set<ValueId>, s: Snapshot, t: Snapshot)
    requires SccRun(map[cs := info], ids, s, t)
    ensures SiteStep(s.p, t.p, info, s.view) && |s.p| == |t.p| && Adds(s.view, t.view, ids, t.p)
  {
    hide OnlyApplies, Keeps, Adds;
    var infos := map[cs := info];
    var sites, steps: seq<Partition> :|
      ListsSites(infos, sites) && SitesRun(infos, s.view, sites, steps) && steps[0] == s.p && steps[|sites|] == t.p;
    assert cs in sites;
    if |sites| > 1 {
      FirstTwoDiffer(sites);
    }
    assert SiteAt(infos, s.view, sites, steps, 0);
  }

  /** The first component files its summary under q, which stands for its class then. */
  lemma SummaryUnderQ(view: seq<set<ValueId>>, p: Partition)
    requires Adds(NoViews(7), view, {3, 4}, p) && p == [0, 1, 1, 1, 1, 5, 6]
    ensures |view| == 7 && view[0] == {} && view[1] == {3, 4}
  {
    assert Viewed(p, view, 3) && Viewed(p, view, 4);
    forall r: nat, v: nat | r < 2 && v in view[r]
      ensures r == 1 && v in {3, 4}
    {
      assert AddedAt({3, 4}, p, r, v);
    }
  }

  /** The call in m finds the summary and joins p and q, so that p stands for the class from now on. */
  lemma CallInM(view: seq<set<ValueId>>, p: Partition, q: Partition)
    requires p == [0, 1, 1, 1, 1, 5, 6] && |view| == 7 && view[1] == {3, 4} && SiteStep(p, q, IN_M, view)
    ensures q[3] == 0 && q[4] == 0 && !Same(q, 5, 6)
  {
    hide OnlyApplies;
    assert Binds(IN_M, 0, 3) && Binds(IN_M, 1, 4) && HasView(p, view, 3) && Same(p, 3, 4);
    assert !OtherView(p, IN_M, view, 1);
    assert Same(q, 0, 1) && Same(p, 1, 3) && Same(p, 1, 4);
    NothingForMain(view, p, q);
  }

  /** Nothing puts a and b together there. */
  lemma NothingForMain(view: seq<set<ValueId>>, p: Partition, q: Partition)
    requires p == [0, 1, 1, 1, 1, 5, 6] && OnlyApplies(p, q, p, IN_M, view)
    ensures !Same(q, 5, 6)
  {
    var r := [0, 0, 0, 0, 0, 5, 6];
    assert Refines(p, r) && SummarisedViews(r, p, IN_M, view);
    assert Refines(q, r);
  }

  /** The call in main looks under p and finds nothing. */
  lemma CallInMain(view: seq<set<ValueId>>, p: Partition, q: Partition)
    requires |p| == 7 && |view| == 7 && view[0] == {} && p[3] == 0 && p[4] == 0 && !Same(p, 5, 6) && SiteStep(p, q, IN_MAIN, view)
    ensures Same(q, 3, 4) && !Same(q, 5, 6)
  {
    assert !HasView(p, view, 3) && !HasView(p, view, 4);
    assert Refines(p, p) && SummarisedViews(p, p, IN_MAIN, view);
    assert Refines(q, p) && Refines(p, q) && Same(p, 3, 4);
  }

  /** Every run of the pass: f and g are in one class, a and b are not. */
  lemma SummaryIsLost(run: seq<Snapshot>)
    requires forall i: nat :: i < |EDGES| ==> InRange(SCCS, EDGES[i])
    requires var x := RecordsOf(3, SCCS, EDGES); PassRun(x.calls, x.idsForSum, Snapshot(x.p, NoViews(7)), run)
    ensures Same(run[0].p, 3, 4) && !Same(run[0].p, 5, 6)
  {
    hide SccRun, SiteStep, Adds, RecordsOf;
    RecordsAreThese();
    var x := RecordsOf(3, SCCS, EDGES);
    assert SccRun(x.calls[2], x.idsForSum[2], run[3], run[2]);
    assert SccRun(x.calls[1], x.idsForSum[1], run[2], run[1]);
    assert SccRun(x.calls[0], x.idsForSum[0], run[1], run[0]);
    NoSitesNoJoins({3, 4}, run[3], run[2]);
    SummaryUnderQ(run[2].view, run[2].p);
    OneSite(100, IN_M, {}, run[2], run[1]);
    CallInM(run[2].view, run[2].p, run[1].p);
    NothingAdded(run[2].view, run[1].view, run[1].p);
    OneSite(200, IN_MAIN, {}, run[1], run[0]);
    CallInMain(run[1].view, run[1].p, run[0].p);
  }

  lemma NothingAdded(view: seq<set<ValueId>>, view': seq<set<ValueId>>, p: Partition)
    requires Adds(view, view', {}, p)
    ensures view' == view
  {
    forall r: nat | r < |view|
      ensures view'[r] == view[r]
    {
      forall v: nat | v in view'[r]
        ensures v in view[r]
      {
        assert !AddedAt({}, p, r, v);
      }
    }
  }

  /** Callee components are numbered later, f and g are reported to alias, and a and b, which are passed to them at
      one call site, are not. */
  method GlobalHidesSummary(included: set<ValueId>) returns (r: RawResult)
    ensures forall i: nat :: i < |EDGES| ==> CalleesLater(SCCS, EDGES[i])
    ensures r.MayAlias(3, 4) && !r.MayAlias(5, 6) && !Summarises(SCCS, EDGES, r) && !Ordered(SCCS, EDGES)
  {
    hide Ordered, StaysInside, RunFrom, RecordsOf;
    GraphIsOk();
    ghost var run;
    r, run := AnalyzeUnsound(3, SCCS, EDGES, included);
    SummaryIsLost(run);
    assert BoundBy(SCCS, EDGES[5], 0, 200, 5, 3) && BoundBy(SCCS, EDGES[6], 0, 200, 6, 4);
  }
}
