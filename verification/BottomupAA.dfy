/** The bottom-up union-find alias analysis: calls between different components of the call graph are not
    joined but summarised, callee components before caller components. */
module BottomupAA {
  import opened UnionFinds
  import opened Compressors
  import opened AliasResults
  import opened PointerAssignmentGraph
  import opened Sequences

  type SccId = nat

  /** What one component knows about one of its call sites: arguments with the parameters they reach, the
      values returned by the callees and the value that receives them. */
  datatype CallSiteInfo = CallSiteInfo(params: seq<(ValueId, ValueId)>, ret: seq<ValueId>, retSlot: Option<ValueId>)

  const NO_CALLS := CallSiteInfo([], [], None)

  /** An actual value of the caller with the formal value of a callee that it corresponds to. */
  ghost predicate Binds(info: CallSiteInfo, actual: ValueId, formal: ValueId) {
    (actual, formal) in info.params || (info.retSlot == Some(actual) && formal in info.ret)
  }

  ghost predicate InScc(sccOfVal: seq<Option<SccId>>, v: ValueId, s: SccId) {
    v < |sccOfVal| && sccOfVal[v] == Some(s)
  }

  /** No class spans two components; values of no component may join any class. */
  ghost predicate Local(sccOfVal: seq<Option<SccId>>, p: seq<nat>) {
    |p| == |sccOfVal| && forall v: nat, w: nat :: Same(p, v, w) && sccOfVal[v].Some? && sccOfVal[w].Some? ==> sccOfVal[v] == sccOfVal[w]
  }

  ghost predicate BindingOk(sccOfVal: seq<Option<SccId>>, idsForSum: seq<set<ValueId>>, s: SccId, actual: ValueId, formal: ValueId) {
    && InScc(sccOfVal, actual, s) && formal < |sccOfVal|
    && sccOfVal[formal].Some? && s < sccOfVal[formal].value < |idsForSum| && formal in idsForSum[sccOfVal[formal].value]
  }

  /** The recorded calls lead from each component to components with greater ids, and every formal value is
      summarised by its component. */
  ghost predicate CallsOk(sccOfVal: seq<Option<SccId>>, calls: seq<map<CallSite, CallSiteInfo>>, idsForSum: seq<set<ValueId>>) {
    && |calls| == |idsForSum|
    && (forall s: nat, v :: s < |idsForSum| && v in idsForSum[s] ==> InScc(sccOfVal, v, s))
    && (forall s: nat, cs: CallSite, actual: nat, formal: nat :: s < |calls| && cs in calls[s] && Binds(calls[s][cs], actual, formal) ==>
          BindingOk(sccOfVal, idsForSum, s, actual, formal))
  }

  /** Only known values are recorded. */
  ghost predicate CallsIn(n: nat, calls: seq<map<CallSite, CallSiteInfo>>, idsForSum: seq<set<ValueId>>) {
    && |calls| == |idsForSum|
    && (forall s: nat, v :: s < |idsForSum| && v in idsForSum[s] ==> v < n)
    && (forall s: nat, cs: CallSite, actual: nat, formal: nat :: s < |calls| && cs in calls[s] && Binds(calls[s][cs], actual, formal) ==>
          actual < n && formal < n)
  }

  /** What holds of the recorded calls in any case, and what holds when the components are in order. */
  ghost predicate CallsIf(ordered: bool, sccOfVal: seq<Option<SccId>>, calls: seq<map<CallSite, CallSiteInfo>>,
                          idsForSum: seq<set<ValueId>>) {
    CallsIn(|sccOfVal|, calls, idsForSum) && (ordered ==> CallsOk(sccOfVal, calls, idsForSum))
  }

  /** Actual values whose formals are in one class are in one class. */
  ghost predicate Summarised(p: Partition, info: CallSiteInfo) {
    forall a: nat, f: nat, b: nat, g: nat :: Binds(info, a, f) && Binds(info, b, g) && Same(p, f, g) ==> Same(p, a, b)
  }

  /** q results from p by joins within component s. */
  ghost predicate StepIn(sccOfVal: seq<Option<SccId>>, s: SccId, p: Partition, q: Partition) {
    && IsPartition(q) && Local(sccOfVal, q)
    && |p| == |q| && Refines(p, q)
    && (forall v: nat :: v < |p| && sccOfVal[v].Some? && sccOfVal[v] != Some(s) ==> q[v] == p[v])
  }

  /** q results from p by joins, when the components are in order within component s. */
  ghost predicate StepIf(ordered: bool, sccOfVal: seq<Option<SccId>>, s: SccId, p: Partition, q: Partition) {
    IsPartition(q) && Refines(p, q) && (ordered ==> StepIn(sccOfVal, s, p, q))
  }

  lemma StepIfTrans(ordered: bool, sccOfVal: seq<Option<SccId>>, s: SccId, p: Partition, q: Partition, r: Partition)
    requires StepIf(ordered, sccOfVal, s, p, q) && StepIf(ordered, sccOfVal, s, q, r)
    ensures StepIf(ordered, sccOfVal, s, p, r)
  {
    RefinesTrans(p, q, r);
    if ordered {
      StepInTrans(sccOfVal, s, p, q, r);
    }
  }

  lemma StepIfSelf(ordered: bool, sccOfVal: seq<Option<SccId>>, s: SccId, p: Partition)
    requires IsPartition(p) && (ordered ==> Local(sccOfVal, p))
    ensures StepIf(ordered, sccOfVal, s, p, p)
  {
  }

  lemma StepIfFacts(ordered: bool, sccOfVal: seq<Option<SccId>>, s: SccId, p: Partition, q: Partition)
    requires StepIf(ordered, sccOfVal, s, p, q)
    ensures IsPartition(q) && Refines(p, q) && |p| == |q| && (ordered ==> Local(sccOfVal, q) && StepIn(sccOfVal, s, p, q))
  {
  }

  lemma JoinStepsIf(ordered: bool, sccOfVal: seq<Option<SccId>>, s: SccId, p: Partition, a: ValueId, b: ValueId)
    requires IsPartition(p) && a < |p| && b < |p|
    requires ordered ==> Local(sccOfVal, p) && InScc(sccOfVal, a, s) && InScc(sccOfVal, b, s)
    ensures StepIf(ordered, sccOfVal, s, p, Joined(p, a, b)) && Same(Joined(p, a, b), a, b)
  {
    JoinedIsPartition(p, a, b);
    JoinedRefines(p, a, b);
    if ordered {
      JoinStepsIn(sccOfVal, s, p, a, b);
    }
  }

  lemma StepInTrans(sccOfVal: seq<Option<SccId>>, s: SccId, p: Partition, q: Partition, r: Partition)
    requires StepIn(sccOfVal, s, p, q) && StepIn(sccOfVal, s, q, r)
    ensures StepIn(sccOfVal, s, p, r)
  {
    forall i: nat, j: nat | Same(p, i, j)
      ensures r[i] == r[j]
    {
      assert Same(q, i, j);
    }
  }

  lemma JoinStepsIn(sccOfVal: seq<Option<SccId>>, s: SccId, p: Partition, a: ValueId, b: ValueId)
    requires IsPartition(p) && Local(sccOfVal, p) && InScc(sccOfVal, a, s) && InScc(sccOfVal, b, s)
    ensures StepIn(sccOfVal, s, p, Joined(p, a, b)) && Same(Joined(p, a, b), a, b)
  {
    var q := Joined(p, a, b);
    JoinedIsPartition(p, a, b);
    forall v: nat, w: nat | Same(q, v, w) && sccOfVal[v].Some? && sccOfVal[w].Some?
      ensures sccOfVal[v] == sccOfVal[w]
    {
      JoinedSame(p, a, b, v, w);
    }
    forall v: nat | v < |p| && sccOfVal[v].Some? && sccOfVal[v] != Some(s)
      ensures q[v] == p[v]
    {
      assert !Same(p, v, a) && !Same(p, v, b);
    }
  }

  /** The summaries of the components from c on: every view lists the summarised values of one class, under
      its representative. */
  ghost predicate ViewOk(sccOfVal: seq<Option<SccId>>, idsForSum: seq<set<ValueId>>, p: Partition,
                         view: seq<set<ValueId>>, c: SccId) {
    && |view| >= |p| == |sccOfVal|
    && (forall s: nat, v: nat :: c <= s < |idsForSum| && v in idsForSum[s] ==> Viewed(p, view, v))
    && (forall r: nat, v: nat :: r < |view| && v in view[r] ==> ViewedAt(sccOfVal, p, c, r, v))
  }

  ghost predicate Viewed(p: Partition, view: seq<set<ValueId>>, v: ValueId) {
    v < |p| && p[v] < |view| && v in view[p[v]]
  }

  ghost predicate ViewedAt(sccOfVal: seq<Option<SccId>>, p: Partition, c: SccId, r: ValueId, v: ValueId)
    requires |p| == |sccOfVal|
  {
    v < |p| && p[v] == r && sccOfVal[v].Some? && c <= sccOfVal[v].value
  }

  /** Every view lists members of one class, which stays so under joins. */
  ghost predicate ViewIn(p: Partition, view: seq<set<ValueId>>) {
    |view| >= |p| && forall r: nat, v: nat :: r < |view| && v in view[r] ==> Same(p, v, r)
  }

  ghost predicate ViewIf(ordered: bool, sccOfVal: seq<Option<SccId>>, idsForSum: seq<set<ValueId>>, p: Partition,
                         view: seq<set<ValueId>>, c: SccId) {
    ViewIn(p, view) && (ordered ==> ViewOk(sccOfVal, idsForSum, p, view, c))
  }

  lemma ViewIfStable(ordered: bool, sccOfVal: seq<Option<SccId>>, idsForSum: seq<set<ValueId>>, p: Partition, q: Partition,
                     view: seq<set<ValueId>>, s: SccId, calls: seq<map<CallSite, CallSiteInfo>>)
    requires ViewIf(ordered, sccOfVal, idsForSum, p, view, s + 1) && StepIf(ordered, sccOfVal, s, p, q)
    requires CallsIf(ordered, sccOfVal, calls, idsForSum)
    ensures ViewIf(ordered, sccOfVal, idsForSum, q, view, s + 1)
  {
    forall r: nat, v: nat | r < |view| && v in view[r]
      ensures Same(q, v, r)
    {
      assert Same(p, v, r);
    }
    if ordered {
      ViewStable(sccOfVal, idsForSum, p, q, view, s, calls);
    }
  }

  lemma ViewIfMember(ordered: bool, sccOfVal: seq<Option<SccId>>, idsForSum: seq<set<ValueId>>, p: Partition,
                     view: seq<set<ValueId>>, c: SccId, r: ValueId, v: ValueId)
    requires ViewIf(ordered, sccOfVal, idsForSum, p, view, c) && r < |view| && v in view[r]
    ensures Same(p, v, r) && (ordered ==> p[v] == r)
  {
  }

  /** Joins in component s leave the summaries of later components alone. */
  lemma ViewStable(sccOfVal: seq<Option<SccId>>, idsForSum: seq<set<ValueId>>, p: Partition, q: Partition,
                   view: seq<set<ValueId>>, s: SccId, calls: seq<map<CallSite, CallSiteInfo>>)
    requires ViewOk(sccOfVal, idsForSum, p, view, s + 1) && StepIn(sccOfVal, s, p, q) && CallsOk(sccOfVal, calls, idsForSum)
    ensures ViewOk(sccOfVal, idsForSum, q, view, s + 1)
  {
    forall t: nat, v: nat | s + 1 <= t < |idsForSum| && v in idsForSum[t]
      ensures Viewed(q, view, v)
    {
      assert Viewed(p, view, v) && InScc(sccOfVal, v, t);
    }
    forall r: nat, v: nat | r < |view| && v in view[r]
      ensures ViewedAt(sccOfVal, q, s + 1, r, v)
    {
      assert ViewedAt(sccOfVal, p, s + 1, r, v);
    }
  }

  /** A call site whose formals are in later components stays summarised. */
  lemma SummaryStable(sccOfVal: seq<Option<SccId>>, calls: seq<map<CallSite, CallSiteInfo>>, idsForSum: seq<set<ValueId>>,
                      s: SccId, t: SccId, cs: CallSite, p: Partition, q: Partition)
    requires CallsOk(sccOfVal, calls, idsForSum) && s <= t < |calls| && cs in calls[t]
    requires Summarised(p, calls[t][cs]) && StepIn(sccOfVal, s, p, q) && |p| == |sccOfVal|
    ensures Summarised(q, calls[t][cs])
  {
    var info := calls[t][cs];
    forall a: nat, f: nat, b: nat, g: nat | Binds(info, a, f) && Binds(info, b, g) && Same(q, f, g)
      ensures Same(q, a, b)
    {
      assert BindingOk(sccOfVal, idsForSum, t, a, f) && BindingOk(sccOfVal, idsForSum, t, b, g);
      assert Same(p, f, g);
    }
  }

  /** All actual values by the representative of their formal. */
  ghost predicate BackMapOk(p: Partition, info: CallSiteInfo, backMap: map<ValueId, seq<ValueId>>) {
    && (forall a: nat, f: nat :: Binds(info, a, f) ==> f < |p| && p[f] in backMap && a in backMap[p[f]])
    && (forall r :: r in backMap ==> r < |p| && backMap[r] != [])
    && (forall r, a: nat :: r in backMap && a in backMap[r] ==> BoundIn(p, info, a, r))
  }

  /** a is the actual value of a formal in the class of r. */
  ghost predicate BoundIn(p: Partition, info: CallSiteInfo, a: ValueId, r: ValueId) {
    exists f: nat :: Binds(info, a, f) && f < |p| && p[f] == r
  }

  ghost predicate ActualsIn(sccOfVal: seq<Option<SccId>>, s: SccId, actuals: seq<ValueId>) {
    forall a: nat :: a in actuals ==> InScc(sccOfVal, a, s)
  }

  ghost predicate ActualsIf(ordered: bool, sccOfVal: seq<Option<SccId>>, s: SccId, actuals: seq<ValueId>) {
    (forall a: nat :: a in actuals ==> a < |sccOfVal|) && (ordered ==> ActualsIn(sccOfVal, s, actuals))
  }

  ghost predicate AllSame(p: Partition, actuals: seq<ValueId>, others: seq<ValueId>) {
    forall a: nat, b: nat :: a in actuals && b in others ==> Same(p, a, b)
  }

  lemma AllSameRefined(p: Partition, q: Partition, actuals: seq<ValueId>, others: seq<ValueId>)
    requires AllSame(p, actuals, others) && Refines(p, q)
    ensures AllSame(q, actuals, others)
  {
  }

  lemma AllSameAfter(p: Partition, q: Partition, actuals: seq<ValueId>)
    requires Refines(p, q)
    ensures AllSame(p, actuals, actuals) ==> AllSame(q, actuals, actuals)
  {
  }

  /** Between p and q nothing was joined but what the pairs demand: a labelling that respects p and does not tell
      the pairs apart respects q. */
  ghost predicate OnlyJoins(p: Partition, q: Partition, actuals: seq<ValueId>, others: seq<ValueId>) {
    forall r: seq<nat> :: Refines(p, r) && AllSame(r, actuals, others) ==> Refines(q, r)
  }

  lemma NoJoins(p: Partition, actuals: seq<ValueId>, others: seq<ValueId>)
    ensures OnlyJoins(p, p, actuals, others)
  {
  }

  lemma OnlyOneMore(p: Partition, q: Partition, a: ValueId, others: seq<ValueId>, b: ValueId)
    requires OnlyJoins(p, q, [a], others) && |p| == |q| && a < |q| && b < |q|
    ensures OnlyJoins(p, Joined(q, a, b), [a], others + [b])
  {
    forall r: seq<nat> | Refines(p, r) && AllSame(r, [a], others + [b])
      ensures Refines(Joined(q, a, b), r)
    {
      assert AllSame(r, [a], others);
      assert a in [a] && b in others + [b] && Same(r, a, b);
      JoinedLeast(q, a, b, r);
    }
  }

  lemma OnlyJoinsMore(p: Partition, q: Partition, q': Partition, actuals: seq<ValueId>, a: ValueId, others: seq<ValueId>)
    requires OnlyJoins(p, q, actuals, others) && OnlyJoins(q, q', [a], others)
    ensures OnlyJoins(p, q', actuals + [a], others)
  {
    forall r: seq<nat> | Refines(p, r) && AllSame(r, actuals + [a], others)
      ensures Refines(q', r)
    {
      assert AllSame(r, actuals, others) && AllSame(r, [a], others);
    }
  }

  /** A summary has been filed under the representative of f. */
  ghost predicate HasView(p: Partition, view: seq<set<ValueId>>, f: ValueId) {
    f < |p| && p[f] < |view| && view[p[f]] != {}
  }

  /** Actual values whose formals are in one class are in one class, provided that one of the formals has a view. */
  ghost predicate SummarisedViews(r: seq<nat>, p: Partition, info: CallSiteInfo, view: seq<set<ValueId>>) {
    forall a: nat, f: nat, b: nat, g: nat :: Binds(info, a, f) && Binds(info, b, g) && HasView(p, view, f) && Same(r, f, g) ==> Same(r, a, b)
  }

  /** Nothing was joined but what the summaries demand that were to be found at one call site, in partition p0. */
  ghost predicate OnlyApplies(p: Partition, q: Partition, p0: Partition, info: CallSiteInfo, view: seq<set<ValueId>>) {
    forall r: seq<nat> :: Refines(p, r) && SummarisedViews(r, p0, info, view) ==> Refines(q, r)
  }

  lemma NothingApplied(p: Partition, p0: Partition, info: CallSiteInfo, view: seq<set<ValueId>>)
    ensures OnlyApplies(p, p, p0, info, view)
  {
  }

  /** Keys that have come into one class since the map was built: their actual values may be joined. */
  lemma KeysMeet(p: Partition, q: Partition, q': Partition, info: CallSiteInfo, backMap: map<ValueId, seq<ValueId>>,
                 view: seq<set<ValueId>>, k: ValueId, l: ValueId)
    requires IsPartition(p) && Refines(p, q) && BackMapOk(p, info, backMap) && k in backMap && l in backMap && Same(q, k, l)
    requires OnlyJoins(q, q', backMap[k], backMap[l]) && k < |view| && view[k] != {}
    ensures OnlyApplies(q, q', p, info, view)
  {
    forall r: seq<nat> | Refines(q, r) && SummarisedViews(r, p, info, view)
      ensures Refines(q', r)
    {
      forall a: nat, b: nat | a in backMap[k] && b in backMap[l]
        ensures Same(r, a, b)
      {
        assert BoundIn(p, info, a, k) && BoundIn(p, info, b, l);
        var f: nat :| Binds(info, a, f) && f < |p| && p[f] == k;
        var g: nat :| Binds(info, b, g) && g < |p| && p[g] == l;
        assert Same(p, f, k) && Same(p, g, l);
        assert Same(q, f, k) && Same(q, g, l);
        assert Same(q, f, g) && Same(r, f, g) && HasView(p, view, f);
      }
      assert AllSame(r, backMap[k], backMap[l]);
    }
  }

  lemma AppliesThen(p: Partition, q: Partition, q': Partition, p0: Partition, info: CallSiteInfo, view: seq<set<ValueId>>)
    requires OnlyApplies(p, q, p0, info, view) && OnlyApplies(q, q', p0, info, view)
    ensures OnlyApplies(p, q', p0, info, view)
  {
  }

  /** Some formal of another class has a view. */
  ghost predicate OtherView(p: Partition, info: CallSiteInfo, view: seq<set<ValueId>>, k: ValueId) {
    exists a: nat, f: nat :: Binds(info, a, f) && HasView(p, view, f) && p[f] != k
  }

  /** What is joined at one call site whose formals have a view: the actual values of every class of formals, unless
      the class has lost its representative meanwhile, because the summary of another one was applied first. */
  ghost predicate Keeps(p: Partition, q: Partition, info: CallSiteInfo, view: seq<set<ValueId>>) {
    forall a: nat, f: nat, b: nat, g: nat :: Binds(info, a, f) && Binds(info, b, g) && HasView(p, view, f) && Same(p, f, g) ==>
      Same(q, a, b) || (p[f] < |q| && q[p[f]] != p[f] && OtherView(p, info, view, p[f]))
  }

  /** One call site: from p to q, with the given views. */
  ghost predicate SiteStep(p: Partition, q: Partition, info: CallSiteInfo, view: seq<set<ValueId>>) {
    IsPartition(q) && Refines(p, q) && |p| == |q| && OnlyApplies(p, q, p, info, view) && Keeps(p, q, info, view)
  }

  /** Partition and views between two components. */
  datatype Snapshot = Snapshot(p: Partition, view: seq<set<ValueId>>)

  ghost predicate SiteAt(infos: map<CallSite, CallSiteInfo>, view: seq<set<ValueId>>, sites: seq<CallSite>, steps: seq<Partition>,
                         i: nat)
    requires |steps| == |sites| + 1 && i < |sites|
  {
    sites[i] in infos && SiteStep(steps[i], steps[i + 1], infos[sites[i]], view)
  }

  ghost predicate SitesRun(infos: map<CallSite, CallSiteInfo>, view: seq<set<ValueId>>, sites: seq<CallSite>, steps: seq<Partition>) {
    |steps| == |sites| + 1 && forall i: nat :: i < |sites| ==> SiteAt(infos, view, sites, steps, i)
  }

  /** Every call site once, in some order. */
  ghost predicate ListsSites(infos: map<CallSite, CallSiteInfo>, sites: seq<CallSite>) {
    Distinct(sites) && forall cs: CallSite :: cs in sites <==> cs in infos
  }

  /** One component: all its call sites, then the views of what it summarises itself. */
  ghost predicate SccRun(infos: map<CallSite, CallSiteInfo>, ids: set<ValueId>, s: Snapshot, t: Snapshot) {
    && (exists sites, steps: seq<Partition> ::
          ListsSites(infos, sites) && SitesRun(infos, s.view, sites, steps) && steps[0] == s.p && steps[|sites|] == t.p)
    && Adds(s.view, t.view, ids, t.p)
  }

  /** The bottom-up pass from the last component to the first one; run[c] is what component c leaves behind. */
  ghost predicate PassRun(calls: seq<map<CallSite, CallSiteInfo>>, idsForSum: seq<set<ValueId>>, s: Snapshot, run: seq<Snapshot>) {
    RunFrom(calls, idsForSum, s, run, 0)
  }

  /** The components from c on; run[0] is what component c leaves behind. */
  ghost predicate RunFrom(calls: seq<map<CallSite, CallSiteInfo>>, idsForSum: seq<set<ValueId>>, s: Snapshot, run: seq<Snapshot>,
                          c: SccId) {
    && c <= |calls| == |idsForSum| && |run| == |calls| - c + 1 && run[|calls| - c] == s
    && forall d: nat :: c <= d < |calls| ==> SccRun(calls[d], idsForSum[d], run[d - c + 1], run[d - c])
  }

  lemma OneMoreScc(calls: seq<map<CallSite, CallSiteInfo>>, idsForSum: seq<set<ValueId>>, s: Snapshot, run: seq<Snapshot>, c: SccId,
                   t: Snapshot)
    requires RunFrom(calls, idsForSum, s, run, c + 1) && c < |calls| && SccRun(calls[c], idsForSum[c], run[0], t)
    ensures RunFrom(calls, idsForSum, s, [t] + run, c)
  {
  }

  function NoViews(n: nat): seq<set<ValueId>> {
    seq(n, _ => {})
  }

  /** Nothing was joined but what the summaries demand. */
  ghost predicate OnlySummarises(p: Partition, q: Partition, calls: seq<map<CallSite, CallSiteInfo>>) {
    forall r: seq<nat> :: Refines(p, r) && SummarisedFrom(r, calls, 0) ==> Refines(q, r)
  }

  lemma NothingSummarised(p: Partition, calls: seq<map<CallSite, CallSiteInfo>>)
    ensures OnlySummarises(p, p, calls)
  {
  }

  lemma SummarisesSite(p: Partition, q: Partition, q': Partition, p0: Partition, calls: seq<map<CallSite, CallSiteInfo>>,
                       s: SccId, cs: CallSite, view: seq<set<ValueId>>)
    requires OnlySummarises(p, q, calls) && s < |calls| && cs in calls[s]
    requires OnlyApplies(q, q', p0, calls[s][cs], view)
    ensures OnlySummarises(p, q', calls)
  {
    forall r: seq<nat> | Refines(p, r) && SummarisedFrom(r, calls, 0)
      ensures Refines(q', r)
    {
      assert Summarised(r, calls[s][cs]);
    }
  }

  lemma SummarisesThen(p: Partition, q: Partition, q': Partition, calls: seq<map<CallSite, CallSiteInfo>>)
    requires OnlySummarises(p, q, calls) && OnlySummarises(q, q', calls)
    ensures OnlySummarises(p, q', calls)
  {
  }

  /** Nothing was joined but parameters whose arguments are in one class. */
  ghost predicate OnlyPasses(p: Partition, q: Partition, params: seq<(ValueId, ValueId)>) {
    forall r: seq<nat> :: Refines(p, r) && ParamsFollow(params, r, r) ==> Refines(q, r)
  }

  lemma NothingPassed(p: Partition, params: seq<(ValueId, ValueId)>)
    ensures OnlyPasses(p, p, params)
  {
  }

  /** The representative of the first argument may be out of date, but it still belongs to its class. */
  lemma PassesOneMore(p: Partition, q: Partition, params: seq<(ValueId, ValueId)>, i: nat, j: nat)
    requires IsPartition(p) && IsPartition(q) && Refines(p, q) && ParamsIn(|p|, params) && i < j < |params|
    requires OnlyPasses(p, q, params) && p[params[i].0] == q[params[j].0]
    ensures OnlyPasses(p, Joined(q, params[i].1, params[j].1), params)
  {
    var rep := p[params[i].0];
    assert Same(p, rep, params[i].0) && Same(q, rep, params[i].0) && Same(q, rep, params[j].0);
    forall r: seq<nat> | Refines(p, r) && ParamsFollow(params, r, r)
      ensures Refines(Joined(q, params[i].1, params[j].1), r)
    {
      assert Same(q, params[i].0, params[j].0) && Same(r, params[i].0, params[j].0);
      assert Same(r, params[i].1, params[j].1);
      JoinedLeast(q, params[i].1, params[j].1, r);
    }
  }

  lemma PassesThen(p: Partition, q: Partition, q': Partition, params: seq<(ValueId, ValueId)>)
    requires OnlyPasses(p, q, params) && OnlyPasses(q, q', params)
    ensures OnlyPasses(p, q', params)
  {
  }

  /** The same for all call sites. */
  ghost predicate OnlyPassesOn(p: Partition, q: Partition, calls: seq<map<CallSite, CallSiteInfo>>) {
    forall r: seq<nat> :: Refines(p, r) && PassedOn(calls, |calls|, {}, r, r) ==> Refines(q, r)
  }

  lemma NothingPassedOn(p: Partition, calls: seq<map<CallSite, CallSiteInfo>>)
    ensures OnlyPassesOn(p, p, calls)
  {
  }

  lemma PassesOnSite(p: Partition, q: Partition, q': Partition, calls: seq<map<CallSite, CallSiteInfo>>, s: SccId, cs: CallSite)
    requires OnlyPassesOn(p, q, calls) && s < |calls| && cs in calls[s] && OnlyPasses(q, q', calls[s][cs].params)
    ensures OnlyPassesOn(p, q', calls)
  {
    forall r: seq<nat> | Refines(p, r) && PassedOn(calls, |calls|, {}, r, r)
      ensures Refines(q', r)
    {
      assert ParamsFollow(calls[s][cs].params, r, r);
    }
  }

  class BottomupUnionFindAA {
    const aliasSets: UnionFind
    var sccOfVal: seq<Option<SccId>>
    var calls: seq<map<CallSite, CallSiteInfo>>
    var idsForSum: seq<set<ValueId>>

    ghost predicate Valid()
      reads this, aliasSets
    {
      && IsPartition(aliasSets.leaders) && |aliasSets.leaders| == |sccOfVal|
      && |calls| == |idsForSum|
    }

    constructor (numSccs: nat)
      ensures Valid() && fresh(aliasSets) && sccOfVal == []
      ensures calls == seq(numSccs, _ => map[]) && idsForSum == seq(numSccs, _ => {})
    {
      aliasSets := new UnionFind(0);
      sccOfVal := [];
      calls, idsForSum := seq(numSccs, _ => map[]), seq(numSccs, _ => {});
    }

    /** Joins every one of the actuals with every one of the others. */
    method JoinPairs(actuals: seq<ValueId>, others: seq<ValueId>, ghost s: SccId, ghost ordered: bool)
      requires Valid() && (ordered ==> Local(sccOfVal, aliasSets.leaders))
      requires ActualsIf(ordered, sccOfVal, s, actuals) && ActualsIf(ordered, sccOfVal, s, others)
      modifies aliasSets
      ensures Valid() && StepIf(ordered, sccOfVal, s, old(aliasSets.leaders), aliasSets.leaders)
      ensures AllSame(aliasSets.leaders, actuals, others) && OnlyJoins(old(aliasSets.leaders), aliasSets.leaders, actuals, others)
    {
      hide OnlyJoins, StepIf, Local;
      ghost var p := aliasSets.leaders;
      StepIfSelf(ordered, sccOfVal, s, p);
      NoJoins(p, [], others);
      for i := 0 to |actuals|
        invariant Valid() && StepIf(ordered, sccOfVal, s, p, aliasSets.leaders)
        invariant AllSame(aliasSets.leaders, actuals[..i], others) && OnlyJoins(p, aliasSets.leaders, actuals[..i], others)
      {
        ghost var q := aliasSets.leaders;
        StepIfFacts(ordered, sccOfVal, s, p, q);
        assert actuals[i] in actuals;
        JoinWithAll(actuals[i], others, s, ordered);
        StepIfTrans(ordered, sccOfVal, s, p, q, aliasSets.leaders);
        StepIfFacts(ordered, sccOfVal, s, q, aliasSets.leaders);
        AllSameRefined(q, aliasSets.leaders, actuals[..i], others);
        OnlyJoinsMore(p, q, aliasSets.leaders, actuals[..i], actuals[i], others);
        assert actuals[..i + 1] == actuals[..i] + [actuals[i]];
      }
      assert actuals[..|actuals|] == actuals;
    }

    method JoinWithAll(a: ValueId, others: seq<ValueId>, ghost s: SccId, ghost ordered: bool)
      requires Valid() && (ordered ==> Local(sccOfVal, aliasSets.leaders) && InScc(sccOfVal, a, s))
      requires a < |sccOfVal| && ActualsIf(ordered, sccOfVal, s, others)
      modifies aliasSets
      ensures Valid() && StepIf(ordered, sccOfVal, s, old(aliasSets.leaders), aliasSets.leaders)
      ensures AllSame(aliasSets.leaders, [a], others) && OnlyJoins(old(aliasSets.leaders), aliasSets.leaders, [a], others)
    {
      hide OnlyJoins, StepIf, Local;
      ghost var p := aliasSets.leaders;
      StepIfSelf(ordered, sccOfVal, s, p);
      NoJoins(p, [a], []);
      for j := 0 to |others|
        invariant Valid() && StepIf(ordered, sccOfVal, s, p, aliasSets.leaders)
        invariant AllSame(aliasSets.leaders, [a], others[..j]) && OnlyJoins(p, aliasSets.leaders, [a], others[..j])
      {
        ghost var q := aliasSets.leaders;
        assert others[j] in others;
        StepIfFacts(ordered, sccOfVal, s, p, q);
        JoinStepsIf(ordered, sccOfVal, s, q, a, others[j]);
        OnlyOneMore(p, q, a, others[..j], others[j]);
        var _ := aliasSets.Join(a, others[j]);
        StepIfTrans(ordered, sccOfVal, s, p, q, aliasSets.leaders);
        StepIfFacts(ordered, sccOfVal, s, q, aliasSets.leaders);
        AllSameRefined(q, aliasSets.leaders, [a], others[..j]);
        assert others[..j + 1] == others[..j] + [others[j]];
      }
      assert others[..|others|] == others;
    }

    /** Sorts the actual values of a call site by the class of their formals. */
    method BuildBackMap(info: CallSiteInfo) returns (backMap: map<ValueId, seq<ValueId>>)
      requires Valid()
      requires forall a: nat, f: nat :: Binds(info, a, f) ==> f < |aliasSets.leaders|
      ensures BackMapOk(aliasSets.leaders, info, backMap)
    {
      backMap := map[];
      for i := 0 to |info.params|
        invariant BackMapOk(aliasSets.leaders, info.(params := info.params[..i], ret := []), backMap)
      {
        var (arg, param) := info.params[i];
        assert Binds(info, arg, param);
        var paramRep := aliasSets.Find(param);
        ghost var before := backMap;
        backMap := PushBack(backMap, paramRep, arg);
        assert info.params[..i + 1] == info.params[..i] + [(arg, param)];
        AddBinding(aliasSets.leaders, info.(params := info.params[..i], ret := []),
                   info.(params := info.params[..i + 1], ret := []), before, backMap, arg, param);
      }
      assert info.params[..|info.params|] == info.params;
      if info.retSlot.Some? {
        for i := 0 to |info.ret|
          invariant BackMapOk(aliasSets.leaders, info.(ret := info.ret[..i]), backMap)
        {
          var ret := info.ret[i];
          assert Binds(info, info.retSlot.value, ret);
          var retRep := aliasSets.Find(ret);
          ghost var before := backMap;
          backMap := PushBack(backMap, retRep, info.retSlot.value);
          assert info.ret[..i + 1] == info.ret[..i] + [ret];
          AddBinding(aliasSets.leaders, info.(ret := info.ret[..i]), info.(ret := info.ret[..i + 1]),
                     before, backMap, info.retSlot.value, ret);
        }
        assert info.ret[..|info.ret|] == info.ret;
      } else {
        assert forall a: nat, f: nat :: Binds(info, a, f) <==> Binds(info.(ret := []), a, f);
      }
    }

    /** Joins the actual values of all formals that the callee put into the class of param. The map was built for
        partition p0. */
    method ApplySummary(param: ValueId, backMap: map<ValueId, seq<ValueId>>, view: seq<set<ValueId>>, ghost s: SccId,
                        ghost info: CallSiteInfo, ghost p0: Partition, ghost ordered: bool)
      requires Valid() && (ordered ==> Local(sccOfVal, aliasSets.leaders))
      requires ViewIf(ordered, sccOfVal, idsForSum, aliasSets.leaders, view, s + 1) && CallsIf(ordered, sccOfVal, calls, idsForSum)
      requires IsPartition(p0) && Refines(p0, aliasSets.leaders) && BackMapOk(p0, info, backMap)
      requires param in backMap && param < |view| && param < |aliasSets.leaders| && forall r :: r in backMap ==> ActualsIf(ordered, sccOfVal, s, backMap[r])
      modifies aliasSets
      ensures Valid() && StepIf(ordered, sccOfVal, s, old(aliasSets.leaders), aliasSets.leaders)
      ensures view[param] == {} ==> aliasSets.leaders == old(aliasSets.leaders)
      ensures view[param] != {} && (ordered || old(aliasSets.leaders)[param] == param) ==>
                AllSame(aliasSets.leaders, backMap[param], backMap[param])
      ensures OnlyApplies(old(aliasSets.leaders), aliasSets.leaders, p0, info, view)
    {
      hide OnlyJoins, OnlyApplies, StepIf, ViewIf, CallsIf, Local, BackMapOk, AllSame;
      ghost var p := aliasSets.leaders;
      NothingApplied(p, p0, info, view);
      StepIfSelf(ordered, sccOfVal, s, p);
      var todo := view[param];
      while todo != {}
        invariant todo <= view[param]
        invariant Valid() && StepIf(ordered, sccOfVal, s, p, aliasSets.leaders)
        invariant todo == view[param] ==> aliasSets.leaders == p
        invariant todo != view[param] && (ordered || p[param] == param) ==> AllSame(aliasSets.leaders, backMap[param], backMap[param])
        invariant OnlyApplies(p, aliasSets.leaders, p0, info, view)
        decreases todo
      {
        ghost var q := aliasSets.leaders;
        StepIfFacts(ordered, sccOfVal, s, p, q);
        RefinesTrans(p0, p, q);
        ViewIfStable(ordered, sccOfVal, idsForSum, p, q, view, s, calls);
        var alias :| alias in todo;
        assert alias in view[param];
        ViewIfMember(ordered, sccOfVal, idsForSum, q, view, s + 1, param, alias);
        todo := todo - {alias};
        var aliasRep := aliasSets.Find(alias);
        if aliasRep in backMap {
          JoinPairs(backMap[param], backMap[aliasRep], s, ordered);
          KeysMeet(p0, q, aliasSets.leaders, info, backMap, view, param, aliasRep);
          AppliesThen(p, q, aliasSets.leaders, p0, info, view);
          StepIfTrans(ordered, sccOfVal, s, p, q, aliasSets.leaders);
          StepIfFacts(ordered, sccOfVal, s, q, aliasSets.leaders);
          AllSameAfter(q, aliasSets.leaders, backMap[param]);
        }
      }
    }

    /** Applies the callee summaries at one call site of component s. */
    method ProcessCallSite(info: CallSiteInfo, view: seq<set<ValueId>>, ghost s: SccId, ghost cs: CallSite, ghost ordered: bool)
      requires Valid() && (ordered ==> Local(sccOfVal, aliasSets.leaders))
      requires ViewIf(ordered, sccOfVal, idsForSum, aliasSets.leaders, view, s + 1)
      requires CallsIf(ordered, sccOfVal, calls, idsForSum) && s < |calls| && cs in calls[s] && calls[s][cs] == info
      modifies aliasSets
      ensures Valid() && StepIf(ordered, sccOfVal, s, old(aliasSets.leaders), aliasSets.leaders)
      ensures (ordered ==> Summarised(aliasSets.leaders, info)) && SiteStep(old(aliasSets.leaders), aliasSets.leaders, info, view)
    {
      hide OnlyJoins, OnlyApplies, CallsIf, Local, Refines, ViewIf, StepIf, AllSame, Applied, IsPartition, BackMapOk, Summarised,
        Keeps, KeysApplied, SomeApplied;
      ghost var p := aliasSets.leaders;
      StepIfSelf(ordered, sccOfVal, s, p);
      BindingsIn(ordered, sccOfVal, calls, idsForSum, s, cs);
      var backMap := BuildBackMap(info);
      BackMapActuals(ordered, sccOfVal, calls, idsForSum, s, cs, p, backMap);
      BackMapKeys(ordered, sccOfVal, idsForSum, p, info, backMap, view, s + 1);
      NothingApplied(p, p, info, view);
      NoKeysApplied(p, backMap, view);
      var todo := backMap.Keys;
      while todo != {}
        invariant todo <= backMap.Keys
        invariant Valid() && StepIf(ordered, sccOfVal, s, p, aliasSets.leaders)
        invariant ordered ==> Applied(aliasSets.leaders, backMap, view, todo)
        invariant OnlyApplies(p, aliasSets.leaders, p, info, view)
        invariant KeysApplied(aliasSets.leaders, backMap, view, todo)
        invariant aliasSets.leaders == p || SomeApplied(backMap, view, todo)
        decreases todo
      {
        ghost var q := aliasSets.leaders;
        ViewIfStable(ordered, sccOfVal, idsForSum, p, q, view, s, calls);
        StepIfFacts(ordered, sccOfVal, s, p, q);
        var param :| param in todo;
        ApplySummary(param, backMap, view, s, info, p, ordered);
        StepIfTrans(ordered, sccOfVal, s, p, q, aliasSets.leaders);
        StepIfFacts(ordered, sccOfVal, s, q, aliasSets.leaders);
        AppliesThen(p, q, aliasSets.leaders, p, info, view);
        KeysAppliedMore(p, q, aliasSets.leaders, info, backMap, view, todo, param);
        if ordered {
          AppliedMore(q, aliasSets.leaders, backMap, view, todo, param);
        }
        todo := todo - {param};
      }
      StepIfFacts(ordered, sccOfVal, s, p, aliasSets.leaders);
      SiteKeeps(p, aliasSets.leaders, info, backMap, view);
      if ordered {
        CallSiteSummarised(sccOfVal, calls, idsForSum, s, cs, p, aliasSets.leaders, view, backMap);
      }
    }

    /** Processes all call sites of component c, then computes its summaries. */
    method ProcessScc(c: SccId, view: seq<set<ValueId>>, ghost ordered: bool) returns (view': seq<set<ValueId>>)
      requires Valid() && (ordered ==> Local(sccOfVal, aliasSets.leaders)) && CallsIf(ordered, sccOfVal, calls, idsForSum)
      requires c < |calls| && ViewIf(ordered, sccOfVal, idsForSum, aliasSets.leaders, view, c + 1)
      requires ordered ==> SummarisedFrom(aliasSets.leaders, calls, c + 1)
      modifies aliasSets
      ensures Valid() && StepIf(ordered, sccOfVal, c, old(aliasSets.leaders), aliasSets.leaders)
      ensures ViewIf(ordered, sccOfVal, idsForSum, aliasSets.leaders, view', c) && |view'| == |view|
      ensures ordered ==> SummarisedFrom(aliasSets.leaders, calls, c)
      ensures OnlySummarises(old(aliasSets.leaders), aliasSets.leaders, calls)
      ensures SccRun(calls[c], idsForSum[c], Snapshot(old(aliasSets.leaders), view), Snapshot(aliasSets.leaders, view'))
    {
      hide OnlyApplies, OnlySummarises, StepIf, ViewIf, CallsIf, Local, Summarised, SummarisedFrom, IsPartition, Refines, SiteStep,
        SitesRun, ListsSites, Adds;
      ghost var p := aliasSets.leaders;
      StepIfSelf(ordered, sccOfVal, c, p);
      NothingSummarised(p, calls);
      ghost var sites: seq<CallSite>, steps := [], [p];
      NoSites(calls[c], view, p);
      var todo := calls[c].Keys;
      while todo != {}
        invariant todo <= calls[c].Keys
        invariant Valid() && StepIf(ordered, sccOfVal, c, p, aliasSets.leaders)
        invariant ordered ==> SitesSummarised(aliasSets.leaders, calls[c], todo)
        invariant OnlySummarises(p, aliasSets.leaders, calls)
        invariant SitesRun(calls[c], view, sites, steps) && SitesDone(calls[c], sites, todo)
        invariant steps != [] && steps[0] == p && steps[|steps| - 1] == aliasSets.leaders
        decreases todo
      {
        ghost var q := aliasSets.leaders;
        ViewIfStable(ordered, sccOfVal, idsForSum, p, q, view, c, calls);
        StepIfFacts(ordered, sccOfVal, c, p, q);
        var cs :| cs in todo;
        ProcessCallSite(calls[c][cs], view, c, cs, ordered);
        StepIfTrans(ordered, sccOfVal, c, p, q, aliasSets.leaders);
        if ordered {
          SitesSummarisedMore(sccOfVal, calls, idsForSum, c, cs, q, aliasSets.leaders, todo);
        }
        OnlyStep(q, aliasSets.leaders, calls[c][cs], view);
        SummarisesSite(p, q, aliasSets.leaders, q, calls, c, cs, view);
        OneMoreSite(calls[c], view, sites, steps, todo, cs, aliasSets.leaders);
        sites, steps := sites + [cs], steps + [aliasSets.leaders];
        todo := todo - {cs};
      }
      AllSites(calls[c], view, sites, steps);
      ViewIfStable(ordered, sccOfVal, idsForSum, p, aliasSets.leaders, view, c, calls);
      if ordered {
        SummarisedOneMore(sccOfVal, calls, idsForSum, c, p, aliasSets.leaders);
      }
      view' := AddSummaries(c, view, ordered);
    }

    method AddSummaries(c: SccId, view: seq<set<ValueId>>, ghost ordered: bool) returns (view': seq<set<ValueId>>)
      requires Valid() && CallsIf(ordered, sccOfVal, calls, idsForSum)
      requires c < |idsForSum| && ViewIf(ordered, sccOfVal, idsForSum, aliasSets.leaders, view, c + 1)
      ensures ViewIf(ordered, sccOfVal, idsForSum, aliasSets.leaders, view', c) && |view'| == |view|
      ensures Adds(view, view', idsForSum[c], aliasSets.leaders)
    {
      hide CallsOk, ViewOk, OnlyAdds;
      view' := view;
      AddsNothing(view, idsForSum[c], aliasSets.leaders);
      var todo := idsForSum[c];
      while todo != {}
        invariant todo <= idsForSum[c] && |view'| == |view|
        invariant forall r: nat :: r < |view| ==> view[r] <= view'[r]
        invariant forall v: nat :: v in idsForSum[c] && v !in todo ==> Viewed(aliasSets.leaders, view', v)
        invariant OnlyAdds(view, view', idsForSum[c], aliasSets.leaders)
        decreases todo
      {
        var sumId :| sumId in todo;
        todo := todo - {sumId};
        assert sumId in idsForSum[c];
        var rep := aliasSets.Find(sumId);
        ghost var before := view';
        view' := view'[rep := view'[rep] + {sumId}];
        AddsOne(view, before, view', idsForSum[c], aliasSets.leaders, sumId);
      }
      AddedIn(idsForSum[c], aliasSets.leaders, view, view');
      if ordered {
        SummariesAdded(sccOfVal, calls, idsForSum, aliasSets.leaders, view, view', c);
      }
    }

    /** Callee components first: applies the summaries of the callees at every call site. Nothing more is joined
        than the summaries demand; if the components are in order, everything that they demand is. */
    method BottomupPropagation(numVars: nat, ghost ordered: bool) returns (ghost run: seq<Snapshot>)
      requires Valid() && (ordered ==> Local(sccOfVal, aliasSets.leaders)) && CallsIf(ordered, sccOfVal, calls, idsForSum)
      requires numVars >= |sccOfVal|
      modifies aliasSets
      ensures Valid() && Refines(old(aliasSets.leaders), aliasSets.leaders)
      ensures OnlySummarises(old(aliasSets.leaders), aliasSets.leaders, calls)
      ensures ordered ==> Local(sccOfVal, aliasSets.leaders) && SummarisedFrom(aliasSets.leaders, calls, 0)
      ensures PassRun(calls, idsForSum, Snapshot(old(aliasSets.leaders), NoViews(numVars)), run) && run[0].p == aliasSets.leaders
    {
      hide OnlySummarises, StepIf, CallsIf, Local, Refines, SummarisedFrom, SccRun;
      NothingSummarised(aliasSets.leaders, calls);
      var view: seq<set<ValueId>> := NoViews(numVars);
      run := [Snapshot(aliasSets.leaders, view)];
      ghost var p := aliasSets.leaders;
      RefinesSelf(p);
      NothingToSummarise(ordered, sccOfVal, calls, idsForSum, p, view);
      for c := |calls| downto 0
        invariant Valid() && (ordered ==> Local(sccOfVal, aliasSets.leaders)) && Refines(p, aliasSets.leaders)
        invariant ViewIf(ordered, sccOfVal, idsForSum, aliasSets.leaders, view, c)
        invariant ordered ==> SummarisedFrom(aliasSets.leaders, calls, c)
        invariant OnlySummarises(p, aliasSets.leaders, calls)
        invariant RunFrom(calls, idsForSum, Snapshot(p, NoViews(numVars)), run, c) && run[0] == Snapshot(aliasSets.leaders, view)
      {
        ghost var q := aliasSets.leaders;
        view := ProcessScc(c, view, ordered);
        OneMoreScc(calls, idsForSum, Snapshot(p, NoViews(numVars)), run, c, Snapshot(aliasSets.leaders, view));
        run := [Snapshot(aliasSets.leaders, view)] + run;
        StepIfFacts(ordered, sccOfVal, c, q, aliasSets.leaders);
        RefinesTrans(p, q, aliasSets.leaders);
        SummarisesThen(p, q, aliasSets.leaders, calls);
      }
    }

    /** Reports parameters as aliases when arguments are. The representative of the first argument is looked up
        once, although joins may change it before the comparisons are over. */
    method TopdownCallSite(params: seq<(ValueId, ValueId)>)
      requires Valid() && ParamsIn(|sccOfVal|, params)
      modifies aliasSets
      ensures Valid() && Refines(old(aliasSets.leaders), aliasSets.leaders)
      ensures ParamsFollow(params, old(aliasSets.leaders), aliasSets.leaders)
      ensures OnlyPasses(old(aliasSets.leaders), aliasSets.leaders, params)
    {
      hide OnlyPasses;
      NothingPassed(aliasSets.leaders, params);
      ghost var starts: seq<Partition> := [];
      for i := 0 to |params|
        invariant Valid() && |starts| == i
        invariant Rounds(params, starts + [aliasSets.leaders])
        invariant (starts + [aliasSets.leaders])[0] == old(aliasSets.leaders)
        invariant OnlyPasses(old(aliasSets.leaders), aliasSets.leaders, params)
      {
        ghost var p := aliasSets.leaders;
        TopdownRound(params, i);
        PassesThen(old(aliasSets.leaders), p, aliasSets.leaders, params);
        AddRound(params, starts, p, aliasSets.leaders);
        starts := starts + [p];
      }
      AllParamsFollow(params, starts + [aliasSets.leaders]);
    }

    /** Compares one argument with all later ones. */
    method TopdownRound(params: seq<(ValueId, ValueId)>, i: nat)
      requires Valid() && ParamsIn(|sccOfVal|, params) && i < |params|
      modifies aliasSets
      ensures Valid() && Refines(old(aliasSets.leaders), aliasSets.leaders)
      ensures RoundDone(params, i, |params|, old(aliasSets.leaders), aliasSets.leaders)
      ensures OnlyPasses(old(aliasSets.leaders), aliasSets.leaders, params)
    {
      hide OnlyPasses;
      NothingPassed(aliasSets.leaders, params);
      ghost var p := aliasSets.leaders;
      var firstArgRep := aliasSets.Find(params[i].0);
      for j := i + 1 to |params|
        invariant Valid() && Refines(p, aliasSets.leaders)
        invariant aliasSets.leaders == p || FollowsBelow(params, i, j, p, aliasSets.leaders)
        invariant RoundDone(params, i, j, p, aliasSets.leaders) && OnlyPasses(p, aliasSets.leaders, params)
      {
        ghost var q := aliasSets.leaders;
        var secondArgRep := aliasSets.Find(params[j].0);
        if firstArgRep == secondArgRep {
          JoinedRefines(q, params[i].1, params[j].1);
          PassesOneMore(p, q, params, i, j);
          var _ := aliasSets.Join(params[i].1, params[j].1);
          RefinesTrans(p, q, aliasSets.leaders);
        }
        RoundStep(params, i, j, p, q, aliasSets.leaders, firstArgRep == secondArgRep);
      }
    }

    /** Passes aliases of arguments on to parameters, callers first. */
    method TopdownPropagation()
      requires Valid()
      requires forall s: nat, cs: CallSite :: s < |calls| && cs in calls[s] ==> ParamsIn(|sccOfVal|, calls[s][cs].params)
      modifies aliasSets
      ensures Valid() && Refines(old(aliasSets.leaders), aliasSets.leaders)
      ensures PassedOn(calls, |calls|, {}, old(aliasSets.leaders), aliasSets.leaders)
      ensures OnlyPassesOn(old(aliasSets.leaders), aliasSets.leaders, calls)
    {
      hide OnlyPasses, OnlyPassesOn;
      NothingPassedOn(aliasSets.leaders, calls);
      ghost var p := aliasSets.leaders;
      for c := 0 to |calls|
        invariant Valid() && Refines(p, aliasSets.leaders)
        invariant PassedOn(calls, c, {}, p, aliasSets.leaders) && OnlyPassesOn(p, aliasSets.leaders, calls)
      {
        var todo := calls[c].Keys;
        ghost var done: set<CallSite> := {};
        while todo != {}
          invariant done == calls[c].Keys - todo && todo <= calls[c].Keys
          invariant Valid() && Refines(p, aliasSets.leaders)
          invariant PassedOn(calls, c, done, p, aliasSets.leaders) && OnlyPassesOn(p, aliasSets.leaders, calls)
          decreases todo
        {
          ghost var q := aliasSets.leaders;
          var cs :| cs in todo;
          todo := todo - {cs};
          TopdownCallSite(calls[c][cs].params);
          RefinesTrans(p, q, aliasSets.leaders);
          PassOnOneMore(calls, c, done, cs, p, q, aliasSets.leaders);
          PassesOnSite(p, q, aliasSets.leaders, calls, c, cs);
          done := done + {cs};
        }
      }
    }

    /** A new value; scc is the component of its function, if it has one. */
    method OnAddValue(v: ValueId, scc: Option<SccId>)
      requires Valid() && v == |sccOfVal|
      modifies this, aliasSets
      ensures Valid() && sccOfVal == old(sccOfVal) + [scc]
      ensures calls == old(calls) && idsForSum == old(idsForSum)
      ensures aliasSets.leaders == Grown(old(aliasSets.leaders), v + 1)
    {
      sccOfVal := sccOfVal + [scc];
      aliasSets.Grow(v + 1);
    }

    /** A call or return edge between two components is recorded for the caller and its formal is summarised by
        the callee; every other edge joins its ends. */
    method OnAddEdge(e: Edge, cs: CallSite)
      requires Valid() && e.from < |sccOfVal| && e.to < |sccOfVal|
      requires forall v: nat :: v < |sccOfVal| && sccOfVal[v].Some? ==> sccOfVal[v].value < |calls|
      requires e.kind.Return? && sccOfVal[e.from].Some? && sccOfVal[e.to].Some? && sccOfVal[e.from] != sccOfVal[e.to] ==>
                 var s := sccOfVal[e.to].value; cs in calls[s] ==> calls[s][cs].retSlot in {None, Some(e.to)}
      modifies this, aliasSets
      ensures Valid() && sccOfVal == old(sccOfVal)
      ensures e.kind.Call? && sccOfVal[e.from].Some? && sccOfVal[e.to].Some? && sccOfVal[e.from] != sccOfVal[e.to] ==>
                var s, t := sccOfVal[e.from].value, sccOfVal[e.to].value;
                var before := if cs in old(calls)[s] then old(calls)[s][cs] else CallSiteInfo([], [], None);
                && aliasSets.leaders == old(aliasSets.leaders)
                && |calls| == old(|calls|) && (forall u: nat :: u < |calls| && u != s ==> calls[u] == old(calls)[u])
                && calls[s] == old(calls)[s][cs := before.(params := before.params + [(e.from, e.to)])]
                && idsForSum == old(idsForSum)[t := old(idsForSum)[t] + {e.to}]
      ensures e.kind.Return? && sccOfVal[e.from].Some? && sccOfVal[e.to].Some? && sccOfVal[e.from] != sccOfVal[e.to] ==>
                var s, t := sccOfVal[e.to].value, sccOfVal[e.from].value;
                var before := if cs in old(calls)[s] then old(calls)[s][cs] else CallSiteInfo([], [], None);
                && aliasSets.leaders == old(aliasSets.leaders)
                && |calls| == old(|calls|) && (forall u: nat :: u < |calls| && u != s ==> calls[u] == old(calls)[u])
                && calls[s] == old(calls)[s][cs := before.(retSlot := Some(e.to), ret := before.ret + [e.from])]
                && idsForSum == old(idsForSum)[t := old(idsForSum)[t] + {e.from}]
      ensures (!e.kind.Call? && !e.kind.Return?) || sccOfVal[e.from].None? || sccOfVal[e.to].None? || sccOfVal[e.from] == sccOfVal[e.to] ==>
                && calls == old(calls) && idsForSum == old(idsForSum)
                && aliasSets.leaders == Joined(old(aliasSets.leaders), e.from, e.to)
    {
      var fromScc, toScc := sccOfVal[e.from], sccOfVal[e.to];
      if e.kind.Call? {
        if fromScc != toScc && fromScc.Some? && toScc.Some? {
          var s, t := fromScc.value, toScc.value;
          var info := if cs in calls[s] then calls[s][cs] else NO_CALLS;
          calls := calls[s := calls[s][cs := info.(params := info.params + [(e.from, e.to)])]];
          idsForSum := idsForSum[t := idsForSum[t] + {e.to}];
          return;
        }
      } else if e.kind.Return? {
        if fromScc != toScc && fromScc.Some? && toScc.Some? {
          var s, t := toScc.value, fromScc.value;
          var info := if cs in calls[s] then calls[s][cs] else NO_CALLS;
          calls := calls[s := calls[s][cs := info.(retSlot := Some(e.to), ret := info.ret + [e.from])]];
          idsForSum := idsForSum[t := idsForSum[t] + {e.from}];
          return;
        }
      }
      var _ := aliasSets.Join(e.from, e.to);
    }

    /** Finishes the analysis; the top-down pass is left out when soundness is not asked for. The partition
        after the bottom-up pass is returned for reference. */
    method ConsumeAAResults(soundy: bool, included: set<ValueId>, ghost ordered: bool)
      returns (r: RawResult, ghost bottomUp: Partition, ghost run: seq<Snapshot>)
      requires Valid() && (ordered ==> Local(sccOfVal, aliasSets.leaders)) && CallsIf(ordered, sccOfVal, calls, idsForSum)
      modifies aliasSets
      ensures Valid() && (ordered ==> Local(sccOfVal, bottomUp) && SummarisedFrom(bottomUp, calls, 0))
      ensures Refines(old(aliasSets.leaders), bottomUp) && Refines(bottomUp, aliasSets.leaders)
      ensures OnlySummarises(old(aliasSets.leaders), bottomUp, calls)
      ensures PassRun(calls, idsForSum, Snapshot(old(aliasSets.leaders), NoViews(|sccOfVal|)), run) && run[0].p == bottomUp
      ensures if soundy then PassedOn(calls, |calls|, {}, bottomUp, aliasSets.leaders) else aliasSets.leaders == bottomUp
      ensures OnlyPassesOn(bottomUp, aliasSets.leaders, calls)
      ensures r.Basic? && r.Size() == |sccOfVal| && IsConsumed(r, included)
      ensures forall v: nat, w: nat :: v < |sccOfVal| && w < |sccOfVal| ==>
                (r.MayAlias(v, w) <==> Same(aliasSets.leaders, v, w))
    {
      run := BottomupPropagation(|sccOfVal|, ordered);
      bottomUp := aliasSets.leaders;
      NothingPassedOn(bottomUp, calls);
      if soundy {
        ParamsAreValues(|sccOfVal|, calls, idsForSum);
        TopdownPropagation();
      }
      r := ConsumeBasic(aliasSets, |sccOfVal|, Singletons(|sccOfVal|), included);
    }
  }

  /** A call or return between two components; the ends of the edge play the roles of actual and formal value. */
  predicate Crosses(sccOfVal: seq<Option<SccId>>, e: Edge) {
    && (e.kind.Call? || e.kind.Return?)
    && e.from < |sccOfVal| && e.to < |sccOfVal|
    && sccOfVal[e.from] != sccOfVal[e.to] && sccOfVal[e.from].Some? && sccOfVal[e.to].Some?
  }

  function Actual(e: Edge): ValueId {
    if e.kind.Return? then e.to else e.from
  }

  function Formal(e: Edge): ValueId {
    if e.kind.Return? then e.from else e.to
  }

  function InfoAt(sites: map<CallSite, CallSiteInfo>, cs: CallSite): CallSiteInfo {
    if cs in sites then sites[cs] else NO_CALLS
  }

  function SlotOf(sites: map<CallSite, CallSiteInfo>, cs: CallSite): Option<ValueId> {
    InfoAt(sites, cs).retSlot
  }

  ghost function WithBinding(calls: seq<map<CallSite, CallSiteInfo>>, s: SccId, cs: CallSite, e: Edge): seq<map<CallSite, CallSiteInfo>>
    requires s < |calls|
  {
    var info := InfoAt(calls[s], cs);
    var info' := if e.kind.Return? then info.(retSlot := Some(e.to), ret := info.ret + [e.from])
                 else info.(params := info.params + [(e.from, e.to)]);
    var sites: map<CallSite, CallSiteInfo> := calls[s][cs := info'];
    calls[s := sites]
  }

  lemma ParamsAreValues(n: nat, calls: seq<map<CallSite, CallSiteInfo>>, idsForSum: seq<set<ValueId>>)
    requires CallsIn(n, calls, idsForSum)
    ensures forall s: nat, cs: CallSite :: s < |calls| && cs in calls[s] ==> ParamsIn(n, calls[s][cs].params)
  {
    forall s: nat, cs: CallSite, i: nat | s < |calls| && cs in calls[s] && i < |calls[s][cs].params|
      ensures calls[s][cs].params[i].0 < n && calls[s][cs].params[i].1 < n
    {
      var (a, f) := calls[s][cs].params[i];
      assert (a, f) in calls[s][cs].params && Binds(calls[s][cs], a, f);
    }
  }

  /** The call sites of the components below c, and some of c, have passed their aliases on. */
  ghost predicate PassedOn(calls: seq<map<CallSite, CallSiteInfo>>, c: nat, done: set<CallSite>, p: Partition, q: Partition) {
    forall s: nat, cs: CallSite {:trigger calls[s][cs]} ::
      s < |calls| && cs in calls[s] && (s < c || (s == c && cs in done)) ==> ParamsFollow(calls[s][cs].params, p, q)
  }

  lemma PassOnOneMore(calls: seq<map<CallSite, CallSiteInfo>>, c: nat, done: set<CallSite>, cs: CallSite,
                      p: Partition, q: Partition, r: Partition)
    requires PassedOn(calls, c, done, p, q) && c < |calls| && cs in calls[c]
    requires Refines(p, q) && Refines(q, r) && ParamsFollow(calls[c][cs].params, q, r)
    ensures PassedOn(calls, c, done + {cs}, p, r)
  {
    forall s: nat, k: CallSite | s < |calls| && k in calls[s] && (s < c || (s == c && k in done + {cs}))
      ensures ParamsFollow(calls[s][k].params, p, r)
    {
      if s == c && k == cs {
        ParamsFollowWeaken(calls[s][k].params, p, q, r);
      } else {
        assert ParamsFollow(calls[s][k].params, p, q);
        ParamsFollowWeaken(calls[s][k].params, p, q, r);
      }
    }
  }

  ghost predicate ParamsIn(n: nat, params: seq<(ValueId, ValueId)>) {
    forall i: nat :: i < |params| ==> params[i].0 < n && params[i].1 < n
  }

  /** The arguments at i and j were in one class before, the parameters are in one class afterwards. */
  ghost predicate Follows(params: seq<(ValueId, ValueId)>, i: nat, j: nat, p: Partition, q: Partition)
    requires i < |params| && j < |params|
  {
    Same(p, params[i].0, params[j].0) && Same(q, params[i].1, params[j].1)
  }

  ghost predicate ParamsFollow(params: seq<(ValueId, ValueId)>, p: Partition, q: Partition) {
    forall i: nat, j: nat :: i < j < |params| && Same(p, params[i].0, params[j].0) ==> Same(q, params[i].1, params[j].1)
  }

  /** One round of comparisons up to n. An alias of the i-th argument may be missed because the representative
      is out of date, but only after some other parameter has been joined. */
  ghost predicate RoundDone(params: seq<(ValueId, ValueId)>, i: nat, n: nat, p: Partition, q: Partition) {
    forall j: nat :: i < j < n <= |params| && Same(p, params[i].0, params[j].0) ==> FollowsBy(params, i, j, p, q)
  }

  ghost predicate FollowsBy(params: seq<(ValueId, ValueId)>, i: nat, j: nat, p: Partition, q: Partition)
    requires i < j < |params|
  {
    exists j1: nat :: i < j1 <= j && Follows(params, i, j1, p, q)
  }

  ghost predicate FollowsBelow(params: seq<(ValueId, ValueId)>, i: nat, j: nat, p: Partition, q: Partition)
    requires i < |params|
  {
    exists j1: nat :: i < j1 < j && j1 < |params| && Follows(params, i, j1, p, q)
  }

  /** One comparison: q becomes r. While nothing has been joined in this round the representative is exact. */
  lemma RoundStep(params: seq<(ValueId, ValueId)>, i: nat, j: nat, p: Partition, q: Partition, r: Partition, joined: bool)
    requires i < j < |params| && ParamsIn(|p|, params) && Refines(q, r) && |q| == |p|
    requires q == p || FollowsBelow(params, i, j, p, q)
    requires RoundDone(params, i, j, p, q)
    requires if joined then Same(r, params[i].1, params[j].1) else r == q
    requires joined <==> p[params[i].0] == q[params[j].0]
    ensures r == p || FollowsBelow(params, i, j + 1, p, r)
    ensures RoundDone(params, i, j + 1, p, r)
  {
    forall k: nat | i < k < |params| && Follows(params, i, k, p, q)
      ensures Follows(params, i, k, p, r)
    {
      assert Same(q, params[i].1, params[k].1);
    }
    if q == p {
      if joined {
        assert Follows(params, i, j, p, r);
      }
    } else {
      var j1: nat :| i < j1 < j && Follows(params, i, j1, p, q);
      assert Follows(params, i, j1, p, r);
    }
    forall k: nat | i < k < j + 1 && Same(p, params[i].0, params[k].0)
      ensures FollowsBy(params, i, k, p, r)
    {
      if k < j {
        assert FollowsBy(params, i, k, p, q);
        var k1: nat :| i < k1 <= k && Follows(params, i, k1, p, q);
        assert Follows(params, i, k1, p, r);
      }
    }
  }

  /** The partitions at the start of each round, and after the last one. */
  ghost predicate Rounds(params: seq<(ValueId, ValueId)>, starts: seq<Partition>) {
    && 0 < |starts| <= |params| + 1
    && (forall i: nat, k: nat :: i <= k < |starts| ==> Refines(starts[i], starts[k]))
    && (forall i: nat :: i < |starts| - 1 ==> RoundDone(params, i, |params|, starts[i], starts[i + 1]))
  }

  lemma JoinedRefines(p: Partition, a: ValueId, b: ValueId)
    requires a < |p| && b < |p|
    ensures Refines(p, Joined(p, a, b)) && Same(Joined(p, a, b), a, b)
  {
  }

  lemma AddRound(params: seq<(ValueId, ValueId)>, starts: seq<Partition>, p: Partition, q: Partition)
    requires Rounds(params, starts + [p]) && |starts| < |params| && Refines(p, q)
    requires RoundDone(params, |starts|, |params|, p, q)
    ensures Rounds(params, starts + [p] + [q])
  {
    var before, after := starts + [p], starts + [p] + [q];
    assert forall i: nat :: i < |before| ==> after[i] == before[i];
    forall i: nat, k: nat | i <= k < |after|
      ensures Refines(after[i], after[k])
    {
      if k == |before| && i < k {
        assert Refines(before[i], before[|starts|]);
        RefinesTrans(before[i], p, q);
      }
    }
    forall i: nat | i < |after| - 1
      ensures RoundDone(params, i, |params|, after[i], after[i + 1])
    {
      if i < |starts| {
        assert RoundDone(params, i, |params|, before[i], before[i + 1]);
      }
    }
  }

  lemma RoundFollows(params: seq<(ValueId, ValueId)>, starts: seq<Partition>, i: nat, j: nat) returns (j1: nat)
    requires Rounds(params, starts) && |starts| == |params| + 1 && i < j < |params|
    requires Same(starts[i], params[i].0, params[j].0)
    ensures i < j1 <= j && Same(starts[i], params[i].0, params[j1].0)
    ensures Same(starts[|params|], params[i].1, params[j1].1)
  {
    assert RoundDone(params, i, |params|, starts[i], starts[i + 1]);
    assert FollowsBy(params, i, j, starts[i], starts[i + 1]);
    j1 :| i < j1 <= j && Follows(params, i, j1, starts[i], starts[i + 1]);
    assert Refines(starts[i + 1], starts[|params|]);
  }

  /** A missed comparison is made up for by the round of the parameter that was joined instead. */
  lemma {:induction false} ParamFollows(params: seq<(ValueId, ValueId)>, starts: seq<Partition>, i: nat, j: nat)
    requires Rounds(params, starts) && |starts| == |params| + 1 && i < j < |params|
    requires Same(starts[i], params[i].0, params[j].0)
    ensures Same(starts[|params|], params[i].1, params[j].1)
    decreases j - i
  {
    var j1 := RoundFollows(params, starts, i, j);
    if j1 < j {
      assert Refines(starts[i], starts[j1]);
      assert Same(starts[i], params[j1].0, params[j].0);
      ParamFollows(params, starts, j1, j);
    }
  }

  lemma AllParamsFollow(params: seq<(ValueId, ValueId)>, starts: seq<Partition>)
    requires Rounds(params, starts) && |starts| == |params| + 1
    ensures ParamsFollow(params, starts[0], starts[|params|])
  {
    forall i: nat, j: nat | i < j < |params| && Same(starts[0], params[i].0, params[j].0)
      ensures Same(starts[|params|], params[i].1, params[j].1)
    {
      assert Refines(starts[0], starts[i]);
      ParamFollows(params, starts, i, j);
    }
  }

  lemma ParamsFollowWeaken(params: seq<(ValueId, ValueId)>, p: Partition, q: Partition, r: Partition)
    requires Refines(p, q) && Refines(q, r) && (ParamsFollow(params, q, r) || ParamsFollow(params, p, q))
    ensures ParamsFollow(params, p, r)
  {
    forall i: nat, j: nat | i < j < |params| && Same(p, params[i].0, params[j].0)
      ensures Same(r, params[i].1, params[j].1)
    {
      assert Same(q, params[i].0, params[j].0);
      assert ParamsFollow(params, p, q) ==> Same(q, params[i].1, params[j].1);
    }
  }

  ghost predicate SummarisedFrom(p: Partition, calls: seq<map<CallSite, CallSiteInfo>>, c: SccId) {
    forall t: nat, cs: CallSite :: c <= t < |calls| && cs in calls[t] ==> Summarised(p, calls[t][cs])
  }

  lemma SummariesStable(sccOfVal: seq<Option<SccId>>, calls: seq<map<CallSite, CallSiteInfo>>, idsForSum: seq<set<ValueId>>,
                        s: SccId, p: Partition, q: Partition)
    requires CallsOk(sccOfVal, calls, idsForSum) && s < |calls| && StepIn(sccOfVal, s, p, q) && |p| == |sccOfVal|
    ensures forall t: nat, cs: CallSite :: s <= t < |calls| && cs in calls[t] && Summarised(p, calls[t][cs]) ==>
              Summarised(q, calls[t][cs])
  {
    forall t: nat, cs: CallSite | s <= t < |calls| && cs in calls[t] && Summarised(p, calls[t][cs])
      ensures Summarised(q, calls[t][cs])
    {
      SummaryStable(sccOfVal, calls, idsForSum, s, t, cs, p, q);
    }
  }

  /** The call sites that have been processed, each one once. */
  ghost predicate SitesDone(infos: map<CallSite, CallSiteInfo>, sites: seq<CallSite>, todo: set<CallSite>) {
    Distinct(sites) && forall cs: CallSite :: cs in sites <==> cs in infos && cs !in todo
  }

  lemma NoSites(infos: map<CallSite, CallSiteInfo>, view: seq<set<ValueId>>, p: Partition)
    ensures SitesRun(infos, view, [], [p]) && SitesDone(infos, [], infos.Keys)
  {
  }

  lemma OneMoreSite(infos: map<CallSite, CallSiteInfo>, view: seq<set<ValueId>>, sites: seq<CallSite>, steps: seq<Partition>,
                    todo: set<CallSite>, cs: CallSite, q: Partition)
    requires SitesRun(infos, view, sites, steps) && SitesDone(infos, sites, todo) && cs in todo && cs in infos
    requires steps != [] && SiteStep(steps[|steps| - 1], q, infos[cs], view)
    ensures SitesRun(infos, view, sites + [cs], steps + [q]) && SitesDone(infos, sites + [cs], todo - {cs})
  {
    hide SiteStep;
    forall i: nat | i < |sites| + 1
      ensures SiteAt(infos, view, sites + [cs], steps + [q], i)
    {
      assert i < |sites| ==> SiteAt(infos, view, sites, steps, i);
    }
  }

  lemma AllSites(infos: map<CallSite, CallSiteInfo>, view: seq<set<ValueId>>, sites: seq<CallSite>, steps: seq<Partition>)
    requires SitesRun(infos, view, sites, steps) && SitesDone(infos, sites, {})
    ensures ListsSites(infos, sites) && |steps| == |sites| + 1
  {
  }

  lemma OnlyStep(p: Partition, q: Partition, info: CallSiteInfo, view: seq<set<ValueId>>)
    requires SiteStep(p, q, info, view)
    ensures OnlyApplies(p, q, p, info, view)
  {
  }

  /** The call sites of one component, but for those in todo. */
  ghost predicate SitesSummarised(p: Partition, sites: map<CallSite, CallSiteInfo>, todo: set<CallSite>) {
    forall cs: CallSite :: cs in sites && cs !in todo ==> Summarised(p, sites[cs])
  }

  lemma SitesSummarisedMore(sccOfVal: seq<Option<SccId>>, calls: seq<map<CallSite, CallSiteInfo>>, idsForSum: seq<set<ValueId>>,
                            c: SccId, cs: CallSite, p: Partition, q: Partition, todo: set<CallSite>)
    requires CallsIf(true, sccOfVal, calls, idsForSum) && c < |calls| && StepIf(true, sccOfVal, c, p, q) && |p| == |sccOfVal|
    requires SitesSummarised(p, calls[c], todo) && cs in calls[c] && Summarised(q, calls[c][cs])
    ensures SitesSummarised(q, calls[c], todo - {cs})
  {
    SummariesStable(sccOfVal, calls, idsForSum, c, p, q);
  }

  lemma SummarisedOneMore(sccOfVal: seq<Option<SccId>>, calls: seq<map<CallSite, CallSiteInfo>>, idsForSum: seq<set<ValueId>>,
                          c: SccId, p: Partition, q: Partition)
    requires CallsIf(true, sccOfVal, calls, idsForSum) && c < |calls| && StepIf(true, sccOfVal, c, p, q) && |p| == |sccOfVal|
    requires SummarisedFrom(p, calls, c + 1) && SitesSummarised(q, calls[c], {})
    ensures SummarisedFrom(q, calls, c)
  {
    SummariesStable(sccOfVal, calls, idsForSum, c, p, q);
  }

  lemma RefinesSelf(p: Partition)
    ensures Refines(p, p)
  {
  }

  /** Behind the last component there is nothing. */
  lemma NothingToSummarise(ordered: bool, sccOfVal: seq<Option<SccId>>, calls: seq<map<CallSite, CallSiteInfo>>,
                           idsForSum: seq<set<ValueId>>, p: Partition, view: seq<set<ValueId>>)
    requires |view| >= |p| == |sccOfVal| && |calls| == |idsForSum| && forall r: nat :: r < |view| ==> view[r] == {}
    ensures ViewIf(ordered, sccOfVal, idsForSum, p, view, |calls|) && SummarisedFrom(p, calls, |calls|)
  {
  }

  lemma RefinesTrans(p: Partition, q: Partition, r: Partition)
    requires Refines(p, q) && Refines(q, r)
    ensures Refines(p, r)
  {
    forall i: nat, j: nat | Same(p, i, j)
      ensures r[i] == r[j]
    {
      assert Same(q, i, j);
    }
  }

  /** Only the given ids are new in the views, each under its representative. */
  ghost predicate OnlyAdds(view: seq<set<ValueId>>, view': seq<set<ValueId>>, ids: set<ValueId>, p: Partition) {
    |view'| == |view| &&
    forall r: nat, v: nat {:trigger v in view'[r]} :: r < |view| && v in view'[r] ==> v in view[r] || AddedAt(ids, p, r, v)
  }

  /** All given ids have been added, each under its representative, and nothing else. */
  ghost predicate Adds(view: seq<set<ValueId>>, view': seq<set<ValueId>>, ids: set<ValueId>, p: Partition) {
    && OnlyAdds(view, view', ids, p) && (forall r: nat :: r < |view| ==> view[r] <= view'[r])
    && forall v: nat :: v in ids ==> Viewed(p, view', v)
  }

  ghost predicate AddedAt(ids: set<ValueId>, p: Partition, r: nat, v: ValueId) {
    v in ids && v < |p| && p[v] == r
  }

  lemma AddsNothing(view: seq<set<ValueId>>, ids: set<ValueId>, p: Partition)
    ensures OnlyAdds(view, view, ids, p)
  {
  }

  lemma AddsOne(view: seq<set<ValueId>>, before: seq<set<ValueId>>, after: seq<set<ValueId>>, ids: set<ValueId>,
                p: Partition, v: ValueId)
    requires OnlyAdds(view, before, ids, p) && v in ids && v < |p| && p[v] < |before|
    requires after == before[p[v] := before[p[v]] + {v}]
    ensures OnlyAdds(view, after, ids, p)
  {
    forall r: nat, w: nat | r < |view| && w in after[r]
      ensures w in view[r] || AddedAt(ids, p, r, w)
    {
      if r == p[v] && w == v {
        assert AddedAt(ids, p, r, w);
      } else {
        assert w in before[r];
        assert w in view[r] || AddedAt(ids, p, r, w);
      }
    }
  }

  lemma AddedIn(ids: set<ValueId>, p: Partition, view: seq<set<ValueId>>, view': seq<set<ValueId>>)
    requires IsPartition(p) && ViewIn(p, view) && OnlyAdds(view, view', ids, p)
    ensures ViewIn(p, view')
  {
    forall r: nat, v: nat | r < |view'| && v in view'[r]
      ensures Same(p, v, r)
    {
      assert v in view[r] || AddedAt(ids, p, r, v);
    }
  }

  lemma SummariesAdded(sccOfVal: seq<Option<SccId>>, calls: seq<map<CallSite, CallSiteInfo>>, idsForSum: seq<set<ValueId>>,
                       p: Partition, view: seq<set<ValueId>>, view': seq<set<ValueId>>, c: SccId)
    requires CallsOk(sccOfVal, calls, idsForSum) && ViewOk(sccOfVal, idsForSum, p, view, c + 1)
    requires c < |idsForSum| && |view'| == |view| && forall r: nat :: r < |view| ==> view[r] <= view'[r]
    requires forall v: nat :: v in idsForSum[c] ==> Viewed(p, view', v)
    requires OnlyAdds(view, view', idsForSum[c], p)
    ensures ViewOk(sccOfVal, idsForSum, p, view', c)
  {
    forall s: nat, v: nat | c <= s < |idsForSum| && v in idsForSum[s]
      ensures Viewed(p, view', v)
    {
      if s > c {
        assert Viewed(p, view, v) && view[p[v]] <= view'[p[v]];
      }
    }
    forall r: nat, v: nat | r < |view'| && v in view'[r]
      ensures ViewedAt(sccOfVal, p, c, r, v)
    {
      if v in view[r] {
        assert ViewedAt(sccOfVal, p, c + 1, r, v);
      } else {
        assert AddedAt(idsForSum[c], p, r, v) && InScc(sccOfVal, v, c);
      }
    }
  }

  /** The summaries have been applied for all keys but those in todo. */
  ghost predicate Applied(q: Partition, backMap: map<ValueId, seq<ValueId>>, view: seq<set<ValueId>>, todo: set<ValueId>) {
    forall r: nat :: r in backMap && r !in todo && r < |view| && view[r] != {} ==> AllSame(q, backMap[r], backMap[r])
  }

  lemma AppliedMore(p: Partition, q: Partition, backMap: map<ValueId, seq<ValueId>>, view: seq<set<ValueId>>,
                    todo: set<ValueId>, param: ValueId)
    requires Applied(p, backMap, view, todo) && Refines(p, q) && param in backMap
    requires param < |view| && view[param] != {} ==> AllSame(q, backMap[param], backMap[param])
    ensures Applied(q, backMap, view, todo - {param})
  {
    forall r: nat | r in backMap && r !in todo - {param} && r < |view| && view[r] != {}
      ensures AllSame(q, backMap[r], backMap[r])
    {
      if r != param {
        assert AllSame(p, backMap[r], backMap[r]);
      }
    }
  }

  /** The class of k has got another representative, after the summary of another key has been applied. */
  ghost predicate Displaced(q: Partition, backMap: map<ValueId, seq<ValueId>>, view: seq<set<ValueId>>, k: ValueId) {
    k < |q| && q[k] != k && exists l :: l in backMap && l != k && l < |view| && view[l] != {}
  }

  /** The same without an order of the components. */
  ghost predicate KeysApplied(q: Partition, backMap: map<ValueId, seq<ValueId>>, view: seq<set<ValueId>>, todo: set<ValueId>) {
    forall k: nat :: k in backMap && k !in todo && k < |view| && view[k] != {} ==>
      AllSame(q, backMap[k], backMap[k]) || Displaced(q, backMap, view, k)
  }

  ghost predicate SomeApplied(backMap: map<ValueId, seq<ValueId>>, view: seq<set<ValueId>>, todo: set<ValueId>) {
    exists l :: l in backMap && l !in todo && l < |view| && view[l] != {}
  }

  lemma NoKeysApplied(p: Partition, backMap: map<ValueId, seq<ValueId>>, view: seq<set<ValueId>>)
    ensures KeysApplied(p, backMap, view, backMap.Keys)
  {
  }

  /** Once a value is not the representative of its class it never is again. */
  lemma DisplacedForGood(p: Partition, q: Partition, k: ValueId)
    requires IsPartition(p) && IsPartition(q) && Refines(p, q) && |p| == |q| && k < |p| && p[k] != k
    ensures q[k] != k
  {
    assert Same(p, k, p[k]);
  }

  lemma KeyIsBound(p: Partition, info: CallSiteInfo, backMap: map<ValueId, seq<ValueId>>, l: ValueId)
    requires BackMapOk(p, info, backMap) && l in backMap
    ensures exists a: nat, f: nat :: Binds(info, a, f) && f < |p| && p[f] == l
  {
    var a := backMap[l][0];
    assert a in backMap[l];
    assert BoundIn(p, info, a, l);
  }

  lemma KeysAppliedMore(p: Partition, q: Partition, q': Partition, info: CallSiteInfo, backMap: map<ValueId, seq<ValueId>>,
                        view: seq<set<ValueId>>, todo: set<ValueId>, param: ValueId)
    requires IsPartition(p) && IsPartition(q) && IsPartition(q') && Refines(p, q) && Refines(q, q') && |p| == |q| == |q'|
    requires BackMapOk(p, info, backMap) && param in todo && todo <= backMap.Keys && param < |view|
    requires KeysApplied(q, backMap, view, todo) && (q == p || SomeApplied(backMap, view, todo))
    requires view[param] == {} ==> q' == q
    requires view[param] != {} && q[param] == param ==> AllSame(q', backMap[param], backMap[param])
    ensures KeysApplied(q', backMap, view, todo - {param})
    ensures q' == p || SomeApplied(backMap, view, todo - {param})
  {
    forall k: nat | k in backMap && k !in todo - {param} && k < |view| && view[k] != {}
      ensures AllSame(q', backMap[k], backMap[k]) || Displaced(q', backMap, view, k)
    {
      if k != param {
        AllSameAfter(q, q', backMap[k]);
        if Displaced(q, backMap, view, k) {
          DisplacedForGood(q, q', k);
        }
      } else if q[k] != k {
        DisplacedForGood(q, q', k);
        if a: nat :| a in backMap[k] {
          assert BoundIn(p, info, a, k);
          assert q != p;
        }
      }
    }
    if q' != p {
      assert view[param] != {} ==> SomeApplied(backMap, view, todo - {param});
    }
  }

  lemma SiteKeeps(p: Partition, q: Partition, info: CallSiteInfo, backMap: map<ValueId, seq<ValueId>>, view: seq<set<ValueId>>)
    requires BackMapOk(p, info, backMap) && KeysApplied(q, backMap, view, {})
    ensures Keeps(p, q, info, view)
  {
    forall a: nat, f: nat, b: nat, g: nat | Binds(info, a, f) && Binds(info, b, g) && HasView(p, view, f) && Same(p, f, g)
      ensures Same(q, a, b) || (p[f] < |q| && q[p[f]] != p[f] && OtherView(p, info, view, p[f]))
    {
      var k := p[f];
      if !AllSame(q, backMap[k], backMap[k]) {
        var l :| l in backMap && l != k && l < |view| && view[l] != {};
        KeyIsBound(p, info, backMap, l);
      }
    }
  }

  lemma BackMapKeys(ordered: bool, sccOfVal: seq<Option<SccId>>, idsForSum: seq<set<ValueId>>, p: Partition, info: CallSiteInfo,
                    backMap: map<ValueId, seq<ValueId>>, view: seq<set<ValueId>>, c: SccId)
    requires BackMapOk(p, info, backMap) && ViewIf(ordered, sccOfVal, idsForSum, p, view, c)
    ensures (forall r :: r in backMap ==> r < |view| && r < |p|) && Applied(p, backMap, view, backMap.Keys) && Refines(p, p)
  {
  }

  lemma BindingsIn(ordered: bool, sccOfVal: seq<Option<SccId>>, calls: seq<map<CallSite, CallSiteInfo>>,
                   idsForSum: seq<set<ValueId>>, s: SccId, cs: CallSite)
    requires CallsIf(ordered, sccOfVal, calls, idsForSum) && s < |calls| && cs in calls[s]
    ensures forall a: nat, f: nat :: Binds(calls[s][cs], a, f) ==> a < |sccOfVal| && f < |sccOfVal|
  {
  }

  lemma BackMapActuals(ordered: bool, sccOfVal: seq<Option<SccId>>, calls: seq<map<CallSite, CallSiteInfo>>,
                       idsForSum: seq<set<ValueId>>, s: SccId, cs: CallSite, p: Partition, backMap: map<ValueId, seq<ValueId>>)
    requires CallsIf(ordered, sccOfVal, calls, idsForSum) && s < |calls| && cs in calls[s] && BackMapOk(p, calls[s][cs], backMap)
    ensures forall r :: r in backMap ==> ActualsIf(ordered, sccOfVal, s, backMap[r])
  {
    forall r, a: nat | r in backMap && a in backMap[r]
      ensures a < |sccOfVal| && (ordered ==> InScc(sccOfVal, a, s))
    {
      assert BoundIn(p, calls[s][cs], a, r);
      var f: nat :| Binds(calls[s][cs], a, f);
      if ordered {
        assert BindingOk(sccOfVal, idsForSum, s, a, f);
      }
    }
  }

  /** A formal is among the summarised values of its class, so all actuals of the class have been joined. */
  lemma CallSiteSummarised(sccOfVal: seq<Option<SccId>>, calls: seq<map<CallSite, CallSiteInfo>>,
                           idsForSum: seq<set<ValueId>>, s: SccId, cs: CallSite, p: Partition, q: Partition,
                           view: seq<set<ValueId>>, backMap: map<ValueId, seq<ValueId>>)
    requires CallsIf(true, sccOfVal, calls, idsForSum) && s < |calls| && cs in calls[s]
    requires ViewIf(true, sccOfVal, idsForSum, p, view, s + 1) && StepIf(true, sccOfVal, s, p, q)
    requires BackMapOk(p, calls[s][cs], backMap)
    requires Applied(q, backMap, view, {})
    ensures Summarised(q, calls[s][cs])
  {
    var info := calls[s][cs];
    forall a: nat, f: nat, b: nat, g: nat | Binds(info, a, f) && Binds(info, b, g) && Same(q, f, g)
      ensures Same(q, a, b)
    {
      assert BindingOk(sccOfVal, idsForSum, s, a, f) && BindingOk(sccOfVal, idsForSum, s, b, g);
      assert p[f] == p[g];
      assert Viewed(p, view, f);
      assert AllSame(q, backMap[p[f]], backMap[p[f]]);
    }
  }

  function PushBack(m: map<ValueId, seq<ValueId>>, k: ValueId, v: ValueId): map<ValueId, seq<ValueId>> {
    m[k := (if k in m then m[k] else []) + [v]]
  }

  lemma AddBinding(p: Partition, info: CallSiteInfo, info': CallSiteInfo,
                   m: map<ValueId, seq<ValueId>>, m': map<ValueId, seq<ValueId>>, a: ValueId, f: ValueId)
    requires IsPartition(p) && BackMapOk(p, info, m) && f < |p| && m' == PushBack(m, p[f], a)
    requires forall b: nat, g: nat :: Binds(info', b, g) <==> Binds(info, b, g) || (b == a && g == f)
    ensures BackMapOk(p, info', m')
  {
    forall r, b: nat | r in m' && b in m'[r]
      ensures BoundIn(p, info', b, r)
    {
      if r in m && b in m[r] {
        assert BoundIn(p, info, b, r);
        var g: nat :| Binds(info, b, g) && g < |p| && p[g] == r;
        assert Binds(info', b, g);
      } else {
        assert b == a && r == p[f] && Binds(info', a, f);
      }
    }
  }
}
