/** Which edges of the pointer-assignment graph the calling-context-sensitive analysis honours. */
module ContextSoundness {
  import opened UnionFinds
  import opened Compressors
  import opened AliasResults
  import opened PointerAssignmentGraph
  import opened ContextAA
  import opened ContextChains

  /** An edge and the call site at which it was found. */
  datatype GraphEdge = GraphEdge(edge: Edge, callSite: Option<CallSite>) {
    predicate In(n: nat) {
      edge.from < n && edge.to < n
    }
  }

  ghost predicate OwnContexts(g: CallGraphView, k: nat, objects: Objects, funs: seq<Option<Function>>)
    requires g.Valid()
  {
    |funs| == |objects| && forall v: nat :: v < |objects| ==> objects[v].Keys == ContextSet(g, k, funs[v])
  }

  /** The call graph knows cs as a caller of the callee, and the other value lives around cs. */
  predicate CallsInto(g: CallGraphView, outer: Option<Function>, cs: Option<CallSite>, callee: Option<Function>)
    requires g.Valid()
  {
    callee.Some? ==> cs.Some? && cs.value in g.Callers(callee.value) && (outer.None? || outer.value == g.functionOf[cs.value])
  }

  /** Arguments and returned values cross a recorded call; everything else stays within one function. */
  predicate Recorded(g: CallGraphView, funs: seq<Option<Function>>, e: GraphEdge)
    requires g.Valid() && e.In(|funs|)
  {
    var from, to := funs[e.edge.from], funs[e.edge.to];
    match e.edge.kind
    case Call(_) => CallsInto(g, from, e.callSite, to)
    case Return => CallsInto(g, to, e.callSite, from)
    case _ => from.None? || to.None? || from == to
  }

  /** No stale context comes between the two sides of the edge. */
  ghost predicate Honoured(g: CallGraphView, k: nat, funs: seq<Option<Function>>, e: GraphEdge)
    requires g.Valid() && e.In(|funs|) && Recorded(g, funs, e)
  {
    var from, to := funs[e.edge.from], funs[e.edge.to];
    match e.edge.kind
    case Call(_) => to.None? || Unshadowed(g, k, from, e.callSite.value, to.value)
    case Return => from.None? || Unshadowed(g, k, to, e.callSite.value, from.value)
    case _ => true
  }

  /** Some context of the outer value finds an object of the inner one behind the call. */
  ghost predicate CrossesCall(k: nat, objects: Objects, outer: ValueId, inner: ValueId, cs: Option<CallSite>)
    requires outer < |objects| && inner < |objects|
  {
    exists ctx :: ctx in objects[outer] && ObjectFor(k, objects, inner, WithPrefix(ctx, cs)).Some?
  }

  lemma CrossesExactly(g: CallGraphView, k: nat, objects: Objects, funs: seq<Option<Function>>, outer: ValueId, inner: ValueId,
                       cs: Option<CallSite>)
    requires g.Valid() && k > 0 && OwnContexts(g, k, objects, funs) && outer < |objects| && inner < |objects|
    requires CallsInto(g, funs[outer], cs, funs[inner])
    ensures CrossesCall(k, objects, outer, inner, cs) <==>
            funs[inner].None? || Unshadowed(g, k, funs[outer], cs.value, funs[inner].value)
  {
    if funs[inner].None? {
      var ctx := SomeContext(g, k, funs[outer]);
      assert NoContext(k) in objects[inner];
      assert ctx in objects[outer] && ObjectFor(k, objects, inner, WithPrefix(ctx, cs)).Some?;
    } else {
      var f := funs[inner].value;
      ContextsMeetExactly(g, k, funs[outer], cs.value, f);
      if NoContext(k) in objects[inner] {
        FirstPlace(g, k, 0, f, NoContext(k), NoContext(k));
        assert false;
      }
      if CrossesCall(k, objects, outer, inner, cs) {
        var ctx :| ctx in objects[outer] && ObjectFor(k, objects, inner, WithPrefix(ctx, cs)).Some?;
        assert ctx in ContextSet(g, k, funs[outer]) && WithPrefix(ctx, Some(cs.value)) in ContextSet(g, k, Some(f));
      }
      if ContextsMeet(g, k, funs[outer], cs.value, f) {
        var ctx :| ctx in ContextSet(g, k, funs[outer]) && WithPrefix(ctx, Some(cs.value)) in ContextSet(g, k, Some(f));
        assert ctx in objects[outer] && ObjectFor(k, objects, inner, WithPrefix(ctx, cs)).Some?;
      }
    }
  }

  ghost predicate JoinsSomething(k: nat, objects: Objects, e: GraphEdge)
    requires e.In(|objects|)
  {
    exists a: nat, b: nat :: Demanded(k, objects, e.edge, e.callSite, a, b)
  }

  lemma CrossingJoins(k: nat, objects: Objects, e: GraphEdge)
    requires e.In(|objects|)
    ensures e.edge.kind.Call? ==>
              (JoinsSomething(k, objects, e) <==> CrossesCall(k, objects, e.edge.from, e.edge.to, e.callSite))
    ensures e.edge.kind.Return? ==>
              (JoinsSomething(k, objects, e) <==> CrossesCall(k, objects, e.edge.to, e.edge.from, e.callSite))
  {
    var outer, inner := if e.edge.kind.Return? then e.edge.to else e.edge.from, if e.edge.kind.Return? then e.edge.from else e.edge.to;
    if e.edge.kind.Call? || e.edge.kind.Return? {
      if ctx :| ctx in objects[outer] && ObjectFor(k, objects, inner, WithPrefix(ctx, e.callSite)).Some? {
        var a, b := objects[outer][ctx], ObjectFor(k, objects, inner, WithPrefix(ctx, e.callSite)).value;
        if e.edge.kind.Call? {
          assert JoinedFor(k, objects, e.edge, e.callSite, ctx, a, b) && Demanded(k, objects, e.edge, e.callSite, a, b);
        } else {
          assert JoinedFor(k, objects, e.edge, e.callSite, ctx, b, a) && Demanded(k, objects, e.edge, e.callSite, b, a);
        }
      }
      if JoinsSomething(k, objects, e) {
        var a: nat, b: nat :| Demanded(k, objects, e.edge, e.callSite, a, b);
        var ctx :| JoinedFor(k, objects, e.edge, e.callSite, ctx, a, b);
        assert ctx in objects[outer] && ObjectFor(k, objects, inner, WithPrefix(ctx, e.callSite)).Some?;
      }
    }
  }

  /** Within one function, or next to a value of no function, every edge joins something. */
  lemma LocalEdgeJoins(g: CallGraphView, k: nat, objects: Objects, funs: seq<Option<Function>>, e: GraphEdge)
    requires g.Valid() && OwnContexts(g, k, objects, funs) && e.In(|objects|) && Recorded(g, funs, e)
    requires !e.edge.kind.Call? && !e.edge.kind.Return?
    ensures JoinsSomething(k, objects, e)
  {
    var from, to := e.edge.from, e.edge.to;
    var ctx := SomeContext(g, k, funs[from]);
    var other := SomeContext(g, k, funs[to]);
    var a := objects[from][ctx];
    var b := if ctx == NoContext(k) then objects[to][other]
             else if ctx in objects[to] then objects[to][ctx] else objects[to][NoContext(k)];
    assert JoinedFor(k, objects, e.edge, e.callSite, ctx, a, b);
    assert Demanded(k, objects, e.edge, e.callSite, a, b);
  }

  /** A recorded edge joins objects of its two values exactly when no stale context comes between them. */
  lemma EdgeJoinsExactly(g: CallGraphView, k: nat, objects: Objects, funs: seq<Option<Function>>, e: GraphEdge)
    requires g.Valid() && k > 0 && OwnContexts(g, k, objects, funs) && e.In(|objects|) && Recorded(g, funs, e)
    ensures JoinsSomething(k, objects, e) <==> Honoured(g, k, funs, e)
  {
    CrossingJoins(k, objects, e);
    match e.edge.kind
    case Call(_) => CrossesExactly(g, k, objects, funs, e.edge.from, e.edge.to, e.callSite);
    case Return => CrossesExactly(g, k, objects, funs, e.edge.to, e.edge.from, e.callSite);
    case _ => LocalEdgeJoins(g, k, objects, funs, e);
  }

  /** With call strings of length one there is no place for anything stale. */
  lemma SingleCallSiteHonoursAll(g: CallGraphView, funs: seq<Option<Function>>, e: GraphEdge)
    requires g.Valid() && e.In(|funs|) && Recorded(g, funs, e)
    ensures Honoured(g, 1, funs, e)
  {
    var outer, inner := if e.edge.kind.Return? then funs[e.edge.to] else funs[e.edge.from],
                        if e.edge.kind.Return? then funs[e.edge.from] else funs[e.edge.to];
    if (e.edge.kind.Call? || e.edge.kind.Return?) && inner.Some? {
      var n: nat :| n < |g.Callers(inner.value)| && g.Callers(inner.value)[n] == e.callSite.value;
      assert UnshadowedAt(g, 1, outer, e.callSite.value, inner.value, n);
    }
  }

  /** Longer call strings honour a call as well if the calling function has callers up to that length. */
  lemma LongChainsHonour(g: CallGraphView, k: nat, funs: seq<Option<Function>>, e: GraphEdge)
    requires g.Valid() && k > 0 && e.In(|funs|) && Recorded(g, funs, e)
    requires var outer := funs[if e.edge.kind.Return? then e.edge.to else e.edge.from]; Called(g, outer, k - 1)
    ensures Honoured(g, k, funs, e)
  {
    var outer, inner := if e.edge.kind.Return? then funs[e.edge.to] else funs[e.edge.from],
                        if e.edge.kind.Return? then funs[e.edge.from] else funs[e.edge.to];
    if (e.edge.kind.Call? || e.edge.kind.Return?) && inner.Some? {
      var n: nat :| n < |g.Callers(inner.value)| && g.Callers(inner.value)[n] == e.callSite.value;
      forall l: nat | 0 < l < k
        ensures Called(g, outer, l)
      {
        ShorterChain(g, outer.value, k - 1, l);
      }
      assert UnshadowedAt(g, k, outer, e.callSite.value, inner.value, n);
    }
  }

  /** All joins that some edge asks for, and no others. */
  ghost predicate JoinsOf(k: nat, objects: Objects, edges: seq<GraphEdge>, joins: seq<Pair>)
    requires forall i: nat :: i < |edges| ==> edges[i].In(|objects|)
  {
    forall a: nat, b: nat :: (a, b) in joins <==> exists i: nat :: i < |edges| && DemandedBy(k, objects, edges[i], a, b)
  }

  ghost predicate DemandedBy(k: nat, objects: Objects, e: GraphEdge, a: ObjectId, b: ObjectId)
    requires e.In(|objects|)
  {
    Demanded(k, objects, e.edge, e.callSite, a, b)
  }

  lemma OneMoreEdge(k: nat, objects: Objects, edges: seq<GraphEdge>, joins: seq<Pair>, e: GraphEdge, more: seq<Pair>)
    requires forall i: nat :: i < |edges| ==> edges[i].In(|objects|)
    requires JoinsOf(k, objects, edges, joins) && e.In(|objects|)
    requires forall a: nat, b: nat :: (a, b) in more <==> Demanded(k, objects, e.edge, e.callSite, a, b)
    ensures JoinsOf(k, objects, edges + [e], joins + more)
  {
    var edges' := edges + [e];
    forall a: nat, b: nat
      ensures (a, b) in joins + more <==> exists i: nat :: i < |edges'| && DemandedBy(k, objects, edges'[i], a, b)
    {
      assert (a, b) in more <==> DemandedBy(k, objects, edges'[|edges|], a, b);
      if i: nat :| i < |edges| && DemandedBy(k, objects, edges[i], a, b) {
        assert edges'[i] == edges[i];
      }
    }
  }

  lemma NoEdges(k: nat, objects: Objects)
    ensures JoinsOf(k, objects, [], [])
  {
  }

  method AddEdges(aa: CallingContextSensUnionFindAA, edges: seq<GraphEdge>) returns (ghost joins: seq<Pair>)
    requires aa.Valid() && forall i: nat :: i < |edges| ==> edges[i].In(|aa.var2Obj|)
    modifies aa.aliasSets
    ensures aa.Valid() && PairsIn(|aa.obj2Var|, joins) && JoinsOf(aa.k, aa.var2Obj, edges, joins)
    ensures |old(aa.aliasSets.leaders)| == |aa.obj2Var| && aa.aliasSets.leaders == JoinAll(old(aa.aliasSets.leaders), joins)
  {
    hide JoinsOf, JoinAll, IsPartition, ContextSet, CallGraphView.Valid;
    joins := [];
    ghost var p := aa.aliasSets.leaders;
    NothingJoined(p);
    NoEdges(aa.k, aa.var2Obj);
    assert edges[..0] == [];
    for i := 0 to |edges|
      invariant aa.Valid() && PairsIn(|aa.obj2Var|, joins) && JoinsOf(aa.k, aa.var2Obj, edges[..i], joins)
      invariant aa.aliasSets.leaders == JoinAll(p, joins)
    {
      ghost var more := aa.OnAddEdge(edges[i].edge, edges[i].callSite);
      JoinAllConcat(p, joins, more);
      OneMoreEdge(aa.k, aa.var2Obj, edges[..i], joins, edges[i], more);
      assert edges[..i + 1] == edges[..i] + [edges[i]];
      joins := joins + more;
    }
    assert edges[..|edges|] == edges;
  }

  /** Reports all values, then all edges, to a new analysis. */
  method BuildGraph(g: CallGraphView, k: nat, funs: seq<Option<Function>>, edges: seq<GraphEdge>)
    returns (aa: CallingContextSensUnionFindAA, ghost joins: seq<Pair>)
    requires g.Valid() && k > 0 && forall i: nat :: i < |edges| ==> edges[i].In(|funs|)
    ensures aa.Valid() && aa.g == g && aa.k == k && aa.funs == funs && |aa.var2Obj| == |funs|
    ensures PairsIn(|aa.obj2Var|, joins) && JoinsOf(k, aa.var2Obj, edges, joins)
    ensures aa.aliasSets.leaders == JoinAll(Singletons(|aa.obj2Var|), joins)
  {
    aa := new CallingContextSensUnionFindAA(g, k);
    for v := 0 to |funs|
      invariant aa.Valid() && fresh(aa) && fresh(aa.aliasSets) && aa.g == g && aa.k == k
      invariant |aa.var2Obj| == v && aa.funs == funs[..v] && aa.aliasSets.leaders == Singletons(|aa.obj2Var|)
    {
      ghost var n := |aa.obj2Var|;
      aa.OnAddValue(v, funs[v]);
      assert funs[..v + 1] == funs[..v] + [funs[v]];
      SingletonsGrown(n, |aa.obj2Var|);
    }
    assert funs[..|funs|] == funs;
    joins := AddEdges(aa, edges);
  }

  lemma HonouredEdgeMeets(g: CallGraphView, k: nat, objects: Objects, funs: seq<Option<Function>>, edges: seq<GraphEdge>,
                          n: nat, joins: seq<Pair>, i: nat)
    requires g.Valid() && k > 0 && OwnContexts(g, k, objects, funs)
    requires forall m: nat :: m < |edges| ==> edges[m].In(|objects|)
    requires PairsIn(n, joins) && JoinsOf(k, objects, edges, joins)
    requires i < |edges| && Recorded(g, funs, edges[i]) && Honoured(g, k, funs, edges[i])
    ensures ClassesMeet(JoinAll(Singletons(n), joins), objects, edges[i].edge.from, edges[i].edge.to)
  {
    var e := edges[i];
    EdgeJoinsExactly(g, k, objects, funs, e);
    var a: nat, b: nat :| Demanded(k, objects, e.edge, e.callSite, a, b);
    assert DemandedBy(k, objects, edges[i], a, b);
    assert (a, b) in joins;
    JoinAllContains(Singletons(n), joins);
    DemandedObjects(k, objects, e, a, b);
  }

  /** Looking up a context finds c: the context itself, or the empty one if there is no such context. */
  ghost predicate Finds(g: CallGraphView, k: nat, f: Option<Function>, ctx: Context, c: Context)
    requires g.Valid()
  {
    c in ContextSet(g, k, f) && (c == ctx || (c == NoContext(k) && ctx !in ContextSet(g, k, f)))
  }

  /** The edge joins its source in context c with its target in context d. */
  ghost predicate JoinsContexts(g: CallGraphView, k: nat, funs: seq<Option<Function>>, e: GraphEdge, c: Context, d: Context)
    requires g.Valid() && e.In(|funs|)
  {
    var from, to := funs[e.edge.from], funs[e.edge.to];
    && c in ContextSet(g, k, from) && d in ContextSet(g, k, to)
    && match e.edge.kind
       case Call(_) => Finds(g, k, to, WithPrefix(c, e.callSite), d)
       case Return => Finds(g, k, from, WithPrefix(d, e.callSite), c)
       case _ => c == NoContext(k) || Finds(g, k, to, c, d)
  }

  type Labelling = (ValueId, Context) -> nat

  /** What is joined has the same label. */
  ghost predicate Respects(g: CallGraphView, k: nat, funs: seq<Option<Function>>, edges: seq<GraphEdge>, lab: Labelling)
    requires g.Valid() && forall i: nat :: i < |edges| ==> edges[i].In(|funs|)
  {
    forall i: nat, c: Context, d: Context :: i < |edges| && JoinsContexts(g, k, funs, edges[i], c, d) ==>
      lab(edges[i].edge.from, c) == lab(edges[i].edge.to, d)
  }

  /** Some contexts of the two values have the same label. */
  ghost predicate MeetIn(g: CallGraphView, k: nat, funs: seq<Option<Function>>, lab: Labelling, v: ValueId, w: ValueId)
    requires g.Valid() && v < |funs| && w < |funs|
  {
    exists c, d :: c in ContextSet(g, k, funs[v]) && d in ContextSet(g, k, funs[w]) && lab(v, c) == lab(w, d)
  }

  /** The edges force some contexts of the two values into one class. */
  ghost predicate Forced(g: CallGraphView, k: nat, funs: seq<Option<Function>>, edges: seq<GraphEdge>, v: ValueId, w: ValueId)
    requires g.Valid() && (forall i: nat :: i < |edges| ==> edges[i].In(|funs|)) && v < |funs| && w < |funs|
  {
    forall lab: Labelling :: Respects(g, k, funs, edges, lab) ==> MeetIn(g, k, funs, lab, v, w)
  }

  lemma FoundObject(g: CallGraphView, k: nat, objects: Objects, funs: seq<Option<Function>>, v: ValueId, ctx: Context, o: ObjectId)
    requires g.Valid() && OwnContexts(g, k, objects, funs) && v < |objects|
    ensures ObjectFor(k, objects, v, ctx) == Some(o) <==> exists c :: Finds(g, k, funs[v], ctx, c) && objects[v][c] == o
  {
    if ObjectFor(k, objects, v, ctx) == Some(o) {
      var c := if ctx in objects[v] then ctx else NoContext(k);
      assert Finds(g, k, funs[v], ctx, c) && objects[v][c] == o;
    }
  }

  /** The contexts under which the edge joins the two objects. */
  lemma ContextsOfJoin(g: CallGraphView, k: nat, objects: Objects, funs: seq<Option<Function>>, e: GraphEdge, a: ObjectId, b: ObjectId)
    returns (c: Context, d: Context)
    requires g.Valid() && OwnContexts(g, k, objects, funs) && e.In(|objects|) && Demanded(k, objects, e.edge, e.callSite, a, b)
    ensures JoinsContexts(g, k, funs, e, c, d) && c in objects[e.edge.from] && d in objects[e.edge.to]
    ensures objects[e.edge.from][c] == a && objects[e.edge.to][d] == b
  {
    hide ContextSet, WithPrefix, ObjectFor, NoContext, CallGraphView.Valid;
    var from, to := e.edge.from, e.edge.to;
    var ctx :| JoinedFor(k, objects, e.edge, e.callSite, ctx, a, b);
    c, d := ctx, ctx;
    match e.edge.kind
    case Call(_) =>
      FoundObject(g, k, objects, funs, to, WithPrefix(ctx, e.callSite), b);
      d :| Finds(g, k, funs[to], WithPrefix(ctx, e.callSite), d) && objects[to][d] == b;
    case Return =>
      FoundObject(g, k, objects, funs, from, WithPrefix(ctx, e.callSite), a);
      c :| Finds(g, k, funs[from], WithPrefix(ctx, e.callSite), c) && objects[from][c] == a;
    case _ =>
      if ctx == NoContext(k) {
        d :| d in objects[to] && objects[to][d] == b;
      } else {
        FoundObject(g, k, objects, funs, to, ctx, b);
        d :| Finds(g, k, funs[to], ctx, d) && objects[to][d] == b;
      }
  }

  lemma JoinOfContexts(g: CallGraphView, k: nat, objects: Objects, funs: seq<Option<Function>>, e: GraphEdge, c: Context, d: Context)
    requires g.Valid() && OwnContexts(g, k, objects, funs) && e.In(|objects|) && JoinsContexts(g, k, funs, e, c, d)
    ensures c in objects[e.edge.from] && d in objects[e.edge.to]
    ensures Demanded(k, objects, e.edge, e.callSite, objects[e.edge.from][c], objects[e.edge.to][d])
  {
    hide ContextSet, WithPrefix, ObjectFor, NoContext, CallGraphView.Valid;
    var from, to := e.edge.from, e.edge.to;
    var a, b := objects[from][c], objects[to][d];
    match e.edge.kind
    case Call(_) =>
      FoundObject(g, k, objects, funs, to, WithPrefix(c, e.callSite), b);
      assert JoinedFor(k, objects, e.edge, e.callSite, c, a, b);
    case Return =>
      FoundObject(g, k, objects, funs, from, WithPrefix(d, e.callSite), a);
      assert JoinedFor(k, objects, e.edge, e.callSite, d, a, b);
    case _ =>
      FoundObject(g, k, objects, funs, to, c, b);
      assert JoinedFor(k, objects, e.edge, e.callSite, c, a, b);
  }

  /** Every object is owned by one value in one context. */
  ghost predicate Owners(objects: Objects, owners: seq<(ValueId, Context)>) {
    forall v: nat, ctx {:trigger objects[v][ctx]} :: v < |objects| && ctx in objects[v] ==>
      objects[v][ctx] < |owners| && owners[objects[v][ctx]] == (v, ctx)
  }

  ghost function Labels(lab: Labelling, owners: seq<(ValueId, Context)>): seq<nat> {
    seq<nat>(|owners|, o requires 0 <= o < |owners| => lab(owners[o].0, owners[o].1))
  }

  lemma LabelsRespectJoins(g: CallGraphView, k: nat, objects: Objects, owners: seq<(ValueId, Context)>,
                           funs: seq<Option<Function>>, edges: seq<GraphEdge>, lab: Labelling, i: nat, a: ObjectId, b: ObjectId)
    requires g.Valid() && OwnContexts(g, k, objects, funs) && Owners(objects, owners)
    requires (forall m: nat :: m < |edges| ==> edges[m].In(|objects|)) && Respects(g, k, funs, edges, lab)
    requires i < |edges| && DemandedBy(k, objects, edges[i], a, b) && a < |owners| && b < |owners|
    ensures Labels(lab, owners)[a] == Labels(lab, owners)[b]
  {
    hide ContextSet, WithPrefix, ObjectFor, NoContext, CallGraphView.Valid, JoinsContexts;
    var c, d := ContextsOfJoin(g, k, objects, funs, edges[i], a, b);
    assert owners[a] == (edges[i].edge.from, c) && owners[b] == (edges[i].edge.to, d);
  }

  lemma MeetingIsForced(g: CallGraphView, k: nat, objects: Objects, owners: seq<(ValueId, Context)>, funs: seq<Option<Function>>,
                        edges: seq<GraphEdge>, joins: seq<Pair>, v: ValueId, w: ValueId)
    requires g.Valid() && OwnContexts(g, k, objects, funs) && Owners(objects, owners)
    requires (forall m: nat :: m < |edges| ==> edges[m].In(|objects|)) && v < |objects| && w < |objects|
    requires PairsIn(|owners|, joins) && JoinsOf(k, objects, edges, joins)
    requires ClassesMeet(JoinAll(Singletons(|owners|), joins), objects, v, w)
    ensures Forced(g, k, funs, edges, v, w)
  {
    hide ContextSet, Respects, DemandedBy, JoinAll, CallGraphView.Valid;
    var p := JoinAll(Singletons(|owners|), joins);
    var o: nat, q: nat :| o in objects[v].Values && q in objects[w].Values && Same(p, o, q);
    var c :| c in objects[v] && objects[v][c] == o;
    var d :| d in objects[w] && objects[w][d] == q;
    forall lab: Labelling | Respects(g, k, funs, edges, lab)
      ensures MeetIn(g, k, funs, lab, v, w)
    {
      var r := Labels(lab, owners);
      forall n: nat | n < |joins|
        ensures r[joins[n].0] == r[joins[n].1]
      {
        var (a, b) := joins[n];
        assert (a, b) in joins;
        var i: nat :| i < |edges| && DemandedBy(k, objects, edges[i], a, b);
        LabelsRespectJoins(g, k, objects, owners, funs, edges, lab, i, a, b);
      }
      JoinAllLeast(Singletons(|owners|), joins, r);
      assert r[o] == r[q];
      assert owners[o] == (v, c) && owners[q] == (w, d);
      assert lab(v, c) == lab(w, d);
    }
  }

  ghost function ClassLabels(p: Partition, objects: Objects): Labelling {
    (x: ValueId, c: Context) => if x < |objects| && c in objects[x] && objects[x][c] < |p| then p[objects[x][c]] else 0
  }

  lemma ClassLabelsRespect(g: CallGraphView, k: nat, objects: Objects, funs: seq<Option<Function>>, edges: seq<GraphEdge>,
                           joins: seq<Pair>, p: Partition)
    requires g.Valid() && OwnContexts(g, k, objects, funs) && (forall m: nat :: m < |edges| ==> edges[m].In(|objects|))
    requires JoinsOf(k, objects, edges, joins) && forall n: nat :: n < |joins| ==> Same(p, joins[n].0, joins[n].1)
    ensures Respects(g, k, funs, edges, ClassLabels(p, objects))
  {
    hide ContextSet, JoinsContexts, CallGraphView.Valid;
    forall i: nat, c: Context, d: Context | i < |edges| && JoinsContexts(g, k, funs, edges[i], c, d)
      ensures ClassLabels(p, objects)(edges[i].edge.from, c) == ClassLabels(p, objects)(edges[i].edge.to, d)
    {
      JoinOfContexts(g, k, objects, funs, edges[i], c, d);
      var a, b := objects[edges[i].edge.from][c], objects[edges[i].edge.to][d];
      assert DemandedBy(k, objects, edges[i], a, b);
      assert (a, b) in joins;
    }
  }

  lemma ForcedMeet(g: CallGraphView, k: nat, objects: Objects, owners: seq<(ValueId, Context)>, funs: seq<Option<Function>>,
                   edges: seq<GraphEdge>, joins: seq<Pair>, v: ValueId, w: ValueId)
    requires g.Valid() && OwnContexts(g, k, objects, funs) && Owners(objects, owners)
    requires (forall m: nat :: m < |edges| ==> edges[m].In(|objects|)) && v < |objects| && w < |objects|
    requires PairsIn(|owners|, joins) && JoinsOf(k, objects, edges, joins)
    requires Forced(g, k, funs, edges, v, w)
    ensures ClassesMeet(JoinAll(Singletons(|owners|), joins), objects, v, w)
  {
    hide ContextSet, Respects, JoinAll, CallGraphView.Valid;
    var p := JoinAll(Singletons(|owners|), joins);
    JoinAllContains(Singletons(|owners|), joins);
    ClassLabelsRespect(g, k, objects, funs, edges, joins, p);
    var lab := ClassLabels(p, objects);
    assert MeetIn(g, k, funs, lab, v, w);
    var c, d :| c in ContextSet(g, k, funs[v]) && d in ContextSet(g, k, funs[w]) && lab(v, c) == lab(w, d);
    assert Same(p, objects[v][c], objects[w][d]);
  }

  /** Contexts of the two ends are joined exactly if the edge is honoured. */
  lemma ContextsJoinExactly(g: CallGraphView, k: nat, funs: seq<Option<Function>>, e: GraphEdge)
    requires g.Valid() && k > 0 && e.In(|funs|) && Recorded(g, funs, e)
    ensures (exists c, d :: JoinsContexts(g, k, funs, e, c, d)) <==> Honoured(g, k, funs, e)
  {
    var objects: Objects := seq(|funs|, v requires 0 <= v < |funs| => map c | c in ContextSet(g, k, funs[v]) :: 0);
    assert OwnContexts(g, k, objects, funs);
    EdgeJoinsExactly(g, k, objects, funs, e);
    if JoinsSomething(k, objects, e) {
      var a: nat, b: nat :| Demanded(k, objects, e.edge, e.callSite, a, b);
      var _, _ := ContextsOfJoin(g, k, objects, funs, e, a, b);
    }
    if c, d :| JoinsContexts(g, k, funs, e, c, d) {
      JoinOfContexts(g, k, objects, funs, e, c, d);
    }
  }

  /** Between two values without any other edges, an alias is reported exactly if the edge is honoured. */
  lemma LoneEdgeAliases(g: CallGraphView, k: nat, funs: seq<Option<Function>>, e: GraphEdge)
    requires g.Valid() && k > 0 && e.In(|funs|) && Recorded(g, funs, e) && e.edge.from != e.edge.to
    ensures [e][0].In(|funs|) && (Forced(g, k, funs, [e], e.edge.from, e.edge.to) <==> Honoured(g, k, funs, e))
  {
    hide ContextSet, JoinsContexts, Honoured, Recorded;
    ContextsJoinExactly(g, k, funs, e);
    if Honoured(g, k, funs, e) {
      var c, d :| JoinsContexts(g, k, funs, e, c, d);
      JoinedContextsExist(g, k, funs, e, c, d);
      forall lab: Labelling | Respects(g, k, funs, [e], lab)
        ensures MeetIn(g, k, funs, lab, e.edge.from, e.edge.to)
      {
        assert JoinsContexts(g, k, funs, [e][0], c, d);
      }
    } else {
      var lab: Labelling := (v: ValueId, c: Context) => v;
      assert Respects(g, k, funs, [e], lab);
      assert !MeetIn(g, k, funs, lab, e.edge.from, e.edge.to);
    }
  }

  lemma JoinedContextsExist(g: CallGraphView, k: nat, funs: seq<Option<Function>>, e: GraphEdge, c: Context, d: Context)
    requires g.Valid() && e.In(|funs|) && JoinsContexts(g, k, funs, e, c, d)
    ensures c in ContextSet(g, k, funs[e.edge.from]) && d in ContextSet(g, k, funs[e.edge.to])
  {
  }

  /** Function 2 is called from function 1, which is called itself, and after that from function 0, which is not. */
  const STALE_CALLS := CallGraphView(map[1 := [10], 2 := [11, 12]], map[10 := 0, 11 := 1, 12 := 0])

  /** The argument of the second call. */
  const STALE_EDGE := GraphEdge(Edge(0, 1, EdgeKind.Call(0)), Some(12))

  /** With two call sites per context, the argument and the parameter of the second call do not alias. */
  lemma StaleContextHidesCall()
    ensures STALE_CALLS.Valid() && STALE_EDGE.In(2) && Recorded(STALE_CALLS, [Some(0), Some(2)], STALE_EDGE)
    ensures !Honoured(STALE_CALLS, 2, [Some(0), Some(2)], STALE_EDGE)
    ensures [STALE_EDGE][0].In(2) && !Forced(STALE_CALLS, 2, [Some(0), Some(2)], [STALE_EDGE], 0, 1)
  {
    var g := STALE_CALLS;
    assert g.Callers(1) == [10] && g.Callers(2) == [11, 12] && g.Callers(0) == [];
    assert g.Callers(2)[1] == 12;
    assert IsCallChain(g, 1, [10]);
    assert CallerFunction(g, 2, 0) == 1 && HasCallChain(g, CallerFunction(g, 2, 0), 1);
    assert !Called(g, Some(0), 1);
    assert !Honoured(g, 2, [Some(0), Some(2)], STALE_EDGE);
    LoneEdgeAliases(g, 2, [Some(0), Some(2)], STALE_EDGE);
  }

  lemma DemandedObjects(k: nat, objects: Objects, e: GraphEdge, a: ObjectId, b: ObjectId)
    requires e.In(|objects|) && Demanded(k, objects, e.edge, e.callSite, a, b)
    ensures a in objects[e.edge.from].Values && b in objects[e.edge.to].Values
  {
    var ctx :| JoinedFor(k, objects, e.edge, e.callSite, ctx, a, b);
  }

  /** The analysis from its first value to its result: aliases are exactly those that the edges force between
      contexts, among them the ends of every honoured edge; the two queries agree on all included values. */
  method AnalyzeProgram(g: CallGraphView, k: nat, funs: seq<Option<Function>>, edges: seq<GraphEdge>, included: set<ValueId>)
    returns (r: RawResult)
    requires g.Valid() && k > 0 && forall i: nat :: i < |edges| ==> edges[i].In(|funs|)
    ensures r.Size() == |funs| && IsConsumed(r, included)
    ensures forall i: nat :: i < |edges| && Recorded(g, funs, edges[i]) && (k == 1 || Honoured(g, k, funs, edges[i])) ==>
              r.MayAlias(edges[i].edge.from, edges[i].edge.to)
    ensures forall v: nat, w: nat :: v < |funs| && w < |funs| && v != w ==> (r.MayAlias(v, w) <==> Forced(g, k, funs, edges, v, w))
    ensures forall v: nat, w: nat :: v < r.Size() && w in included ==> (r.MayAlias(v, w) <==> w in r.GetRawAliasSet(v))
  {
    hide Honoured, Forced, IsConsumed, Recorded, CallGraphView.Valid;
    var aa;
    ghost var joins;
    aa, joins := BuildGraph(g, k, funs, edges);
    r := aa.ConsumeAAResults(|funs|, included);
    AgreementCondition(r, included);
    forall i: nat | i < |edges| && Recorded(g, funs, edges[i]) && (k == 1 || Honoured(g, k, funs, edges[i]))
      ensures r.MayAlias(edges[i].edge.from, edges[i].edge.to)
    {
      if k == 1 {
        SingleCallSiteHonoursAll(g, funs, edges[i]);
      }
      HonouredEdgeMeets(g, k, aa.var2Obj, funs, edges, |aa.obj2Var|, joins, i);
    }
    forall v: nat, w: nat | v < |funs| && w < |funs| && v != w
      ensures r.MayAlias(v, w) <==> Forced(g, k, funs, edges, v, w)
    {
      if r.MayAlias(v, w) {
        MeetingIsForced(g, k, aa.var2Obj, aa.obj2Var, funs, edges, joins, v, w);
      }
      if Forced(g, k, funs, edges, v, w) {
        ForcedMeet(g, k, aa.var2Obj, aa.obj2Var, funs, edges, joins, v, w);
      }
    }
  }
}
