/** The calling-context-sensitive union-find alias analysis: every value owns one object per calling context of
    its function, where a context is a call string of fixed length. */
module ContextAA {
  import opened UnionFinds
  import opened Compressors
  import opened AliasResults
  import opened PointerAssignmentGraph

  type Function = nat

  /** The most recent call sites, latest first; empty places mean that no call is known. */
  type Context = seq<Option<CallSite>>

  function NoContext(k: nat): (r: Context)
    ensures |r| == k && forall j: nat :: j < k ==> r[j] == None
  {
    seq(k, _ => None)
  }

  /** The call sites that may call a function, and the functions that contain call sites. */
  datatype CallGraphView = CallGraphView(callersOf: map<Function, seq<CallSite>>, functionOf: map<CallSite, Function>) {
    function Callers(f: Function): seq<CallSite> {
      if f in callersOf then callersOf[f] else []
    }

    ghost predicate Valid() {
      forall f, cs :: cs in Callers(f) ==> cs in functionOf
    }
  }

  /** The contexts that the enumeration visits for function f when the first i places of cur are filled in, and
      the final state of the shared buffer cur: places behind a function without callers keep what an earlier
      branch has left there. */
  function VisitFrom(g: CallGraphView, k: nat, i: nat, f: Function, cur: Context): (r: (seq<Context>, Context))
    requires g.Valid() && |cur| == k && i <= k
    ensures |r.1| == k
    decreases k - i, 1, 0
  {
    if i < k && g.Callers(f) != [] then VisitCallers(g, k, i, f, 0, cur) else ([cur], cur)
  }

  function VisitCallers(g: CallGraphView, k: nat, i: nat, f: Function, n: nat, cur: Context): (r: (seq<Context>, Context))
    requires g.Valid() && |cur| == k && i < k && n <= |g.Callers(f)|
    ensures |r.1| == k
    decreases k - i, 0, |g.Callers(f)| - n
  {
    if n == |g.Callers(f)| then ([], cur)
    else
      var cs := g.Callers(f)[n];
      assert cs in g.Callers(f);
      var (first, afterFirst) := VisitFrom(g, k, i + 1, g.functionOf[cs], cur[i := Some(cs)]);
      var (rest, afterRest) := VisitCallers(g, k, i, f, n + 1, afterFirst);
      (first + rest, afterRest)
  }

  /** All contexts visited for a function. */
  function ContextsOf(g: CallGraphView, k: nat, f: Function): seq<Context>
    requires g.Valid()
  {
    VisitFrom(g, k, 0, f, NoContext(k)).0
  }

  lemma {:induction false} VisitedLength(g: CallGraphView, k: nat, i: nat, f: Function, cur: Context)
    requires g.Valid() && |cur| == k && i <= k
    ensures VisitFrom(g, k, i, f, cur).0 != []
    ensures forall c :: c in VisitFrom(g, k, i, f, cur).0 ==> |c| == k
    decreases k - i, 1, 0
  {
    if i < k && g.Callers(f) != [] {
      VisitedCallersLength(g, k, i, f, 0, cur);
    }
  }

  lemma {:induction false} VisitedCallersLength(g: CallGraphView, k: nat, i: nat, f: Function, n: nat, cur: Context)
    requires g.Valid() && |cur| == k && i < k && n <= |g.Callers(f)|
    ensures n < |g.Callers(f)| ==> VisitCallers(g, k, i, f, n, cur).0 != []
    ensures forall c :: c in VisitCallers(g, k, i, f, n, cur).0 ==> |c| == k
    decreases k - i, 0, |g.Callers(f)| - n
  {
    if n < |g.Callers(f)| {
      var cs := g.Callers(f)[n];
      assert cs in g.Callers(f);
      VisitedLength(g, k, i + 1, g.functionOf[cs], cur[i := Some(cs)]);
      VisitedCallersLength(g, k, i, f, n + 1, VisitFrom(g, k, i + 1, g.functionOf[cs], cur[i := Some(cs)]).1);
    }
  }

  /** For call strings of length one the contexts are the callers, or none at all. */
  lemma SingleCallContexts(g: CallGraphView, f: Function)
    requires g.Valid()
    ensures g.Callers(f) == [] ==> ContextsOf(g, 1, f) == [NoContext(1)]
    ensures g.Callers(f) != [] ==> forall c :: c in ContextsOf(g, 1, f) <==> exists cs :: cs in g.Callers(f) && c == [Some(cs)]
  {
    SingleCallers(g, f, 0, NoContext(1));
    assert g.Callers(f)[0..] == g.Callers(f);
  }

  lemma {:induction false} SingleCallers(g: CallGraphView, f: Function, n: nat, cur: Context)
    requires g.Valid() && |cur| == 1 && n <= |g.Callers(f)|
    ensures forall c :: c in VisitCallers(g, 1, 0, f, n, cur).0 <==> exists cs :: cs in g.Callers(f)[n..] && c == [Some(cs)]
    decreases |g.Callers(f)| - n
  {
    if n < |g.Callers(f)| {
      var cs := g.Callers(f)[n];
      assert cs in g.Callers(f) && g.Callers(f)[n..] == [cs] + g.Callers(f)[n + 1..];
      assert cur[0 := Some(cs)] == [Some(cs)];
      SingleCallers(g, f, n + 1, [Some(cs)]);
    }
  }

  /** The call string after one more call. */
  function WithPrefix(ctx: Context, cs: Option<CallSite>): (r: Context)
    ensures |r| == |ctx| && (r != [] ==> r[0] == cs) && forall j: nat :: 0 < j < |r| ==> r[j] == ctx[j - 1]
  {
    if ctx == [] then [] else [cs] + ctx[..|ctx| - 1]
  }

  /** Shifts a copy of the call string by one place and puts the call site in front. */
  method ShiftIn(ctx: Context, cs: Option<CallSite>) returns (r: Context)
    ensures |r| == |ctx| && (r != [] ==> r[0] == cs) && forall j: nat :: 0 < j < |r| ==> r[j] == ctx[j - 1]
    ensures r == WithPrefix(ctx, cs)
  {
    r := ctx;
    var tmp := cs;
    for i := 0 to |ctx|
      invariant |r| == |ctx| && r[i..] == ctx[i..]
      invariant tmp == if i == 0 then cs else ctx[i - 1]
      invariant forall j: nat :: j < i ==> r[j] == WithPrefix(ctx, cs)[j]
    {
      var nextTmp := r[i];
      assert r[i] == r[i..][0] && r[i..][1..] == r[i + 1..] && ctx[i..][1..] == ctx[i + 1..];
      r := r[i := tmp];
      tmp := nextTmp;
    }
  }

  class ContextVisitor {
    const g: CallGraphView
    const k: nat
    const currCtx: array<Option<CallSite>>
    var visited: seq<Context>

    ghost predicate Valid()
      reads this
    {
      g.Valid() && currCtx.Length == k
    }

    constructor (g: CallGraphView, k: nat)
      requires g.Valid()
      ensures Valid() && this.g == g && this.k == k && visited == [] && fresh(currCtx) && currCtx[..] == NoContext(k)
    {
      this.g, this.k := g, k;
      currCtx := new Option<CallSite>[k](_ => None);
      visited := [];
    }

    /** Fills in the call string from place i on, in the one shared buffer. */
    method Visit(i: nat, f: Function)
      requires Valid() && i <= k
      modifies `visited, currCtx
      ensures visited == old(visited) + VisitFrom(g, k, i, f, old(currCtx[..])).0
      ensures currCtx[..] == VisitFrom(g, k, i, f, old(currCtx[..])).1
      decreases k - i
    {
      if i < k {
        var callers := g.Callers(f);
        ghost var whole := VisitCallers(g, k, i, f, 0, currCtx[..]);
        for n := 0 to |callers|
          invariant visited + VisitCallers(g, k, i, f, n, currCtx[..]).0 == old(visited) + whole.0
          invariant VisitCallers(g, k, i, f, n, currCtx[..]).1 == whole.1
          invariant n == 0 ==> currCtx[..] == old(currCtx[..]) && visited == old(visited)
        {
          var cs := callers[n];
          assert cs in callers;
          ghost var before, cur := visited, currCtx[..];
          currCtx[i] := Some(cs);
          assert currCtx[..] == cur[i := Some(cs)];
          Visit(i + 1, g.functionOf[cs]);
          ghost var rest := VisitCallers(g, k, i, f, n + 1, currCtx[..]).0;
          assert visited + rest == before + (VisitFrom(g, k, i + 1, g.functionOf[cs], cur[i := Some(cs)]).0 + rest);
        }
        if callers != [] {
          return;
        }
      }
      visited := visited + [currCtx[..]];
    }
  }

  /** The objects of each value by context. */
  type Objects = seq<map<Context, ObjectId>>

  function ObjectFor(k: nat, objects: Objects, v: ValueId, ctx: Context): Option<ObjectId>
    requires v < |objects|
  {
    if ctx in objects[v] then Some(objects[v][ctx])
    else if NoContext(k) in objects[v] then Some(objects[v][NoContext(k)])
    else None
  }

  /** The objects that an edge joins for one context of its leading value: the source of the edge, or the
      receiver of a returned value. */
  ghost predicate JoinedFor(k: nat, objects: Objects, e: Edge, cs: Option<CallSite>, ctx: Context, a: ObjectId, b: ObjectId)
    requires e.from < |objects| && e.to < |objects|
  {
    match e.kind
    case Call(_) =>
      ctx in objects[e.from] && objects[e.from][ctx] == a && ObjectFor(k, objects, e.to, WithPrefix(ctx, cs)) == Some(b)
    case Return =>
      ctx in objects[e.to] && objects[e.to][ctx] == b && ObjectFor(k, objects, e.from, WithPrefix(ctx, cs)) == Some(a)
    case _ =>
      && ctx in objects[e.from] && objects[e.from][ctx] == a
      && (if ctx == NoContext(k) then b in objects[e.to].Values else ObjectFor(k, objects, e.to, ctx) == Some(b))
  }

  ghost predicate Demanded(k: nat, objects: Objects, e: Edge, cs: Option<CallSite>, a: ObjectId, b: ObjectId)
    requires e.from < |objects| && e.to < |objects|
  {
    exists ctx :: JoinedFor(k, objects, e, cs, ctx, a, b)
  }

  ghost function ContextSet(g: CallGraphView, k: nat, f: Option<Function>): set<Context>
    requires g.Valid()
  {
    if f.None? then {NoContext(k)} else set c | c in ContextsOf(g, k, f.value)
  }

  /** A function without callers has the empty context. */
  lemma FallbackContext(g: CallGraphView, k: nat, f: Function)
    requires g.Valid() && g.Callers(f) == []
    ensures NoContext(k) in ContextSet(g, k, Some(f))
  {
  }

  lemma SomeContext(g: CallGraphView, k: nat, f: Option<Function>) returns (ctx: Context)
    requires g.Valid()
    ensures ctx in ContextSet(g, k, f)
  {
    if f.None? {
      ctx := NoContext(k);
    } else {
      VisitedLength(g, k, 0, f.value, NoContext(k));
      ctx := ContextsOf(g, k, f.value)[0];
    }
  }

  /** Some object of v and some object of w are in one class. */
  ghost predicate ClassesMeet(p: Partition, objects: Objects, v: ValueId, w: ValueId)
    requires v < |objects| && w < |objects|
  {
    exists o, q :: o in objects[v].Values && q in objects[w].Values && Same(p, o, q)
  }

  class CallingContextSensUnionFindAA {
    const g: CallGraphView
    const k: nat
    const aliasSets: UnionFind
    var var2Obj: Objects
    var obj2Var: seq<(ValueId, Context)>
    /** The functions of the values. */
    ghost var funs: seq<Option<Function>>

    /** Objects and owners correspond one to one; values own one object per context of their function. */
    ghost predicate Valid()
      reads this, aliasSets
    {
      && g.Valid() && k > 0
      && Ready() && |funs| == |var2Obj|
      && (forall v: nat :: v < |var2Obj| ==> var2Obj[v].Keys == ContextSet(g, k, funs[v]))
    }

    ghost predicate Ready()
      reads this, aliasSets
    {
      IsPartition(aliasSets.leaders) && |aliasSets.leaders| == |obj2Var| && ObjectsOk()
    }

    ghost predicate ObjectsOk()
      reads this
    {
      forall v: nat, ctx {:trigger var2Obj[v][ctx]} :: v < |var2Obj| && ctx in var2Obj[v] ==>
        var2Obj[v][ctx] < |obj2Var| && obj2Var[var2Obj[v][ctx]] == (v, ctx)
    }

    constructor (g: CallGraphView, k: nat)
      requires g.Valid() && k > 0
      ensures Valid() && fresh(aliasSets) && this.g == g && this.k == k
      ensures var2Obj == [] && obj2Var == [] && funs == []
    {
      this.g, this.k := g, k;
      aliasSets := new UnionFind(0);
      var2Obj, obj2Var, funs := [], [], [];
    }

    method OnAddValue(v: ValueId, fun: Option<Function>)
      requires Valid() && v == |var2Obj|
      modifies this, aliasSets
      ensures Valid() && funs == old(funs) + [fun] && |var2Obj| == v + 1 && var2Obj[..v] == old(var2Obj)
      ensures aliasSets.leaders == Grown(old(aliasSets.leaders), |obj2Var|)
    {
      hide IsPartition, Grown, ContextSet, CallGraphView.Valid;
      var2Obj, funs := var2Obj + [map[]], funs + [fun];
      AddObjects(v, fun);
      assert forall w: nat :: w < v ==> var2Obj[w] == var2Obj[..v][w];
    }

    method AddObjects(v: ValueId, fun: Option<Function>)
      requires g.Valid() && k > 0 && Ready() && v == |var2Obj| - 1 && var2Obj[v] == map[]
      modifies `var2Obj, `obj2Var, aliasSets
      ensures Ready() && |var2Obj| == v + 1 && var2Obj[..v] == old(var2Obj[..v])
      ensures var2Obj[v].Keys == ContextSet(g, k, fun)
      ensures aliasSets.leaders == Grown(old(aliasSets.leaders), |obj2Var|)
    {
      hide IsPartition, Grown, ObjectsOk, ContextsOf, NoContext, CallGraphView.Valid;
      ghost var p := aliasSets.leaders;
      GrownGrown(p, |p|, |p|);
      if fun.Some? {
        AddContextsOf(v, fun.value);
        if g.Callers(fun.value) != [] {
          return;
        }
        FallbackContext(g, k, fun.value);
      }
      ghost var m := |obj2Var|;
      GetObject(v, NoContext(k));
      GrownGrown(p, m, |obj2Var|);
    }

    /** Makes an object of the new value for every context of its function. */
    method AddContextsOf(v: ValueId, f: Function)
      requires g.Valid() && Ready() && v == |var2Obj| - 1 && var2Obj[v] == map[]
      modifies `var2Obj, `obj2Var, aliasSets
      ensures Ready() && |obj2Var| >= old(|obj2Var|)
      ensures |var2Obj| == v + 1 && var2Obj[..v] == old(var2Obj[..v])
      ensures var2Obj[v].Keys == ContextSet(g, k, Some(f))
      ensures aliasSets.leaders == Grown(old(aliasSets.leaders), |obj2Var|)
    {
      hide IsPartition, Grown, ObjectsOk, CallGraphView.Valid;
      var visitor := new ContextVisitor(g, k);
      visitor.Visit(0, f);
      AddObjectsFor(v, visitor.visited);
    }

    method AddObjectsFor(v: ValueId, visited: seq<Context>)
      requires Ready() && v < |var2Obj|
      modifies `var2Obj, `obj2Var, aliasSets
      ensures Ready() && |obj2Var| >= old(|obj2Var|)
      ensures |var2Obj| == old(|var2Obj|) && var2Obj[..v] == old(var2Obj[..v])
      ensures var2Obj[v].Keys == old(var2Obj[v].Keys) + set c | c in visited
      ensures aliasSets.leaders == Grown(old(aliasSets.leaders), |obj2Var|)
    {
      hide IsPartition, Grown, ObjectsOk;
      ghost var p := aliasSets.leaders;
      GrownGrown(p, |p|, |p|);
      for i := 0 to |visited|
        invariant Ready() && |obj2Var| >= |p| && |var2Obj| == old(|var2Obj|) && var2Obj[..v] == old(var2Obj[..v])
        invariant var2Obj[v].Keys == old(var2Obj[v].Keys) + set c | c in visited[..i]
        invariant aliasSets.leaders == Grown(p, |obj2Var|)
      {
        ghost var m := |obj2Var|;
        GetObject(v, visited[i]);
        GrownGrown(p, m, |obj2Var|);
        assert visited[..i + 1] == visited[..i] + [visited[i]];
      }
      assert visited[..|visited|] == visited;
    }

    /** The object of a value in a context; made on first demand. */
    method GetObject(v: ValueId, ctx: Context)
      requires v < |var2Obj| && Ready()
      modifies `var2Obj, `obj2Var, aliasSets
      ensures Ready() && |obj2Var| >= old(|obj2Var|)
      ensures aliasSets.leaders == Grown(old(aliasSets.leaders), |obj2Var|)
      ensures |var2Obj| == old(|var2Obj|) && forall w: nat :: w < |var2Obj| && w != v ==> var2Obj[w] == old(var2Obj[w])
      ensures var2Obj[v].Keys == old(var2Obj[v].Keys) + {ctx}
    {
      if ctx !in var2Obj[v] {
        var obj := |obj2Var|;
        var2Obj := var2Obj[v := var2Obj[v][ctx := obj]];
        obj2Var := obj2Var + [(v, ctx)];
        aliasSets.Grow(obj + 1);
      }
    }

    method GetObjectOrNull(v: ValueId, ctx: Context) returns (o: Option<ObjectId>)
      requires v < |var2Obj|
      ensures o == ObjectFor(k, var2Obj, v, ctx)
      ensures ObjectsOk() && o.Some? ==> o.value < |obj2Var|
    {
      if ctx in var2Obj[v] {
        o := Some(var2Obj[v][ctx]);
      } else if NoContext(k) in var2Obj[v] {
        o := Some(var2Obj[v][NoContext(k)]);
      } else {
        o := None;
      }
    }

    /** Joins exactly the demanded objects; the order in which contexts are looked at is left open. */
    method OnAddEdge(e: Edge, cs: Option<CallSite>) returns (ghost joins: seq<Pair>)
      requires Valid() && e.from < |var2Obj| && e.to < |var2Obj|
      modifies aliasSets
      ensures Valid() && PairsIn(|obj2Var|, joins)
      ensures aliasSets.leaders == JoinAll(old(aliasSets.leaders), joins)
      ensures forall a: nat, b: nat :: (a, b) in joins <==> Demanded(k, var2Obj, e, cs, a, b)
      ensures forall a: nat, b: nat :: (a, b) in joins <==>
                exists c, d :: c in var2Obj[e.from] && d in var2Obj[e.to] && var2Obj[e.from][c] == a && var2Obj[e.to][d] == b &&
                  (e.kind.Call? ==> d == WithPrefix(c, cs) || (d == NoContext(k) && WithPrefix(c, cs) !in var2Obj[e.to])) &&
                  (e.kind.Return? ==> c == WithPrefix(d, cs) || (c == NoContext(k) && WithPrefix(d, cs) !in var2Obj[e.from])) &&
                  (!e.kind.Call? && !e.kind.Return? ==> c == NoContext(k) || d == c || (d == NoContext(k) && c !in var2Obj[e.to]))
    {
      hide Demanded, IsPartition, JoinAll, ContextSet, WithPrefix, NoContext, ObjectsOk, CallGraphView.Valid;
      joins := JoinContexts(e, cs);
      forall a: nat, b: nat
        ensures Demanded(k, var2Obj, e, cs, a, b) <==>
                exists c, d :: c in var2Obj[e.from] && d in var2Obj[e.to] && var2Obj[e.from][c] == a && var2Obj[e.to][d] == b &&
                  (e.kind.Call? ==> d == WithPrefix(c, cs) || (d == NoContext(k) && WithPrefix(c, cs) !in var2Obj[e.to])) &&
                  (e.kind.Return? ==> c == WithPrefix(d, cs) || (c == NoContext(k) && WithPrefix(d, cs) !in var2Obj[e.from])) &&
                  (!e.kind.Call? && !e.kind.Return? ==> c == NoContext(k) || d == c || (d == NoContext(k) && c !in var2Obj[e.to]))
      {
        DemandedByContexts(k, var2Obj, e, cs, a, b);
      }
    }

    /** Looks at every context of the leading value. */
    method JoinContexts(e: Edge, cs: Option<CallSite>) returns (ghost joins: seq<Pair>)
      requires Valid() && e.from < |var2Obj| && e.to < |var2Obj|
      modifies aliasSets
      ensures Valid() && PairsIn(|obj2Var|, joins)
      ensures aliasSets.leaders == JoinAll(old(aliasSets.leaders), joins)
      ensures forall a: nat, b: nat :: (a, b) in joins <==> Demanded(k, var2Obj, e, cs, a, b)
    {
      hide IsPartition, JoinAll, JoinedFor, ContextSet;
      joins := [];
      ghost var p := aliasSets.leaders;
      NothingJoined(p);
      var todo := if e.kind.Return? then var2Obj[e.to].Keys else var2Obj[e.from].Keys;
      ghost var all := todo;
      while todo != {}
        invariant todo <= all && Ready() && PairsIn(|obj2Var|, joins)
        invariant aliasSets.leaders == JoinAll(p, joins)
        invariant forall a: nat, b: nat :: (a, b) in joins <==> DemandedIn(k, var2Obj, e, cs, all - todo, a, b)
        decreases todo
      {
        var ctx :| ctx in todo;
        ghost var before, q, done := joins, aliasSets.leaders, all - todo;
        todo := todo - {ctx};
        ghost var more := OnContext(e, cs, ctx);
        JoinAllConcat(p, before, more);
        joins := before + more;
        assert all - todo == done + {ctx};
        forall a: nat, b: nat
          ensures (a, b) in joins <==> DemandedIn(k, var2Obj, e, cs, done + {ctx}, a, b)
        {
          OneMoreContext(k, var2Obj, e, cs, done, ctx, a, b);
        }
      }
      assert all - todo == all;
      forall a: nat, b: nat
        ensures DemandedIn(k, var2Obj, e, cs, all, a, b) <==> Demanded(k, var2Obj, e, cs, a, b)
      {
        AllContexts(k, var2Obj, e, cs, all, a, b);
      }
    }

    /** The joins for one context. */
    method OnContext(e: Edge, cs: Option<CallSite>, ctx: Context) returns (ghost joins: seq<Pair>)
      requires Ready() && e.from < |var2Obj| && e.to < |var2Obj|
      requires if e.kind.Return? then ctx in var2Obj[e.to] else ctx in var2Obj[e.from]
      modifies aliasSets
      ensures Ready() && PairsIn(|obj2Var|, joins)
      ensures aliasSets.leaders == JoinAll(old(aliasSets.leaders), joins)
      ensures forall a: nat, b: nat :: (a, b) in joins <==> JoinedFor(k, var2Obj, e, cs, ctx, a, b)
    {
      hide WithPrefix, IsPartition, JoinAll, ObjectFor, JoinedFor, NoContext;
      ghost var objects := var2Obj;
      match e.kind
      case Call(_) =>
        var paramCtx := ShiftIn(ctx, cs);
        var dst := GetObjectOrNull(e.to, paramCtx);
        joins := JoinIfPresent(Some(var2Obj[e.from][ctx]), dst);
        JoinedForOne(k, objects, e, cs, ctx, Some(objects[e.from][ctx]), dst, joins);
      case Return =>
        var retCtx := ShiftIn(ctx, cs);
        var src := GetObjectOrNull(e.from, retCtx);
        joins := JoinIfPresent(src, Some(var2Obj[e.to][ctx]));
        JoinedForOne(k, objects, e, cs, ctx, src, Some(objects[e.to][ctx]), joins);
      case _ =>
        if ctx == NoContext(k) {
          joins := JoinWithEvery(var2Obj[e.from][ctx], e.to);
          JoinedForEvery(k, objects, e, cs, joins);
        } else {
          var dst := GetObjectOrNull(e.to, ctx);
          joins := JoinIfPresent(Some(var2Obj[e.from][ctx]), dst);
          JoinedForOne(k, objects, e, cs, ctx, Some(objects[e.from][ctx]), dst, joins);
        }
    }

    method JoinIfPresent(src: Option<ObjectId>, dst: Option<ObjectId>) returns (ghost joins: seq<Pair>)
      requires Ready() && (src.Some? ==> src.value < |obj2Var|) && (dst.Some? ==> dst.value < |obj2Var|)
      modifies aliasSets
      ensures Ready() && PairsIn(|obj2Var|, joins)
      ensures joins == if src.Some? && dst.Some? then [(src.value, dst.value)] else []
      ensures aliasSets.leaders == JoinAll(old(aliasSets.leaders), joins)
    {
      if src.Some? && dst.Some? {
        joins := JoinOne(src.value, dst.value);
      } else {
        joins := [];
      }
    }

    method JoinOne(a: ObjectId, b: ObjectId) returns (ghost joins: seq<Pair>)
      requires IsPartition(aliasSets.leaders) && a < |aliasSets.leaders| && b < |aliasSets.leaders|
      modifies aliasSets
      ensures IsPartition(aliasSets.leaders)
      ensures joins == [(a, b)] && PairsIn(old(|aliasSets.leaders|), joins)
      ensures aliasSets.leaders == JoinAll(old(aliasSets.leaders), joins)
    {
      joins := [(a, b)];
      JoinAllFew(aliasSets.leaders, (a, b), (a, b));
      var _ := aliasSets.Join(a, b);
    }

    method JoinWithEvery(a: ObjectId, v: ValueId) returns (ghost joins: seq<Pair>)
      requires Ready() && a < |obj2Var| && v < |var2Obj|
      modifies aliasSets
      ensures Ready() && PairsIn(|obj2Var|, joins)
      ensures aliasSets.leaders == JoinAll(old(aliasSets.leaders), joins)
      ensures forall x: nat, b: nat :: (x, b) in joins <==> x == a && b in var2Obj[v].Values
    {
      hide IsPartition, JoinAll, Joined;
      joins := [];
      ghost var p := aliasSets.leaders;
      NothingJoined(p);
      var todo := var2Obj[v].Keys;
      ghost var done: set<ObjectId> := {};
      while todo != {}
        invariant todo <= var2Obj[v].Keys && Ready() && PairsIn(|obj2Var|, joins)
        invariant aliasSets.leaders == JoinAll(p, joins)
        invariant forall x: nat, b: nat :: (x, b) in joins <==> x == a && b in done
        invariant done <= var2Obj[v].Values && forall c :: c in var2Obj[v] && c !in todo ==> var2Obj[v][c] in done
        decreases todo
      {
        var ctx :| ctx in todo;
        todo := todo - {ctx};
        var obj := var2Obj[v][ctx];
        ghost var before := joins;
        ghost var one := JoinOne(a, obj);
        JoinAllConcat(p, before, one);
        joins := before + one;
        done := done + {obj};
      }
    }

    /** The objects of a value, in some order. */
    method ObjectsOf(v: ValueId) returns (objs: seq<ObjectId>)
      requires v < |var2Obj|
      ensures forall o: ObjectId :: o in objs <==> o in var2Obj[v].Values
    {
      objs := [];
      var todo := var2Obj[v].Keys;
      while todo != {}
        invariant todo <= var2Obj[v].Keys && forall o: ObjectId :: o in objs ==> o in var2Obj[v].Values
        invariant forall ctx :: ctx in var2Obj[v] && ctx !in todo ==> var2Obj[v][ctx] in objs
        decreases todo
      {
        var ctx :| ctx in todo;
        todo := todo - {ctx};
        objs := objs + [var2Obj[v][ctx]];
      }
    }

    method ConsumeAAResults(numVars: nat, included: set<ValueId>) returns (r: RawResult)
      requires Valid() && |var2Obj| <= numVars
      ensures r.CallingContextSens? && |r.var2Reps| == numVars && IsConsumed(r, included)
      ensures forall v: nat :: v < |var2Obj| ==> !Unrepresented(r, v)
      ensures forall v: nat, w: nat :: v < |var2Obj| && w < |var2Obj| && v != w ==>
                (r.MayAlias(v, w) <==> ClassesMeet(aliasSets.leaders, var2Obj, v, w))
    {
      var var2Objs: seq<seq<ObjectId>> := [];
      for v := 0 to |var2Obj|
        invariant |var2Objs| == v
        invariant forall w: nat, o: ObjectId :: w < v ==> (o in var2Objs[w] <==> o in var2Obj[w].Values)
      {
        var objs := ObjectsOf(v);
        var2Objs := var2Objs + [objs];
      }
      forall v: nat | v < |var2Obj|
        ensures var2Objs[v] != []
      {
        var ctx := SomeContext(g, k, funs[v]);
        assert var2Obj[v][ctx] in var2Objs[v];
      }
      r := ConsumeCallingContextSens(aliasSets, numVars, var2Objs, included);
    }
  }

  /** Except between a value without context and all objects of the other, a context asks for one join at most. */
  lemma JoinedForOne(k: nat, objects: Objects, e: Edge, cs: Option<CallSite>, ctx: Context,
                     src: Option<ObjectId>, dst: Option<ObjectId>, joins: seq<Pair>)
    requires e.from < |objects| && e.to < |objects|
    requires if e.kind.Return? then ctx in objects[e.to] else ctx in objects[e.from]
    requires src == if e.kind.Return? then ObjectFor(k, objects, e.from, WithPrefix(ctx, cs)) else Some(objects[e.from][ctx])
    requires dst == if e.kind.Return? then Some(objects[e.to][ctx])
                    else ObjectFor(k, objects, e.to, if e.kind.Call? then WithPrefix(ctx, cs) else ctx)
    requires e.kind.Call? || e.kind.Return? || ctx != NoContext(k)
    requires joins == if src.Some? && dst.Some? then [(src.value, dst.value)] else []
    ensures forall a: nat, b: nat :: (a, b) in joins <==> JoinedFor(k, objects, e, cs, ctx, a, b)
  {
    forall a: nat, b: nat
      ensures JoinedFor(k, objects, e, cs, ctx, a, b) <==> src == Some(a) && dst == Some(b)
    {
    }
  }

  lemma JoinedForEvery(k: nat, objects: Objects, e: Edge, cs: Option<CallSite>, joins: seq<Pair>)
    requires e.from < |objects| && e.to < |objects| && !e.kind.Call? && !e.kind.Return? && NoContext(k) in objects[e.from]
    requires forall a: nat, b: nat :: (a, b) in joins <==> a == objects[e.from][NoContext(k)] && b in objects[e.to].Values
    ensures forall a: nat, b: nat :: (a, b) in joins <==> JoinedFor(k, objects, e, cs, NoContext(k), a, b)
  {
  }

  /** What an edge joins, by the contexts of its two ends: behind a call or a return the inner context is the outer one
      with the call site in front, elsewhere they are equal; a context that is missing is replaced by the empty one,
      and a value in the empty context is joined with all objects of the target. */
  lemma DemandedByContexts(k: nat, objects: Objects, e: Edge, cs: Option<CallSite>, a: ObjectId, b: ObjectId)
    requires e.from < |objects| && e.to < |objects|
    ensures Demanded(k, objects, e, cs, a, b) <==>
            exists c, d :: c in objects[e.from] && d in objects[e.to] && objects[e.from][c] == a && objects[e.to][d] == b &&
              (e.kind.Call? ==> d == WithPrefix(c, cs) || (d == NoContext(k) && WithPrefix(c, cs) !in objects[e.to])) &&
              (e.kind.Return? ==> c == WithPrefix(d, cs) || (c == NoContext(k) && WithPrefix(d, cs) !in objects[e.from])) &&
              (!e.kind.Call? && !e.kind.Return? ==> c == NoContext(k) || d == c || (d == NoContext(k) && c !in objects[e.to]))
  {
    hide WithPrefix, NoContext;
    if ctx :| JoinedFor(k, objects, e, cs, ctx, a, b) {
      JoinedAsContexts(k, objects, e, cs, ctx, a, b);
    }
    if c, d :| c in objects[e.from] && d in objects[e.to] && objects[e.from][c] == a && objects[e.to][d] == b
               && (e.kind.Call? ==> d == WithPrefix(c, cs) || (d == NoContext(k) && WithPrefix(c, cs) !in objects[e.to]))
               && (e.kind.Return? ==> c == WithPrefix(d, cs) || (c == NoContext(k) && WithPrefix(d, cs) !in objects[e.from]))
               && (!e.kind.Call? && !e.kind.Return? ==> c == NoContext(k) || d == c || (d == NoContext(k) && c !in objects[e.to])) {
      assert JoinedFor(k, objects, e, cs, if e.kind.Return? then d else c, a, b);
    }
  }

  lemma JoinedAsContexts(k: nat, objects: Objects, e: Edge, cs: Option<CallSite>, ctx: Context, a: ObjectId, b: ObjectId)
    requires e.from < |objects| && e.to < |objects| && JoinedFor(k, objects, e, cs, ctx, a, b)
    ensures exists c, d :: c in objects[e.from] && d in objects[e.to] && objects[e.from][c] == a && objects[e.to][d] == b &&
              (e.kind.Call? ==> d == WithPrefix(c, cs) || (d == NoContext(k) && WithPrefix(c, cs) !in objects[e.to])) &&
              (e.kind.Return? ==> c == WithPrefix(d, cs) || (c == NoContext(k) && WithPrefix(d, cs) !in objects[e.from])) &&
              (!e.kind.Call? && !e.kind.Return? ==> c == NoContext(k) || d == c || (d == NoContext(k) && c !in objects[e.to]))
  {
    hide WithPrefix, NoContext;
    match e.kind
    case Call(_) =>
      var d := if WithPrefix(ctx, cs) in objects[e.to] then WithPrefix(ctx, cs) else NoContext(k);
      assert ctx in objects[e.from] && d in objects[e.to] && objects[e.to][d] == b;
    case Return =>
      var c := if WithPrefix(ctx, cs) in objects[e.from] then WithPrefix(ctx, cs) else NoContext(k);
      assert ctx in objects[e.to] && c in objects[e.from] && objects[e.from][c] == a;
    case _ =>
      if ctx == NoContext(k) {
        var d :| d in objects[e.to] && objects[e.to][d] == b;
        assert ctx in objects[e.from];
      } else {
        var d := if ctx in objects[e.to] then ctx else NoContext(k);
        assert ctx in objects[e.from] && d in objects[e.to] && objects[e.to][d] == b;
      }
  }

  /** The joins demanded for the contexts in the given set. */
  ghost predicate DemandedIn(k: nat, objects: Objects, e: Edge, cs: Option<CallSite>, ctxs: set<Context>, a: ObjectId, b: ObjectId)
    requires e.from < |objects| && e.to < |objects|
  {
    exists ctx :: ctx in ctxs && JoinedFor(k, objects, e, cs, ctx, a, b)
  }

  lemma OneMoreContext(k: nat, objects: Objects, e: Edge, cs: Option<CallSite>, ctxs: set<Context>, ctx: Context, a: ObjectId, b: ObjectId)
    requires e.from < |objects| && e.to < |objects|
    ensures DemandedIn(k, objects, e, cs, ctxs + {ctx}, a, b) <==>
            DemandedIn(k, objects, e, cs, ctxs, a, b) || JoinedFor(k, objects, e, cs, ctx, a, b)
  {
    if c :| c in ctxs && JoinedFor(k, objects, e, cs, c, a, b) {
      assert c in ctxs + {ctx};
    }
    if JoinedFor(k, objects, e, cs, ctx, a, b) {
      assert ctx in ctxs + {ctx};
    }
  }

  lemma AllContexts(k: nat, objects: Objects, e: Edge, cs: Option<CallSite>, all: set<Context>, a: ObjectId, b: ObjectId)
    requires e.from < |objects| && e.to < |objects|
    requires all == if e.kind.Return? then objects[e.to].Keys else objects[e.from].Keys
    ensures DemandedIn(k, objects, e, cs, all, a, b) <==> Demanded(k, objects, e, cs, a, b)
  {
    if ctx :| JoinedFor(k, objects, e, cs, ctx, a, b) {
      assert ctx in all;
    }
  }
}
