/** The indirection-sensitive union-find alias analysis: every value owns one object per indirection depth,
    and every edge of the pointer-assignment graph joins objects of its two values. */
module IndirectionAA {
  import opened UnionFinds
  import opened AliasResults
  import opened Compressors
  import opened PointerAssignmentGraph

  type Depth = nat

  /** The deepest distinguished level stands for all deeper ones. */
  function NextDepth(k: nat, d: Depth): Depth
    requires d < k
  {
    if d == k - 1 then d else d + 1
  }

  function PrevDepth(d: Depth): Option<Depth> {
    if d == 0 then None else Some(d - 1)
  }

  /** What an edge says about dereferences of its ends, to any depth: n of its source and m of its target lead to the
      same memory. */
  ghost predicate Level(kind: EdgeKind, n: nat, m: nat) {
    match kind
    case Load => n == m + 1
    case Store => m == n + 1
    case StorePOI => m == n + 1
    case Copy => m == n && n > 0
    case _ => m == n
  }

  /** The depth that stands for n dereferences. */
  function DepthFor(k: nat, n: nat): (d: Depth)
    requires k > 0
    ensures d < k
  {
    if n < k then n else k - 1
  }

  /** The depths that an edge puts together: those that stand for its levels. A single depth does not tell a copied
      cell from the pointer to it, and nothing is put together by a Copy. */
  ghost predicate Meets(k: nat, kind: EdgeKind, i: Depth, j: Depth) {
    k > 0 && (kind.Copy? ==> i > 0) && exists n: nat, m: nat :: Level(kind, n, m) && i == DepthFor(k, n) && j == DepthFor(k, m)
  }

  lemma LevelMeets(k: nat, kind: EdgeKind, n: nat, m: nat)
    requires k > 0 && Level(kind, n, m) && (kind.Copy? ==> k > 1)
    ensures Meets(k, kind, DepthFor(k, n), DepthFor(k, m))
  {
  }

  /** The depths of the target that an edge joins with depth d of its source. */
  function TargetDepths(k: nat, kind: EdgeKind, d: Depth): (r: seq<Depth>)
    requires d < k
    ensures forall i: nat :: i < |r| ==> r[i] < k
  {
    match kind
    case Copy => if d == 0 then [] else [d]
    case Load => (if PrevDepth(d).Some? then [PrevDepth(d).value] else []) + (if d == k - 1 then [d] else [])
    case Store => [NextDepth(k, d)]
    case StorePOI => [NextDepth(k, d)]
    case _ => [d]
  }

  /** The switch over the kinds of edges finds exactly the depths that stand for their levels. */
  lemma TargetDepthsExactly(k: nat, kind: EdgeKind, i: Depth, j: Depth)
    requires i < k
    ensures j in TargetDepths(k, kind, i) <==> Meets(k, kind, i, j)
  {
    if j in TargetDepths(k, kind, i) {
      var n: nat := if kind.Load? && i == j then i + 1 else i;
      var m: nat := if kind.Load? then n - 1 else if kind.Store? || kind.StorePOI? then n + 1 else n;
      assert Level(kind, n, m) && i == DepthFor(k, n) && j == DepthFor(k, m);
    }
  }

  /** The objects of the values, and the value and depth of every object. */
  datatype Table = Table(var2Obj: seq<seq<ObjectId>>, obj2Var: seq<(ValueId, Depth)>) {
    function Size(): nat {
      |var2Obj|
    }

    ghost predicate Valid(k: nat) {
      && k > 0
      && (forall v: nat :: v < |var2Obj| ==> |var2Obj[v]| == k)
      && (forall v: nat, d: nat :: v < |var2Obj| && d < k ==>
            var2Obj[v][d] < |obj2Var| && obj2Var[var2Obj[v][d]] == (v, d))
      && (forall o: nat {:trigger OwnedBy(k, o)} :: o < |obj2Var| ==> OwnedBy(k, o))
    }

    ghost predicate OwnedBy(k: nat, o: ObjectId)
      requires o < |obj2Var| && forall v: nat :: v < |var2Obj| ==> |var2Obj[v]| == k
    {
      obj2Var[o].0 < |var2Obj| && obj2Var[o].1 < k && var2Obj[obj2Var[o].0][obj2Var[o].1] == o
    }

    predicate Knows(e: Edge) {
      e.from < |var2Obj| && e.to < |var2Obj|
    }
  }

  function PairsAt(t: Table, k: nat, e: Edge, d: Depth): (r: seq<Pair>)
    requires t.Valid(k) && t.Knows(e) && d < k
    ensures PairsIn(|t.obj2Var|, r)
  {
    var ds := TargetDepths(k, e.kind, d);
    seq(|ds|, i requires 0 <= i < |ds| => (t.var2Obj[e.from][d], t.var2Obj[e.to][ds[i]]))
  }

  /** The joins for the depths below d. */
  function PairsBelow(t: Table, k: nat, e: Edge, d: nat): (r: seq<Pair>)
    requires t.Valid(k) && t.Knows(e) && d <= k
    ensures PairsIn(|t.obj2Var|, r)
  {
    if d == 0 then [] else PairsBelow(t, k, e, d - 1) + PairsAt(t, k, e, d - 1)
  }

  ghost predicate KnowsAll(t: Table, edges: seq<Edge>) {
    forall i: nat :: i < |edges| ==> t.Knows(edges[i])
  }

  ghost function PairsOf(t: Table, k: nat, edges: seq<Edge>): (r: seq<Pair>)
    requires t.Valid(k) && KnowsAll(t, edges)
    ensures PairsIn(|t.obj2Var|, r)
  {
    if edges == [] then []
    else PairsOf(t, k, edges[..|edges| - 1]) + PairsBelow(t, k, edges[|edges| - 1], k)
  }

  /** The partition of the objects after all edges have been added. */
  ghost function Analyze(t: Table, k: nat, edges: seq<Edge>): (p: Partition)
    requires t.Valid(k) && KnowsAll(t, edges)
    ensures |p| == |t.obj2Var|
  {
    JoinAll(Singletons(|t.obj2Var|), PairsOf(t, k, edges))
  }

  /** Depth i of u and depth j of v are in one class. */
  ghost predicate Alike(t: Table, k: nat, p: Partition, u: ValueId, i: Depth, v: ValueId, j: Depth)
    requires t.Valid(k) && |p| == |t.obj2Var|
    requires u < t.Size() && v < t.Size() && i < k && j < k
  {
    p[t.var2Obj[u][i]] == p[t.var2Obj[v][j]]
  }

  /** The object one dereference below the given one. */
  ghost function Deref(t: Table, k: nat, o: ObjectId): ObjectId
    requires t.Valid(k) && o < |t.obj2Var|
    ensures Deref(t, k, o) < |t.obj2Var|
  {
    assert t.OwnedBy(k, o);
    t.var2Obj[t.obj2Var[o].0][NextDepth(k, t.obj2Var[o].1)]
  }

  /** All joins that an edge asks for are in place. */
  ghost predicate Held(t: Table, k: nat, p: Partition, e: Edge)
    requires t.Valid(k) && |p| == |t.obj2Var| && t.Knows(e)
  {
    forall i: nat, j: nat :: i < k && j < k && Meets(k, e.kind, i, j) ==> Alike(t, k, p, e.from, i, e.to, j)
  }

  lemma {:induction false} PairsBelowMember(t: Table, k: nat, e: Edge, m: nat, d: Depth, i: nat) returns (n: nat)
    requires t.Valid(k) && t.Knows(e) && d < m <= k && i < |TargetDepths(k, e.kind, d)|
    ensures n < |PairsBelow(t, k, e, m)|
    ensures PairsBelow(t, k, e, m)[n] == (t.var2Obj[e.from][d], t.var2Obj[e.to][TargetDepths(k, e.kind, d)[i]])
  {
    if d == m - 1 {
      n := |PairsBelow(t, k, e, m - 1)| + i;
    } else {
      n := PairsBelowMember(t, k, e, m - 1, d, i);
    }
  }

  /** Every join of an edge stems from one of the depths. */
  lemma {:induction false} PairsBelowOrigin(t: Table, k: nat, e: Edge, m: nat, n: nat) returns (d: Depth, i: nat)
    requires t.Valid(k) && t.Knows(e) && m <= k && n < |PairsBelow(t, k, e, m)|
    ensures d < m && i < |TargetDepths(k, e.kind, d)|
    ensures PairsBelow(t, k, e, m)[n] == (t.var2Obj[e.from][d], t.var2Obj[e.to][TargetDepths(k, e.kind, d)[i]])
  {
    var before := PairsBelow(t, k, e, m - 1);
    if n < |before| {
      d, i := PairsBelowOrigin(t, k, e, m - 1, n);
    } else {
      d, i := m - 1, n - |before|;
    }
  }

  lemma {:induction false} PairsOfMember(t: Table, k: nat, edges: seq<Edge>, m: nat, n: nat) returns (r: nat)
    requires t.Valid(k) && KnowsAll(t, edges) && m < |edges| && n < |PairsBelow(t, k, edges[m], k)|
    ensures r < |PairsOf(t, k, edges)| && PairsOf(t, k, edges)[r] == PairsBelow(t, k, edges[m], k)[n]
  {
    hide Table.Valid, PairsBelow;
    var init := edges[..|edges| - 1];
    if m == |edges| - 1 {
      r := |PairsOf(t, k, init)| + n;
    } else {
      assert init[m] == edges[m];
      r := PairsOfMember(t, k, init, m, n);
    }
  }

  lemma {:induction false} PairsOfOrigin(t: Table, k: nat, edges: seq<Edge>, r: nat) returns (m: nat, n: nat)
    requires t.Valid(k) && KnowsAll(t, edges) && r < |PairsOf(t, k, edges)|
    ensures m < |edges| && n < |PairsBelow(t, k, edges[m], k)|
    ensures PairsOf(t, k, edges)[r] == PairsBelow(t, k, edges[m], k)[n]
  {
    hide Table.Valid, PairsBelow;
    var init := edges[..|edges| - 1];
    if r < |PairsOf(t, k, init)| {
      m, n := PairsOfOrigin(t, k, init, r);
      assert init[m] == edges[m];
    } else {
      m, n := |edges| - 1, r - |PairsOf(t, k, init)|;
    }
  }

  /** Every edge that was added is honoured, whatever came before or after it. */
  lemma EdgesHeld(t: Table, k: nat, edges: seq<Edge>, m: nat)
    requires t.Valid(k) && KnowsAll(t, edges) && m < |edges|
    ensures Held(t, k, Analyze(t, k, edges), edges[m])
  {
    var p, e := Analyze(t, k, edges), edges[m];
    JoinAllContains(Singletons(|t.obj2Var|), PairsOf(t, k, edges));
    forall d: nat, j: nat | d < k && j < k && Meets(k, e.kind, d, j)
      ensures Alike(t, k, p, e.from, d, e.to, j)
    {
      TargetDepthsExactly(k, e.kind, d, j);
      var i: nat :| i < |TargetDepths(k, e.kind, d)| && TargetDepths(k, e.kind, d)[i] == j;
      var n := PairsBelowMember(t, k, e, k, d, i);
      var r := PairsOfMember(t, k, edges, m, n);
      assert Same(p, PairsOf(t, k, edges)[r].0, PairsOf(t, k, edges)[r].1);
    }
  }

  /** The joins of one edge are closed under dereferencing both sides; for a load out of the deepest level
      this is what the additional join is for. */
  lemma TargetDepthsClosed(k: nat, kind: EdgeKind, d: Depth, i: nat) returns (j: nat)
    requires d < k && i < |TargetDepths(k, kind, d)|
    ensures j < |TargetDepths(k, kind, NextDepth(k, d))|
    ensures TargetDepths(k, kind, NextDepth(k, d))[j] == NextDepth(k, TargetDepths(k, kind, d)[i])
  {
    match kind
    case Load =>
      var n := NextDepth(k, d);
      j := if d == k - 1 && i == 0 && d > 0 then 1 else if d == k - 1 then |TargetDepths(k, kind, n)| - 1 else 0;
    case _ => j := 0;
  }

  lemma DerefOf(t: Table, k: nat, v: ValueId, d: Depth)
    requires t.Valid(k) && v < t.Size() && d < k
    ensures t.var2Obj[v][d] < |t.obj2Var|
    ensures Deref(t, k, t.var2Obj[v][d]) == t.var2Obj[v][NextDepth(k, d)]
  {
  }

  lemma JoinsRespectDeref(t: Table, k: nat, edges: seq<Edge>, r: nat)
    requires t.Valid(k) && KnowsAll(t, edges) && r < |PairsOf(t, k, edges)|
    ensures var (a, b) := PairsOf(t, k, edges)[r];
            Analyze(t, k, edges)[Deref(t, k, a)] == Analyze(t, k, edges)[Deref(t, k, b)]
  {
    var p := Analyze(t, k, edges);
    var m, n := PairsOfOrigin(t, k, edges, r);
    var e := edges[m];
    var d, c := PairsBelowOrigin(t, k, e, k, n);
    var c' := TargetDepthsClosed(k, e.kind, d, c);
    var j := TargetDepths(k, e.kind, NextDepth(k, d))[c'];
    TargetDepthsExactly(k, e.kind, NextDepth(k, d), j);
    EdgesHeld(t, k, edges, m);
    assert Alike(t, k, p, e.from, NextDepth(k, d), e.to, j);
    DerefOf(t, k, e.from, d);
    DerefOf(t, k, e.to, TargetDepths(k, e.kind, d)[c]);
  }

  /** Objects of one class stay in one class when both are dereferenced. */
  lemma DereferenceCongruence(t: Table, k: nat, edges: seq<Edge>, u: ValueId, i: Depth, v: ValueId, j: Depth)
    requires t.Valid(k) && KnowsAll(t, edges)
    requires u < t.Size() && v < t.Size() && i < k && j < k
    requires Alike(t, k, Analyze(t, k, edges), u, i, v, j)
    ensures Alike(t, k, Analyze(t, k, edges), u, NextDepth(k, i), v, NextDepth(k, j))
  {
    var p, pairs := Analyze(t, k, edges), PairsOf(t, k, edges);
    var q := seq(|p|, o requires 0 <= o < |p| => p[Deref(t, k, o)]);
    forall r: nat | r < |pairs|
      ensures q[pairs[r].0] == q[pairs[r].1]
    {
      JoinsRespectDeref(t, k, edges, r);
    }
    JoinAllLeast(Singletons(|t.obj2Var|), pairs, q);
    DerefOf(t, k, u, i);
    DerefOf(t, k, v, j);
    assert Same(p, t.var2Obj[u][i], t.var2Obj[v][j]);
  }

  type Labelling = (ValueId, Depth) -> nat

  /** Depths that an edge puts together have the same label. */
  ghost predicate Respects(k: nat, edges: seq<Edge>, lab: Labelling) {
    forall m: nat, i: nat, j: nat :: m < |edges| && i < k && j < k && Meets(k, edges[m].kind, i, j) ==>
      lab(edges[m].from, i) == lab(edges[m].to, j)
  }

  /** Every labelling that the edges allow gives the two depths the same label. */
  ghost predicate Forced(k: nat, edges: seq<Edge>, u: ValueId, i: Depth, v: ValueId, j: Depth) {
    forall lab: Labelling :: Respects(k, edges, lab) ==> lab(u, i) == lab(v, j)
  }

  ghost function Labels(t: Table, lab: Labelling): seq<nat> {
    seq<nat>(|t.obj2Var|, o requires 0 <= o < |t.obj2Var| => lab(t.obj2Var[o].0, t.obj2Var[o].1))
  }

  lemma LabelsOf(t: Table, k: nat, lab: Labelling, v: ValueId, d: Depth)
    requires t.Valid(k) && v < t.Size() && d < k
    ensures d < |t.var2Obj[v]| && t.var2Obj[v][d] < |t.obj2Var| && Labels(t, lab)[t.var2Obj[v][d]] == lab(v, d)
  {
  }

  lemma AlikeIsForced(t: Table, k: nat, edges: seq<Edge>, u: ValueId, i: Depth, v: ValueId, j: Depth)
    requires t.Valid(k) && KnowsAll(t, edges)
    requires u < t.Size() && v < t.Size() && i < k && j < k && Alike(t, k, Analyze(t, k, edges), u, i, v, j)
    ensures Forced(k, edges, u, i, v, j)
  {
    hide Table.Valid, KnowsAll, TargetDepths, Labels;
    var p, pairs := Analyze(t, k, edges), PairsOf(t, k, edges);
    forall lab: Labelling | Respects(k, edges, lab)
      ensures lab(u, i) == lab(v, j)
    {
      var q := Labels(t, lab);
      LabelsCount(t, lab);
      forall r: nat | r < |pairs|
        ensures q[pairs[r].0] == q[pairs[r].1]
      {
        JoinsRespectLabels(t, k, edges, lab, r);
      }
      JoinAllLeast(Singletons(|t.obj2Var|), pairs, q);
      LabelsOf(t, k, lab, u, i);
      LabelsOf(t, k, lab, v, j);
      assert Same(p, t.var2Obj[u][i], t.var2Obj[v][j]);
    }
  }

  lemma LabelsCount(t: Table, lab: Labelling)
    ensures |Labels(t, lab)| == |t.obj2Var|
  {
  }

  lemma JoinsRespectLabels(t: Table, k: nat, edges: seq<Edge>, lab: Labelling, r: nat)
    requires t.Valid(k) && KnowsAll(t, edges) && r < |PairsOf(t, k, edges)| && Respects(k, edges, lab)
    ensures var (a, b) := PairsOf(t, k, edges)[r]; a < |Labels(t, lab)| && b < |Labels(t, lab)| && Labels(t, lab)[a] == Labels(t, lab)[b]
  {
    hide Table.Valid, TargetDepths, Labels, Meets;
    var m, n := PairsOfOrigin(t, k, edges, r);
    var d, c := PairsBelowOrigin(t, k, edges[m], k, n);
    TargetDepthsExactly(k, edges[m].kind, d, TargetDepths(k, edges[m].kind, d)[c]);
    LabelsCount(t, lab);
    LabelsOf(t, k, lab, edges[m].from, d);
    LabelsOf(t, k, lab, edges[m].to, TargetDepths(k, edges[m].kind, d)[c]);
  }

  ghost function ClassLabels(t: Table, p: Partition): Labelling {
    (v: ValueId, d: Depth) =>
      if v < |t.var2Obj| && d < |t.var2Obj[v]| && t.var2Obj[v][d] < |p| then p[t.var2Obj[v][d]] else 0
  }

  lemma ForcedIsAlike(t: Table, k: nat, edges: seq<Edge>, u: ValueId, i: Depth, v: ValueId, j: Depth)
    requires t.Valid(k) && KnowsAll(t, edges)
    requires u < t.Size() && v < t.Size() && i < k && j < k && Forced(k, edges, u, i, v, j)
    ensures Alike(t, k, Analyze(t, k, edges), u, i, v, j)
  {
    var p := Analyze(t, k, edges);
    var lab := ClassLabels(t, p);
    forall m: nat, d: nat, j: nat | m < |edges| && d < k && j < k && Meets(k, edges[m].kind, d, j)
      ensures lab(edges[m].from, d) == lab(edges[m].to, j)
    {
      EdgesHeld(t, k, edges, m);
      ClassLabelOf(t, k, p, edges[m].from, d);
      ClassLabelOf(t, k, p, edges[m].to, j);
    }
    assert Respects(k, edges, lab);
    ClassLabelOf(t, k, p, u, i);
    ClassLabelOf(t, k, p, v, j);
  }

  lemma ClassLabelOf(t: Table, k: nat, p: Partition, v: ValueId, d: Depth)
    requires t.Valid(k) && |p| == |t.obj2Var| && v < t.Size() && d < k
    ensures ClassLabels(t, p)(v, d) == p[t.var2Obj[v][d]]
  {
  }

  /** Two depths are in one class exactly if the edges force them to be. */
  lemma AlikeExactly(t: Table, k: nat, edges: seq<Edge>, u: ValueId, i: Depth, v: ValueId, j: Depth)
    requires t.Valid(k) && KnowsAll(t, edges) && u < t.Size() && v < t.Size() && i < k && j < k
    ensures Alike(t, k, Analyze(t, k, edges), u, i, v, j) <==> Forced(k, edges, u, i, v, j)
  {
    hide Table.Valid, KnowsAll, Analyze, Alike, Forced;
    if Alike(t, k, Analyze(t, k, edges), u, i, v, j) {
      AlikeIsForced(t, k, edges, u, i, v, j);
    }
    if Forced(k, edges, u, i, v, j) {
      ForcedIsAlike(t, k, edges, u, i, v, j);
    }
  }

  /** The table after the next value has been added. */
  function AddValue(t: Table, k: nat): Table {
    var obj, v := |t.obj2Var|, |t.var2Obj|;
    Table(t.var2Obj + [seq(k, d => obj + d)], t.obj2Var + seq(k, d => (v, d)))
  }

  lemma AddValueValid(t: Table, k: nat)
    requires t.Valid(k)
    ensures AddValue(t, k).Valid(k)
  {
    var t' := AddValue(t, k);
    forall v: nat, d: nat | v < |t'.var2Obj| && d < k
      ensures |t'.var2Obj[v]| == k && t'.var2Obj[v][d] < |t'.obj2Var| && t'.obj2Var[t'.var2Obj[v][d]] == (v, d)
    {
      if v < |t.var2Obj| {
        assert t'.var2Obj[v] == t.var2Obj[v] && t'.obj2Var[t.var2Obj[v][d]] == t.obj2Var[t.var2Obj[v][d]];
      }
    }
    forall o: nat | o < |t'.obj2Var|
      ensures t'.OwnedBy(k, o)
    {
      if o < |t.obj2Var| {
        assert t.OwnedBy(k, o) && t'.obj2Var[o] == t.obj2Var[o];
      }
    }
  }

  lemma {:induction false} AddValueKeepsPairsBelow(t: Table, k: nat, e: Edge, m: nat)
    requires t.Valid(k) && AddValue(t, k).Valid(k) && t.Knows(e) && m <= k
    ensures PairsBelow(AddValue(t, k), k, e, m) == PairsBelow(t, k, e, m)
  {
    if m > 0 {
      AddValueKeepsPairsBelow(t, k, e, m - 1);
      assert PairsAt(AddValue(t, k), k, e, m - 1) == PairsAt(t, k, e, m - 1);
    }
  }

  lemma {:induction false} AddValueKeepsPairs(t: Table, k: nat, edges: seq<Edge>)
    requires t.Valid(k) && AddValue(t, k).Valid(k) && KnowsAll(t, edges)
    ensures KnowsAll(AddValue(t, k), edges) && PairsOf(AddValue(t, k), k, edges) == PairsOf(t, k, edges)
  {
    if edges != [] {
      AddValueKeepsPairs(t, k, edges[..|edges| - 1]);
      AddValueKeepsPairsBelow(t, k, edges[|edges| - 1], k);
    }
  }

  /** Adding a value changes nothing for the values that are already there. */
  lemma AddValueGrows(t: Table, k: nat, edges: seq<Edge>)
    requires t.Valid(k) && KnowsAll(t, edges)
    ensures AddValue(t, k).Valid(k) && KnowsAll(AddValue(t, k), edges)
    ensures Analyze(AddValue(t, k), k, edges) == Grown(Analyze(t, k, edges), |t.obj2Var| + k)
  {
    hide Table.Valid, PairsOf, JoinAll, Grown;
    AddValueValid(t, k);
    AddValueKeepsPairs(t, k, edges);
    SingletonsGrown(|t.obj2Var|, |t.obj2Var| + k);
    JoinAllGrown(Singletons(|t.obj2Var|), PairsOf(t, k, edges), |t.obj2Var| + k);
  }

  lemma AddEdgeAnalyzes(t: Table, k: nat, edges: seq<Edge>, e: Edge)
    requires t.Valid(k) && KnowsAll(t, edges) && t.Knows(e)
    ensures KnowsAll(t, edges + [e])
    ensures Analyze(t, k, edges + [e]) == JoinAll(Analyze(t, k, edges), PairsBelow(t, k, e, k))
  {
    hide Table.Valid, PairsBelow, JoinAll;
    assert (edges + [e])[..|edges|] == edges;
    JoinAllConcat(Singletons(|t.obj2Var|), PairsOf(t, k, edges), PairsBelow(t, k, e, k));
  }

  lemma NoJoinsYet(p: Partition, t: Table, k: nat, e: Edge)
    requires t.Valid(k) && e.from < t.Size() && e.to < t.Size()
    ensures t.Knows(e) && |t.var2Obj[e.from]| == k
    ensures PairsIn(|p|, PairsBelow(t, k, e, 0)) && JoinAll(p, PairsBelow(t, k, e, 0)) == p
  {
  }

  lemma JoinsOneDeeper(p: Partition, t: Table, k: nat, e: Edge, d: Depth)
    requires t.Valid(k) && t.Knows(e) && d < k && |p| == |t.obj2Var|
    ensures JoinAll(p, PairsBelow(t, k, e, d + 1)) == JoinAll(JoinAll(p, PairsBelow(t, k, e, d)), PairsAt(t, k, e, d))
  {
    JoinAllConcat(p, PairsBelow(t, k, e, d), PairsAt(t, k, e, d));
  }

  /** The objects of the depths from lo to hi - 1 have the label of whatever depths they meet. */
  ghost predicate LabelsMeet(r: seq<nat>, k: nat, kind: EdgeKind, from: seq<ObjectId>, to: seq<ObjectId>, lo: nat, hi: nat)
    requires |from| == |to| == k
  {
    forall i: nat, j: nat :: lo <= i < hi && i < k && j < k && Meets(k, kind, i, j) ==> Same(r, from[i], to[j])
  }

  /** q puts together what p does and what meets at those depths, and nothing else. */
  ghost predicate JoinsMeeting(p: Partition, q: Partition, k: nat, kind: EdgeKind, from: seq<ObjectId>, to: seq<ObjectId>,
                               lo: nat, hi: nat) {
    && |from| == |to| == k
    && Refines(p, q) && LabelsMeet(q, k, kind, from, to, lo, hi)
    && forall r: seq<nat> :: Refines(p, r) && LabelsMeet(r, k, kind, from, to, lo, hi) ==> Refines(q, r)
  }

  /** The pair joins depths that meet. */
  ghost predicate IsMeeting(k: nat, kind: EdgeKind, from: seq<ObjectId>, to: seq<ObjectId>, lo: nat, hi: nat, x: Pair)
    requires |from| == |to| == k
  {
    exists i: nat, j: nat :: lo <= i < hi && i < k && j < k && Meets(k, kind, i, j) && x == (from[i], to[j])
  }

  lemma MeetingPairsJoin(p: Partition, pairs: seq<Pair>, k: nat, kind: EdgeKind, from: seq<ObjectId>, to: seq<ObjectId>, lo: nat, hi: nat)
    requires PairsIn(|p|, pairs) && |from| == |to| == k
    requires forall n: nat :: n < |pairs| ==> IsMeeting(k, kind, from, to, lo, hi, pairs[n])
    requires forall i: nat, j: nat :: lo <= i < hi && i < k && j < k && Meets(k, kind, i, j) ==> (from[i], to[j]) in pairs
    ensures JoinsMeeting(p, JoinAll(p, pairs), k, kind, from, to, lo, hi)
  {
    hide Meets;
    var q := JoinAll(p, pairs);
    JoinAllContains(p, pairs);
    forall r: seq<nat> | Refines(p, r) && LabelsMeet(r, k, kind, from, to, lo, hi)
      ensures Refines(q, r)
    {
      forall n: nat | n < |pairs|
        ensures r[pairs[n].0] == r[pairs[n].1]
      {
        assert IsMeeting(k, kind, from, to, lo, hi, pairs[n]);
      }
      JoinAllLeast(p, pairs, r);
    }
  }

  lemma RowSizes(t: Table, k: nat, e: Edge)
    requires t.Valid(k) && t.Knows(e)
    ensures |t.var2Obj[e.from]| == k && |t.var2Obj[e.to]| == k
  {
  }

  lemma PairsAtJoin(p: Partition, t: Table, k: nat, e: Edge, d: Depth)
    requires t.Valid(k) && t.Knows(e) && d < k && |p| == |t.obj2Var|
    ensures JoinsMeeting(p, JoinAll(p, PairsAt(t, k, e, d)), k, e.kind, t.var2Obj[e.from], t.var2Obj[e.to], d, d + 1)
  {
    RowSizes(t, k, e);
    hide Meets, JoinsMeeting, TargetDepths, Table.Valid;
    var pairs, from, to, ds := PairsAt(t, k, e, d), t.var2Obj[e.from], t.var2Obj[e.to], TargetDepths(k, e.kind, d);
    forall n: nat | n < |pairs|
      ensures IsMeeting(k, e.kind, from, to, d, d + 1, pairs[n])
    {
      TargetDepthsExactly(k, e.kind, d, ds[n]);
    }
    forall j: nat | j < k && Meets(k, e.kind, d, j)
      ensures (from[d], to[j]) in pairs
    {
      TargetDepthsExactly(k, e.kind, d, j);
      var i: nat :| i < |ds| && ds[i] == j;
      assert pairs[i] == (from[d], to[j]);
    }
    MeetingPairsJoin(p, pairs, k, e.kind, from, to, d, d + 1);
  }

  lemma PairsBelowJoin(p: Partition, t: Table, k: nat, e: Edge)
    requires t.Valid(k) && t.Knows(e) && |p| == |t.obj2Var|
    ensures JoinsMeeting(p, JoinAll(p, PairsBelow(t, k, e, k)), k, e.kind, t.var2Obj[e.from], t.var2Obj[e.to], 0, k)
  {
    RowSizes(t, k, e);
    hide Meets, JoinsMeeting, TargetDepths, Table.Valid;
    var pairs, from, to := PairsBelow(t, k, e, k), t.var2Obj[e.from], t.var2Obj[e.to];
    forall n: nat | n < |pairs|
      ensures IsMeeting(k, e.kind, from, to, 0, k, pairs[n])
    {
      var d, c := PairsBelowOrigin(t, k, e, k, n);
      TargetDepthsExactly(k, e.kind, d, TargetDepths(k, e.kind, d)[c]);
    }
    forall i: nat, j: nat | i < k && j < k && Meets(k, e.kind, i, j)
      ensures (from[i], to[j]) in pairs
    {
      TargetDepthsExactly(k, e.kind, i, j);
      var c: nat :| c < |TargetDepths(k, e.kind, i)| && TargetDepths(k, e.kind, i)[c] == j;
      var n := PairsBelowMember(t, k, e, k, i, c);
      assert pairs[n] == (from[i], to[j]);
    }
    MeetingPairsJoin(p, pairs, k, e.kind, from, to, 0, k);
  }

  class IndirectionSensUnionFindAA {
    const k: nat
    const aliasSets: UnionFind
    var var2Obj: seq<seq<ObjectId>>
    var obj2Var: seq<(ValueId, Depth)>
    /** The edges added so far. */
    ghost var edges: seq<Edge>

    ghost function Objects(): Table
      reads `var2Obj, `obj2Var
    {
      Table(var2Obj, obj2Var)
    }

    ghost predicate Valid()
      reads this, aliasSets
    {
      && Objects().Valid(k) && KnowsAll(Objects(), edges)
      && IsPartition(aliasSets.leaders)
      && aliasSets.leaders == Analyze(Objects(), k, edges)
    }

    constructor (k: nat)
      requires k > 0
      ensures Valid() && fresh(aliasSets) && this.k == k
      ensures var2Obj == [] && edges == []
    {
      this.k := k;
      aliasSets := new UnionFind(0);
      var2Obj, obj2Var, edges := [], [], [];
    }

    method OnAddValue(v: ValueId)
      requires Valid() && v == |var2Obj|
      modifies this, aliasSets
      ensures Valid() && |var2Obj| == v + 1 && old(var2Obj) <= var2Obj
      ensures edges == old(edges)
    {
      hide Table.Valid, KnowsAll, Analyze, Grown, IsPartition;
      ghost var t := Objects();
      AddValueGrows(t, k, edges);
      var obj := |obj2Var|;
      aliasSets.Grow(obj + k);
      var2Obj := var2Obj + [seq(k, d => obj + d)];
      obj2Var := obj2Var + seq(k, d => (v, d));
      assert Objects() == AddValue(t, k);
    }

    method GetObjectOrNull(v: ValueId, d: Depth) returns (o: Option<ObjectId>)
      requires v < |var2Obj|
      ensures o == if d < |var2Obj[v]| then Some(var2Obj[v][d]) else None
    {
      o := if d >= |var2Obj[v]| then None else Some(var2Obj[v][d]);
    }

    method OnAddEdge(from: ValueId, to: ValueId, kind: EdgeKind)
      requires Valid() && from < |var2Obj| && to < |var2Obj|
      modifies this`edges, aliasSets
      ensures Valid() && edges == old(edges) + [Edge(from, to, kind)]
      ensures JoinsMeeting(old(aliasSets.leaders), aliasSets.leaders, k, kind, var2Obj[from], var2Obj[to], 0, k)
    {
      hide Table.Valid, IsPartition, JoinsMeeting;
      PairsBelowJoin(aliasSets.leaders, Objects(), k, Edge(from, to, kind));
      AddEdgeAnalyzes(Objects(), k, edges, Edge(from, to, kind));
      JoinDepths(from, to, kind);
      edges := edges + [Edge(from, to, kind)];
    }

    method JoinDepths(from: ValueId, to: ValueId, kind: EdgeKind)
      requires Objects().Valid(k) && IsPartition(aliasSets.leaders) && |aliasSets.leaders| == |obj2Var|
      requires from < |var2Obj| && to < |var2Obj|
      modifies aliasSets
      ensures IsPartition(aliasSets.leaders)
      ensures aliasSets.leaders == JoinAll(old(aliasSets.leaders), PairsBelow(Objects(), k, Edge(from, to, kind), k))
    {
      hide IsPartition, Table.Valid, PairsAt, PairsBelow, JoinAll, PairsIn, Table.Knows;
      ghost var t, e := Objects(), Edge(from, to, kind);
      ghost var before := aliasSets.leaders;
      var fromObjects := var2Obj[from];
      NoJoinsYet(before, t, k, e);
      for d := 0 to |fromObjects|
        invariant IsPartition(aliasSets.leaders)
        invariant aliasSets.leaders == JoinAll(before, PairsBelow(t, k, e, d))
      {
        JoinsOneDeeper(before, t, k, e, d);
        OnDepth(from, to, kind, d);
      }
    }

    /** The joins of one edge for one depth of its source. */
    method OnDepth(from: ValueId, to: ValueId, kind: EdgeKind, fromCtx: Depth)
      requires Objects().Valid(k) && IsPartition(aliasSets.leaders) && |aliasSets.leaders| == |obj2Var|
      requires from < |var2Obj| && to < |var2Obj| && fromCtx < k
      modifies aliasSets
      ensures IsPartition(aliasSets.leaders)
      ensures aliasSets.leaders ==
              JoinAll(old(aliasSets.leaders), PairsAt(Objects(), k, Edge(from, to, kind), fromCtx))
      ensures JoinsMeeting(old(aliasSets.leaders), aliasSets.leaders, k, kind, var2Obj[from], var2Obj[to], fromCtx, fromCtx + 1)
    {
      hide IsPartition, Joined, JoinsMeeting;
      PairsAtJoin(aliasSets.leaders, Objects(), k, Edge(from, to, kind), fromCtx);
      ghost var p, pairs := aliasSets.leaders, PairsAt(Objects(), k, Edge(from, to, kind), fromCtx);
      if pairs != [] {
        JoinAllFew(p, pairs[0], pairs[|pairs| - 1]);
      }
      match kind
      case Copy =>
        assert pairs == if fromCtx == 0 then [] else [pairs[0]];
        if fromCtx != 0 {
          JoinWith(from, fromCtx, to, fromCtx);
        }
      case Load =>
        assert pairs == if |pairs| == 2 then [pairs[0], pairs[1]] else if |pairs| == 1 then [pairs[0]] else [];
        var toCtx := PrevDepth(fromCtx);
        if toCtx.Some? {
          JoinWith(from, fromCtx, to, toCtx.value);
        }
        if fromCtx == k - 1 {
          JoinWith(from, fromCtx, to, fromCtx);
        }
      case Store =>
        assert pairs == [pairs[0]];
        JoinWith(from, fromCtx, to, NextDepth(k, fromCtx));
      case StorePOI =>
        assert pairs == [pairs[0]];
        JoinWith(from, fromCtx, to, NextDepth(k, fromCtx));
      case _ =>
        assert pairs == [pairs[0]];
        JoinWith(from, fromCtx, to, fromCtx);
    }

    method JoinWith(from: ValueId, fromCtx: Depth, to: ValueId, toCtx: Depth)
      requires Objects().Valid(k) && IsPartition(aliasSets.leaders) && |aliasSets.leaders| == |obj2Var|
      requires from < |var2Obj| && to < |var2Obj| && fromCtx < k && toCtx < k
      modifies aliasSets
      ensures IsPartition(aliasSets.leaders)
      ensures aliasSets.leaders == Joined(old(aliasSets.leaders), var2Obj[from][fromCtx], var2Obj[to][toCtx])
    {
      var toObj := GetObjectOrNull(to, toCtx);
      if toObj.Some? {
        var _ := aliasSets.Join(var2Obj[from][fromCtx], toObj.value);
      }
    }

    /** Only the values themselves, at depth zero, are presented in the result. */
    method ConsumeAAResults(numVars: nat, included: set<ValueId>) returns (r: RawResult)
      requires Valid() && numVars <= |var2Obj|
      ensures r.Basic? && |r.var2Rep| == numVars && IsConsumed(r, included)
      ensures forall v: nat, w: nat :: v < numVars && w < numVars ==>
                (r.MayAlias(v, w) <==> Alike(Objects(), k, Analyze(Objects(), k, edges), v, 0, w, 0))
    {
      var roots := seq(numVars, v requires 0 <= v < |var2Obj| && |var2Obj[v]| > 0 reads this => var2Obj[v][0]);
      r := ConsumeBasic(aliasSets, numVars, roots, included);
    }
  }
}
