/** What the indirection-sensitive analysis is for: whatever a program does along its pointer-assignment
    edges, values that ever hold the same address may alias in the result. */
module IndirectionSoundness {
  import opened UnionFinds
  import opened AliasResults
  import opened PointerAssignmentGraph
  import opened IndirectionAA
  import opened Machines

  /** The classes know every address held by a value and every address stored in memory. */
  ghost predicate Tracks(t: Table, k: nat, p: Partition, s: Machine)
    requires t.Valid(k) && |p| == |t.obj2Var|
  {
    && (forall slot :: slot in s.env ==> slot.value < t.Size() && s.env[slot].origin < t.Size() &&
                                         Alike(t, k, p, slot.value, 0, s.env[slot].origin, 0))
    && (forall a :: a in s.mem ==> a.origin < t.Size() && s.mem[a].origin < t.Size() &&
                                   Alike(t, k, p, a.origin, NextDepth(k, 0), s.mem[a].origin, 0))
  }

  /** The first dereference of a value agrees with the first dereference of what it points to. */
  lemma PointeesAgree(t: Table, k: nat, edges: seq<Edge>, s: Machine, slot: Slot)
    requires t.Valid(k) && KnowsAll(t, edges) && Tracks(t, k, Analyze(t, k, edges), s) && slot in s.env
    ensures Alike(t, k, Analyze(t, k, edges), slot.value, NextDepth(k, 0), s.env[slot].origin, NextDepth(k, 0))
  {
    DereferenceCongruence(t, k, edges, slot.value, 0, s.env[slot].origin, 0);
  }

  lemma HeldAt(t: Table, k: nat, edges: seq<Edge>, e: Edge, n: nat, m: nat)
    requires t.Valid(k) && KnowsAll(t, edges) && e in edges
    requires Level(e.kind, n, m) && (e.kind.Copy? ==> k > 1)
    ensures t.Knows(e)
    ensures Alike(t, k, Analyze(t, k, edges), e.from, DepthFor(k, n), e.to, DepthFor(k, m))
  {
    LevelMeets(k, e.kind, n, m);
    var i: nat :| i < |edges| && edges[i] == e;
    EdgesHeld(t, k, edges, i);
  }

  ghost predicate NoCopies(edges: seq<Edge>) {
    forall e :: e in edges ==> !e.kind.Copy?
  }

  lemma AssignTracks(t: Table, k: nat, p: Partition, s: Machine, slot: Slot, a: Address)
    requires t.Valid(k) && |p| == |t.obj2Var| && Tracks(t, k, p, s)
    requires slot.value < t.Size() && a.origin < t.Size() && Alike(t, k, p, slot.value, 0, a.origin, 0)
    ensures Tracks(t, k, p, s.(env := s.env[slot := a]))
  {
  }

  lemma WriteTracks(t: Table, k: nat, p: Partition, s: Machine, a: Address, b: Address)
    requires t.Valid(k) && |p| == |t.obj2Var| && Tracks(t, k, p, s)
    requires a.origin < t.Size() && b.origin < t.Size() && Alike(t, k, p, a.origin, NextDepth(k, 0), b.origin, 0)
    ensures Tracks(t, k, p, s.(mem := s.mem[a := b]))
  {
  }

  lemma TrackedSlot(t: Table, k: nat, p: Partition, s: Machine, slot: Slot)
    requires t.Valid(k) && |p| == |t.obj2Var| && Tracks(t, k, p, s) && slot in s.env
    ensures slot.value < t.Size() && s.env[slot].origin < t.Size()
    ensures Alike(t, k, p, slot.value, 0, s.env[slot].origin, 0)
  {
  }

  lemma TrackedCell(t: Table, k: nat, p: Partition, s: Machine, a: Address)
    requires t.Valid(k) && |p| == |t.obj2Var| && Tracks(t, k, p, s) && a in s.mem
    ensures a.origin < t.Size() && s.mem[a].origin < t.Size() && Alike(t, k, p, a.origin, NextDepth(k, 0), s.mem[a].origin, 0)
  {
  }

  lemma LoadTracks(t: Table, k: nat, edges: seq<Edge>, s: Machine, a: Action)
    requires k > 0 && t.Valid(k) && KnowsAll(t, edges) && Tracks(t, k, Analyze(t, k, edges), s)
    requires Enabled(t.Size(), edges, s, a) && a.Flow? && a.edge.kind.Load?
    ensures Tracks(t, k, Analyze(t, k, edges), Apply(t.Size(), edges, s, a))
  {
    hide Table.Valid, KnowsAll, Tracks, Analyze;
    var cell := s.env[a.Source()];
    TrackedSlot(t, k, Analyze(t, k, edges), s, a.Source());
    TrackedCell(t, k, Analyze(t, k, edges), s, cell);
    PointeesAgree(t, k, edges, s, a.Source());
    HeldAt(t, k, edges, a.edge, 1, 0);
    AssignTracks(t, k, Analyze(t, k, edges), s, a.Target(), s.mem[cell]);
  }

  lemma StoreTracks(t: Table, k: nat, edges: seq<Edge>, s: Machine, a: Action)
    requires k > 0 && t.Valid(k) && KnowsAll(t, edges) && Tracks(t, k, Analyze(t, k, edges), s)
    requires Enabled(t.Size(), edges, s, a) && a.Flow? && (a.edge.kind.Store? || a.edge.kind.StorePOI?)
    ensures Tracks(t, k, Analyze(t, k, edges), Apply(t.Size(), edges, s, a))
  {
    hide Table.Valid, KnowsAll, Tracks, Analyze;
    TrackedSlot(t, k, Analyze(t, k, edges), s, a.Source());
    TrackedSlot(t, k, Analyze(t, k, edges), s, a.Target());
    PointeesAgree(t, k, edges, s, a.Target());
    HeldAt(t, k, edges, a.edge, 0, 1);
    WriteTracks(t, k, Analyze(t, k, edges), s, s.env[a.Target()], s.env[a.Source()]);
  }

  lemma CopyTracks(t: Table, k: nat, edges: seq<Edge>, s: Machine, a: Action)
    requires t.Valid(k) && KnowsAll(t, edges) && k >= 2 && Tracks(t, k, Analyze(t, k, edges), s)
    requires Enabled(t.Size(), edges, s, a) && a.Flow? && a.edge.kind.Copy?
    ensures Tracks(t, k, Analyze(t, k, edges), Apply(t.Size(), edges, s, a))
  {
    hide Table.Valid, KnowsAll;
    PointeesAgree(t, k, edges, s, a.Source());
    PointeesAgree(t, k, edges, s, a.Target());
    HeldAt(t, k, edges, a.edge, 1, 1);
    var cell := a.CellRead(s);
    assert Alike(t, k, Analyze(t, k, edges), cell.origin, NextDepth(k, 0), s.mem[cell].origin, 0);
    WriteTracks(t, k, Analyze(t, k, edges), s, a.CellWritten(s), s.mem[cell]);
  }

  lemma StepTracks(t: Table, k: nat, edges: seq<Edge>, s: Machine, a: Action)
    requires t.Valid(k) && KnowsAll(t, edges) && (k >= 2 || NoCopies(edges))
    requires Tracks(t, k, Analyze(t, k, edges), s) && Enabled(t.Size(), edges, s, a)
    ensures Tracks(t, k, Analyze(t, k, edges), Apply(t.Size(), edges, s, a))
  {
    assert k > 0;
    hide Table.Valid, KnowsAll, Tracks;
    var p := Analyze(t, k, edges);
    match a
    case Allocate(slot, tag) =>
      AssignTracks(t, k, p, s, slot, Address(slot.value, tag));
    case Flow(e, _, _, _, writeTag) =>
      match e.kind
      case Load => LoadTracks(t, k, edges, s, a);
      case Store => StoreTracks(t, k, edges, s, a);
      case StorePOI => StoreTracks(t, k, edges, s, a);
      case Copy => CopyTracks(t, k, edges, s, a);
      case _ => MoveTracks(t, k, edges, s, a);
  }

  lemma MoveTracks(t: Table, k: nat, edges: seq<Edge>, s: Machine, a: Action)
    requires k > 0 && t.Valid(k) && KnowsAll(t, edges) && Tracks(t, k, Analyze(t, k, edges), s)
    requires Enabled(t.Size(), edges, s, a) && a.Flow?
    requires a.edge.kind.Assign? || a.edge.kind.Gep? || a.edge.kind.Call? || a.edge.kind.Return?
    ensures Tracks(t, k, Analyze(t, k, edges), Apply(t.Size(), edges, s, a))
  {
    hide Table.Valid, KnowsAll;
    HeldAt(t, k, edges, a.edge, 0, 0);
    var value := s.env[a.Source()];
    var moved := if a.edge.kind.Gep? then Address(value.origin, a.writeTag) else value;
    AssignTracks(t, k, Analyze(t, k, edges), s, a.Target(), moved);
  }

  lemma NothingToTrack(t: Table, k: nat, p: Partition)
    requires t.Valid(k) && |p| == |t.obj2Var|
    ensures Tracks(t, k, p, Machine(map[], map[]))
  {
  }

  lemma {:induction false} RunTracks(t: Table, k: nat, edges: seq<Edge>, actions: seq<Action>, states: seq<Machine>, i: nat)
    requires t.Valid(k) && KnowsAll(t, edges) && (k >= 2 || NoCopies(edges))
    requires IsRun(t.Size(), edges, actions, states) && i < |states|
    ensures Tracks(t, k, Analyze(t, k, edges), states[i])
  {
    hide Table.Valid, KnowsAll, Tracks, Analyze, Apply;
    if i == 0 {
      NothingToTrack(t, k, Analyze(t, k, edges));
    } else {
      RunTracks(t, k, edges, actions, states, i - 1);
      assert StepsAt(t.Size(), edges, actions, states, i - 1);
      StepTracks(t, k, edges, states[i - 1], actions[i - 1]);
    }
  }

  /** Values that ever hold addresses of one object, at the same time or not, are in one class at depth zero. */
  ghost predicate Covers(t: Table, k: nat, edges: seq<Edge>)
    requires t.Valid(k) && KnowsAll(t, edges)
  {
    forall actions, states, v: nat, w: nat, o: nat ::
      IsRun(t.Size(), edges, actions, states) && EverHolds(states, v, o) && EverHolds(states, w, o) ==>
        v < t.Size() && w < t.Size() && Alike(t, k, Analyze(t, k, edges), v, 0, w, 0)
  }

  lemma HoldersAreAlike(t: Table, k: nat, edges: seq<Edge>, actions: seq<Action>, states: seq<Machine>, v: ValueId, o: ValueId)
    requires t.Valid(k) && KnowsAll(t, edges) && (k >= 2 || NoCopies(edges))
    requires IsRun(t.Size(), edges, actions, states) && EverHolds(states, v, o)
    ensures v < t.Size() && o < t.Size() && Alike(t, k, Analyze(t, k, edges), v, 0, o, 0)
  {
    var i: nat, slot :| i < |states| && HoldsAt(states[i], slot, v, o);
    RunTracks(t, k, edges, actions, states, i);
  }

  /** Soundness over whole runs. */
  lemma Soundness(t: Table, k: nat, edges: seq<Edge>)
    requires t.Valid(k) && KnowsAll(t, edges) && (k >= 2 || NoCopies(edges))
    ensures Covers(t, k, edges)
  {
    forall actions, states, v: nat, w: nat, o: nat
      | IsRun(t.Size(), edges, actions, states) && EverHolds(states, v, o) && EverHolds(states, w, o)
      ensures v < t.Size() && w < t.Size() && Alike(t, k, Analyze(t, k, edges), v, 0, w, 0)
    {
      HoldersAreAlike(t, k, edges, actions, states, v, o);
      HoldersAreAlike(t, k, edges, actions, states, w, o);
    }
  }

  /** Four values with one depth each. */
  const FLAT_TABLE := Table([[0], [1], [2], [3]], [(0, 0), (1, 0), (2, 0), (3, 0)])

  /** *v0 = v2; memcpy(v1, v0); v3 = *v1. */
  const COPY_EDGES: seq<Edge> := [Edge(2, 0, EdgeKind.Store), Edge(0, 1, EdgeKind.Copy), Edge(1, 3, EdgeKind.Load)]

  lemma FlatTableValid()
    ensures FLAT_TABLE.Valid(1) && KnowsAll(FLAT_TABLE, COPY_EDGES)
  {
    forall o: nat | o < 4
      ensures FLAT_TABLE.OwnedBy(1, o)
    {
    }
  }

  lemma PairsOfFlat(e: Edge)
    requires FLAT_TABLE.Valid(1) && FLAT_TABLE.Knows(e)
    ensures PairsBelow(FLAT_TABLE, 1, e, 1) == if e.kind.Copy? then [] else [(e.from, e.to)]
  {
    assert PairsAt(FLAT_TABLE, 1, e, 0) == if e.kind.Copy? then [] else [(e.from, e.to)];
  }

  /** With a single depth a Copy joins nothing. */
  lemma FlatClasses()
    requires FLAT_TABLE.Valid(1) && KnowsAll(FLAT_TABLE, COPY_EDGES)
    ensures Analyze(FLAT_TABLE, 1, COPY_EDGES) == [0, 1, 0, 1]
  {
    hide PairsOf, JoinAll, Table.Valid;
    var e0, e1, e2 := COPY_EDGES[0], COPY_EDGES[1], COPY_EDGES[2];
    FlatStart();
    FlatStep([], e0);
    assert [] + [e0] == [e0] && [e0] + [e1] == [e0, e1] && [e0, e1] + [e2] == COPY_EDGES;
    assert Analyze(FLAT_TABLE, 1, [e0]) == [0, 1, 0, 3];
    FlatStep([e0], e1);
    FlatStep([e0, e1], e2);
  }

  lemma FlatStart()
    requires FLAT_TABLE.Valid(1)
    ensures KnowsAll(FLAT_TABLE, []) && Analyze(FLAT_TABLE, 1, []) == [0, 1, 2, 3]
  {
  }

  lemma FlatStep(edges: seq<Edge>, e: Edge)
    requires FLAT_TABLE.Valid(1) && KnowsAll(FLAT_TABLE, edges) && FLAT_TABLE.Knows(e)
    ensures KnowsAll(FLAT_TABLE, edges + [e])
    ensures var p := Analyze(FLAT_TABLE, 1, edges);
            Analyze(FLAT_TABLE, 1, edges + [e]) == if e.kind.Copy? then p else Joined(p, e.from, e.to)
  {
    PairsOfFlat(e);
    AddEdgeAnalyzes(FLAT_TABLE, 1, edges, e);
    JoinAllFew(Analyze(FLAT_TABLE, 1, edges), (e.from, e.to), (e.from, e.to));
  }

  const HERE := Instance([], 0)

  /** v0, v1 and v2 point to objects of their own. */
  const ALLOCATED := Machine(map[Slot(HERE, 0) := Address(0, HERE), Slot(HERE, 1) := Address(1, HERE),
                                 Slot(HERE, 2) := Address(2, HERE)], map[])

  lemma AllocationRun() returns (actions: seq<Action>, states: seq<Machine>)
    ensures IsRun(4, COPY_EDGES, actions, states) && |actions| == 3 && states[3] == ALLOCATED
  {
    var a0, a1, a2 := Allocate(Slot(HERE, 0), HERE), Allocate(Slot(HERE, 1), HERE), Allocate(Slot(HERE, 2), HERE);
    var s0 := Machine(map[], map[]);
    var s1 := Apply(4, COPY_EDGES, s0, a0);
    var s2 := Apply(4, COPY_EDGES, s1, a1);
    actions, states := [a0, a1, a2], [s0, s1, s2, ALLOCATED];
    assert forall i: nat :: i < 3 ==> StepsAt(4, COPY_EDGES, actions, states, i);
  }

  lemma OneMoreStep(actions: seq<Action>, states: seq<Machine>, a: Action)
    requires IsRun(4, COPY_EDGES, actions, states) && Enabled(4, COPY_EDGES, states[|actions|], a)
    ensures IsRun(4, COPY_EDGES, actions + [a], states + [Apply(4, COPY_EDGES, states[|actions|], a)])
  {
    hide Enabled, Apply;
    forall i: nat | i < |actions| + 1
      ensures StepsAt(4, COPY_EDGES, actions + [a], states + [Apply(4, COPY_EDGES, states[|actions|], a)], i)
    {
      assert i < |actions| ==> StepsAt(4, COPY_EDGES, actions, states, i);
    }
  }

  lemma CopyRun() returns (actions: seq<Action>, states: seq<Machine>)
    ensures IsRun(4, COPY_EDGES, actions, states)
    ensures EverHolds(states, 2, 2) && EverHolds(states, 3, 2)
  {
    hide IsRun;
    actions, states := AllocationRun();
    assert |states| == 4 by { RunLength(actions, states); }
    var a3, a4, a5 := Flow(COPY_EDGES[0], HERE, HERE, HERE, HERE), Flow(COPY_EDGES[1], HERE, HERE, HERE, HERE),
                      Flow(COPY_EDGES[2], HERE, HERE, HERE, HERE);
    OneMoreStep(actions, states, a3);
    actions, states := actions + [a3], states + [Apply(4, COPY_EDGES, states[3], a3)];
    OneMoreStep(actions, states, a4);
    actions, states := actions + [a4], states + [Apply(4, COPY_EDGES, states[4], a4)];
    OneMoreStep(actions, states, a5);
    actions, states := actions + [a5], states + [Apply(4, COPY_EDGES, states[5], a5)];
    assert HoldsAt(states[6], Slot(HERE, 2), 2, 2) && HoldsAt(states[6], Slot(HERE, 3), 3, 2);
  }

  lemma RunLength(actions: seq<Action>, states: seq<Machine>)
    requires IsRun(4, COPY_EDGES, actions, states)
    ensures |states| == |actions| + 1
  {
  }

  /** A value that loads from copied memory holds an address that the classes keep apart from it. */
  lemma SingleDepthMissesCopies()
    ensures FLAT_TABLE.Valid(1) && KnowsAll(FLAT_TABLE, COPY_EDGES) && !Covers(FLAT_TABLE, 1, COPY_EDGES)
  {
    FlatTableValid();
    FlatClasses();
    var actions, states := CopyRun();
    assert !Alike(FLAT_TABLE, 1, Analyze(FLAT_TABLE, 1, COPY_EDGES), 2, 0, 3, 0);
  }

  /** Two depths are needed, and suffice, for soundness on every graph: with a single one, memory that a Copy
      moves is lost. */
  lemma SoundExactlyFromDepthTwo(k: nat)
    requires k > 0
    ensures (forall t: Table, edges :: t.Valid(k) && KnowsAll(t, edges) ==> Covers(t, k, edges)) <==> k >= 2
  {
    if k >= 2 {
      forall t: Table, edges | t.Valid(k) && KnowsAll(t, edges)
        ensures Covers(t, k, edges)
      {
        Soundness(t, k, edges);
      }
    } else {
      SingleDepthMissesCopies();
    }
  }

  /** Reports all values and then all edges to a new analysis. */
  method BuildGraph(k: nat, numVars: nat, edges: seq<Edge>) returns (aa: IndirectionSensUnionFindAA)
    requires k > 0
    requires forall i: nat :: i < |edges| ==> edges[i].from < numVars && edges[i].to < numVars
    ensures aa.Valid() && aa.k == k && |aa.var2Obj| == numVars && aa.edges == edges
  {
    hide IndirectionSensUnionFindAA.Valid;
    aa := new IndirectionSensUnionFindAA(k);
    for v := 0 to numVars
      invariant aa.Valid() && fresh(aa) && fresh(aa.aliasSets) && aa.k == k
      invariant |aa.var2Obj| == v && aa.edges == []
    {
      aa.OnAddValue(v);
    }
    for i := 0 to |edges|
      invariant aa.Valid() && fresh(aa) && fresh(aa.aliasSets) && aa.k == k
      invariant |aa.var2Obj| == numVars && aa.edges == edges[..i]
    {
      aa.OnAddEdge(edges[i].from, edges[i].to, edges[i].kind);
    }
    assert edges[..|edges|] == edges;
  }

  /** The analysis from its first value to its result. */
  method AnalyzeProgram(k: nat, numVars: nat, edges: seq<Edge>, included: set<ValueId>) returns (r: RawResult)
    requires k > 0
    requires forall i: nat :: i < |edges| ==> edges[i].from < numVars && edges[i].to < numVars
    ensures r.Basic? && r.Size() == numVars && IsConsumed(r, included)
    ensures k >= 2 || NoCopies(edges) ==> ReportsAliases(numVars, edges, r)
    ensures forall v: nat, w: nat :: v < numVars && w < numVars ==> (r.MayAlias(v, w) <==> Forced(k, edges, v, 0, w, 0))
  {
    var aa := BuildGraph(k, numVars, edges);
    r := aa.ConsumeAAResults(numVars, included);
    if k >= 2 || NoCopies(edges) {
      CoversMeansReports(aa.Objects(), k, edges, numVars, r);
    }
    forall v: nat, w: nat | v < numVars && w < numVars
      ensures r.MayAlias(v, w) <==> Forced(k, edges, v, 0, w, 0)
    {
      AlikeExactly(aa.Objects(), k, edges, v, 0, w, 0);
    }
  }

  /** Values that ever hold addresses of one object may alias. */
  ghost predicate ReportsAliases(numVars: nat, edges: seq<Edge>, r: RawResult) {
    forall actions, states, v: nat, w: nat, o: nat ::
      IsRun(numVars, edges, actions, states) && EverHolds(states, v, o) && EverHolds(states, w, o) ==> r.MayAlias(v, w)
  }

  lemma CoversMeansReports(t: Table, k: nat, edges: seq<Edge>, numVars: nat, r: RawResult)
    requires t.Valid(k) && KnowsAll(t, edges) && (k >= 2 || NoCopies(edges)) && t.Size() == numVars
    requires forall v: nat, w: nat :: v < numVars && w < numVars && Alike(t, k, Analyze(t, k, edges), v, 0, w, 0) ==>
               r.MayAlias(v, w)
    ensures ReportsAliases(numVars, edges, r)
  {
    Soundness(t, k, edges);
  }
}
