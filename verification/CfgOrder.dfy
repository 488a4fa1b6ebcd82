/** The order in which the instructions of a function are listed for iteration: a depth-first postorder of
    the control-flow graph, read backwards. */
module CfgOrder {
  import opened Graphs
  import opened Compressors
  import opened Sequences

  type Inst = nat

  /** A control-flow graph. uniqueSuccessor answers for some instructions, or for none when the control flow
      does not know about basic blocks. */
  datatype Cfg = Cfg(succs: Graph, uniqueSuccessor: map<Inst, Inst>)

  /** A unique successor, when reported, is the only successor. */
  ghost predicate WellFormedCfg(c: Cfg) {
    && WellFormed(c.succs)
    && (forall u: nat, v: nat :: u in c.uniqueSuccessor && u < |c.succs| ==>
          (Edge(c.succs, u, v) <==> v == c.uniqueSuccessor[u]))
  }

  ghost predicate ReachedFrom(g: Graph, starts: seq<Inst>, v: Inst) {
    exists s: nat :: s in starts && Reach(g, s, v)
  }

  /** v is listed before u. */
  ghost predicate ListedBefore(order: seq<Inst>, v: Inst, u: Inst) {
    exists i: nat, j: nat :: i < j < |order| && order[i] == v && order[j] == u
  }

  /** Every successor of u is listed before u, unless the edge closes a cycle. */
  ghost predicate SuccessorsFirst(g: Graph, order: seq<Inst>, u: Inst) {
    forall v: nat :: Edge(g, u, v) ==> ListedBefore(order, v, u) || Reach(g, v, u)
  }

  datatype State = State(seen: set<Inst>, order: seq<Inst>)

  /** The search in between two steps; prior is what had been listed before it started, active the instructions
      whose visit has begun but not ended. */
  ghost predicate Inv(g: Graph, prior: seq<Inst>, s: State, active: set<Inst>) {
    && prior <= s.order && Distinct(s.order)
    && active <= s.seen
    && (forall v: nat :: v in s.seen ==> v < |g|)
    && (forall v: nat :: v in s.order <==> v in prior || v in s.seen - active)
    && (forall v: nat :: v in active && v !in prior ==> v !in s.order)
    && Explored(g, s, active)
    && (forall u: nat :: u in s.seen - active && u !in prior ==> SuccessorsFirst(g, s.order, u))
  }

  ghost predicate Explored(g: Graph, s: State, active: set<Inst>) {
    forall u: nat, v: nat :: u in s.seen - active && Edge(g, u, v) ==> v in s.seen
  }

  ghost predicate Extends(s: State, t: State) {
    s.seen <= t.seen && s.order <= t.order
  }

  lemma ListedBeforeExtends(p: seq<Inst>, q: seq<Inst>, v: Inst, u: Inst)
    requires p <= q && ListedBefore(p, v, u)
    ensures ListedBefore(q, v, u)
  {
    var i: nat, j: nat :| i < j < |p| && p[i] == v && p[j] == u;
    assert q[i] == v && q[j] == u;
  }

  lemma SuccessorsFirstExtends(g: Graph, p: seq<Inst>, q: seq<Inst>, u: Inst)
    requires p <= q && SuccessorsFirst(g, p, u)
    ensures SuccessorsFirst(g, q, u)
  {
    forall v: nat | Edge(g, u, v) && !Reach(g, v, u)
      ensures ListedBefore(q, v, u)
    {
      ListedBeforeExtends(p, q, v, u);
    }
  }

  /** Something leads to v: it is a start point, or an edge comes from an instruction that is listed after it, was
      listed long before, or is still active. */
  ghost predicate LedTo(g: Graph, starts: seq<Inst>, prior: seq<Inst>, order: seq<Inst>, active: set<Inst>, v: Inst) {
    v in starts || exists u: nat :: LeadsTo(g, prior, order, active, u, v)
  }

  ghost predicate LeadsTo(g: Graph, prior: seq<Inst>, order: seq<Inst>, active: set<Inst>, u: Inst, v: Inst) {
    Edge(g, u, v) && (u in prior || u in active || ListedBefore(order, v, u))
  }

  ghost predicate AllLedTo(g: Graph, starts: seq<Inst>, prior: seq<Inst>, s: State, active: set<Inst>) {
    forall v: nat :: v in s.order && v !in prior ==> LedTo(g, starts, prior, s.order, active, v)
  }

  /** Entering an instruction takes nothing away. */
  lemma BeginLed(g: Graph, starts: seq<Inst>, prior: seq<Inst>, s: State, active: set<Inst>, u: Inst)
    requires AllLedTo(g, starts, prior, s, active)
    ensures AllLedTo(g, starts, prior, s.(seen := s.seen + {u}), active + {u})
  {
    forall v: nat | v in s.order && v !in prior
      ensures LedTo(g, starts, prior, s.order, active + {u}, v)
    {
      if v !in starts {
        var w: nat :| LeadsTo(g, prior, s.order, active, w, v);
        assert LeadsTo(g, prior, s.order, active + {u}, w, v);
      }
    }
  }

  /** When the visit of u ends, u is listed after everything that it leads to. */
  lemma FinishLed(g: Graph, starts: seq<Inst>, prior: seq<Inst>, s: State, active: set<Inst>, u: Inst)
    requires AllLedTo(g, starts, prior, s, active + {u}) && (u in s.order ==> u in prior)
    requires u in starts || exists w: nat :: w in active && Edge(g, w, u)
    ensures AllLedTo(g, starts, prior, s.(order := if u in s.order then s.order else s.order + [u]), active)
  {
    var order := if u in s.order then s.order else s.order + [u];
    forall v: nat | v in order && v !in prior
      ensures LedTo(g, starts, prior, order, active, v)
    {
      if v in starts {
      } else if v in s.order {
        var w: nat :| LeadsTo(g, prior, s.order, active + {u}, w, v);
        if ListedBefore(s.order, v, w) {
          ListedBeforeExtends(s.order, order, v, w);
        } else if w == u && u !in prior {
          var i: nat :| i < |s.order| && s.order[i] == v;
          assert order[i] == v && order[|s.order|] == u;
          assert ListedBefore(order, v, u);
        }
        assert LeadsTo(g, prior, order, active, w, v);
      } else {
        var w: nat :| w in active && Edge(g, w, u);
        assert LeadsTo(g, prior, order, active, w, v);
      }
    }
  }

  lemma Begin(g: Graph, prior: seq<Inst>, s: State, active: set<Inst>, u: Inst)
    requires Inv(g, prior, s, active) && u !in s.seen && u < |g|
    ensures u !in active
    ensures Inv(g, prior, s.(seen := s.seen + {u}), active + {u})
  {
    assert s.seen + {u} - (active + {u}) == s.seen - active;
  }

  /** The end of the visit of u: all its successors have been seen. */
  lemma Finish(g: Graph, prior: seq<Inst>, s: State, active: set<Inst>, u: Inst)
    requires Inv(g, prior, s, active + {u}) && u !in active && u in s.seen
    requires forall v: nat :: Edge(g, u, v) ==> v in s.seen
    requires forall v: nat :: v in active ==> Reach(g, v, u)
    ensures u in s.order ==> u in prior
    ensures Inv(g, prior, s.(order := if u in s.order then s.order else s.order + [u]), active)
  {
    var order := if u in s.order then s.order else s.order + [u];
    if u !in prior {
      assert order[|s.order|] == u;
      forall v: nat | Edge(g, u, v) && !Reach(g, v, u)
        ensures ListedBefore(order, v, u)
      {
        ReachSelf(g, u);
        assert v in s.order;
        var i: nat :| i < |s.order| && s.order[i] == v;
        assert order[i] == v;
      }
    }
    forall w: nat | w in s.seen - active && w !in prior && w != u
      ensures SuccessorsFirst(g, order, w)
    {
      assert w in s.seen - (active + {u});
      SuccessorsFirstExtends(g, s.order, order, w);
    }
  }

  class Search {
    const cfg: Cfg
    const into: Compressor<Inst>
    ghost const prior: seq<Inst>
    ghost const starts: seq<Inst>
    var seen: set<Inst>

    ghost function Snapshot(): State
      reads this, into
    {
      State(seen, into.fromInt)
    }

    ghost predicate Valid(active: set<Inst>)
      reads this, into
    {
      && WellFormedCfg(cfg) && into.Valid() && Inv(cfg.succs, prior, Snapshot(), active)
      && AllLedTo(cfg.succs, starts, prior, Snapshot(), active)
    }

    constructor (cfg: Cfg, into: Compressor<Inst>, ghost starts: seq<Inst>)
      requires WellFormedCfg(cfg) && into.Valid()
      ensures this.cfg == cfg && this.into == into && this.starts == starts && prior == into.fromInt
      ensures Valid({}) && seen == {}
    {
      this.cfg, this.into, this.starts, prior, seen := cfg, into, starts, into.fromInt, {};
      ValidIsDistinct(into);
    }

    ghost function Unseen(): set<Inst>
      reads this
    {
      Range(|cfg.succs|) - seen
    }

    /** Lists inst after everything that is reachable from it and not yet seen. */
    method Visit(inst: Inst, ghost active: set<Inst>)
      requires Valid(active) && inst < |cfg.succs|
      requires forall v: nat :: v in active ==> Reach(cfg.succs, v, inst)
      requires inst in starts || exists w: nat :: w in active && Edge(cfg.succs, w, inst)
      modifies `seen, into
      ensures Valid(active) && Extends(old(Snapshot()), Snapshot()) && inst in seen
      ensures forall v: nat :: v in seen ==> v in old(seen) || Reach(cfg.succs, inst, v)
      decreases Unseen(), 0
    {
      hide Inv, Reach, AllLedTo;
      if inst in seen {
        return;
      }
      RangeSize(|cfg.succs|);
      ReachSelf(cfg.succs, inst);
      Begin(cfg.succs, prior, Snapshot(), active, inst);
      BeginLed(cfg.succs, starts, prior, Snapshot(), active, inst);
      seen := seen + {inst};
      ghost var active' := active + {inst};
      VisitSuccessors(inst, active');
      Finish(cfg.succs, prior, Snapshot(), active, inst);
      FinishLed(cfg.succs, starts, prior, Snapshot(), active, inst);
      var _, _ := into.Insert(inst);
    }

    method VisitSuccessors(inst: Inst, ghost active: set<Inst>)
      requires Valid(active) && inst in active && inst < |cfg.succs|
      requires forall v: nat :: v in active ==> Reach(cfg.succs, v, inst)
      modifies `seen, into
      ensures Valid(active) && Extends(old(Snapshot()), Snapshot())
      ensures forall v: nat :: Edge(cfg.succs, inst, v) ==> v in seen
      ensures forall v: nat :: v in seen ==> v in old(seen) || Reach(cfg.succs, inst, v)
      decreases Unseen(), 2
    {
      hide Inv, Reach, AllLedTo;
      if inst in cfg.uniqueSuccessor {
        VisitSuccessor(inst, cfg.uniqueSuccessor[inst], active);
        return;
      }
      var succs := cfg.succs[inst];
      for i := 0 to |succs|
        invariant Valid(active) && Extends(old(Snapshot()), Snapshot())
        invariant forall k: nat :: k < i ==> succs[k] in seen
        invariant forall v: nat :: v in seen ==> v in old(seen) || Reach(cfg.succs, inst, v)
      {
        VisitSuccessor(inst, succs[i], active);
      }
    }

    method VisitSuccessor(inst: Inst, succ: Inst, ghost active: set<Inst>)
      requires Valid(active) && Edge(cfg.succs, inst, succ) && inst in active
      requires forall v: nat :: v in active ==> Reach(cfg.succs, v, inst)
      modifies `seen, into
      ensures Valid(active) && Extends(old(Snapshot()), Snapshot()) && succ in seen
      ensures forall v: nat :: v in seen ==> v in old(seen) || Reach(cfg.succs, inst, v)
      decreases Unseen(), 1
    {
      hide Inv, Reach, AllLedTo;
      ReachEdge(cfg.succs, inst, succ);
      forall v: nat | v in active
        ensures Reach(cfg.succs, v, succ)
      {
        ReachTrans(cfg.succs, v, inst, succ);
      }
      ghost var before := seen;
      Visit(succ, active);
      forall v: nat | v in seen && v !in before
        ensures Reach(cfg.succs, inst, v)
      {
        ReachTrans(cfg.succs, inst, succ, v);
      }
    }
  }

  /** Iteration runs over the listing from its end to its beginning. */
  function Backwards(q: seq<Inst>): (it: seq<Inst>)
    ensures |it| == |q| && forall i: nat :: i < |q| ==> it[i] == q[|q| - 1 - i]
  {
    seq(|q|, i requires 0 <= i < |q| => q[|q| - 1 - i])
  }

  /** An instruction comes before its successors, except where an edge closes a cycle. Nothing is said about
      instructions that were listed earlier. */
  ghost predicate AlongEdges(g: Graph, prior: seq<Inst>, it: seq<Inst>) {
    forall i: nat, j: nat :: i < |it| && j < |it| && it[i] !in prior && Edge(g, it[i], it[j]) && !Reach(g, it[j], it[i]) ==>
      i < j
  }

  /** Every instruction but the start points comes after one that leads to it, unless that was listed earlier. */
  ghost predicate AfterPredecessors(g: Graph, starts: seq<Inst>, prior: seq<Inst>, it: seq<Inst>) {
    forall j: nat :: j < |it| && it[j] !in prior && it[j] !in starts ==> PredecessorBefore(g, prior, it, j)
  }

  ghost predicate PredecessorBefore(g: Graph, prior: seq<Inst>, it: seq<Inst>, j: nat)
    requires j < |it|
  {
    exists u: nat :: Edge(g, u, it[j]) && (u in prior || exists i: nat :: i < j && it[i] == u)
  }

  lemma SeenIsReached(c: Cfg, starts: seq<Inst>, s: State)
    requires WellFormedCfg(c) && Explored(c.succs, s, {})
    requires forall v: nat :: v in s.seen ==> ReachedFrom(c.succs, starts, v)
    requires forall v: nat :: v in starts ==> v in s.seen
    ensures forall v: nat :: v in s.seen <==> ReachedFrom(c.succs, starts, v)
  {
    forall v: nat | ReachedFrom(c.succs, starts, v)
      ensures v in s.seen
    {
      var st: nat :| st in starts && Reach(c.succs, st, v);
      ReachClosed(c.succs, s.seen, st, v);
    }
  }

  lemma BackwardsIsForward(g: Graph, prior: seq<Inst>, order: seq<Inst>)
    requires Distinct(order)
    requires forall u: nat :: u in order && u !in prior ==> SuccessorsFirst(g, order, u)
    ensures AlongEdges(g, prior, Backwards(order))
  {
    var it := Backwards(order);
    forall i: nat, j: nat | i < |it| && j < |it| && it[i] !in prior && Edge(g, it[i], it[j]) && !Reach(g, it[j], it[i])
      ensures i < j
    {
      var u, v := it[i], it[j];
      assert order[|order| - 1 - i] == u && order[|order| - 1 - j] == v;
      assert SuccessorsFirst(g, order, u);
      var k: nat, l: nat :| k < l < |order| && order[k] == v && order[l] == u;
    }
  }

  lemma LedIsAfter(g: Graph, starts: seq<Inst>, prior: seq<Inst>, s: State)
    requires Distinct(s.order) && AllLedTo(g, starts, prior, s, {})
    ensures AfterPredecessors(g, starts, prior, Backwards(s.order))
  {
    var it := Backwards(s.order);
    forall j: nat | j < |it| && it[j] !in prior && it[j] !in starts
      ensures PredecessorBefore(g, prior, it, j)
    {
      var v := it[j];
      assert s.order[|it| - 1 - j] == v;
      var u: nat :| LeadsTo(g, prior, s.order, {}, u, v);
      if u !in prior {
        var k: nat, l: nat :| k < l < |s.order| && s.order[k] == v && s.order[l] == u;
        assert k == |it| - 1 - j;
        assert it[|it| - 1 - l] == u;
      }
    }
  }

  lemma BackwardsMembers(q: seq<Inst>)
    requires Distinct(q)
    ensures Distinct(Backwards(q)) && forall v: nat :: v in Backwards(q) <==> v in q
  {
    var it := Backwards(q);
    forall v: nat | v in q
      ensures v in it
    {
      var i: nat :| i < |q| && q[i] == v;
      assert it[|q| - 1 - i] == v;
    }
  }

  /** The iteration visits what had been listed before and what the start points reach, each instruction once, along
      the edges and not without a predecessor. */
  ghost predicate IsOrderOf(g: Graph, starts: seq<Inst>, prior: seq<Inst>, it: seq<Inst>) {
    && Distinct(it) && (forall v: nat :: v in it <==> v in prior || ReachedFrom(g, starts, v))
    && AlongEdges(g, prior, it) && AfterPredecessors(g, starts, prior, it)
  }

  /** Lists what the start points reach behind what has been listed before. */
  method ComputeCfgOrder(into: Compressor<Inst>, c: Cfg, starts: seq<Inst>)
    requires WellFormedCfg(c) && into.Valid() && forall s: nat :: s in starts ==> s < |c.succs|
    modifies into
    ensures into.Valid() && old(into.fromInt) <= into.fromInt
    ensures IsOrderOf(c.succs, starts, old(into.fromInt), Backwards(into.fromInt))
  {
    hide Backwards, AlongEdges, AfterPredecessors, Reach;
    var search := new Search(c, into, starts);
    for i := 0 to |starts|
      invariant fresh(search) && search.into == into && search.cfg == c && search.starts == starts && search.prior == old(into.fromInt)
      invariant search.Valid({})
      invariant forall k: nat :: k < i ==> starts[k] in search.seen
      invariant forall v: nat :: v in search.seen ==> ReachedFrom(c.succs, starts, v)
    {
      assert starts[i] in starts;
      search.Visit(starts[i], {});
    }
    SeenIsReached(c, starts, search.Snapshot());
    BackwardsIsForward(c.succs, old(into.fromInt), into.fromInt);
    BackwardsMembers(into.fromInt);
    LedIsAfter(c.succs, starts, old(into.fromInt), search.Snapshot());
  }

  /** The loop over all instructions, from the last one listed to the first one. */
  method Iterate(order: Compressor<Inst>) returns (it: seq<Inst>)
    ensures |it| == |order.fromInt| && forall i: nat :: i < |it| ==> it[i] == order.fromInt[|it| - 1 - i]
  {
    it := [];
    for i := |order.fromInt| downto 0
      invariant |it| == |order.fromInt| - i && forall k: nat :: k < |it| ==> it[k] == order.fromInt[|order.fromInt| - 1 - k]
    {
      it := it + [order.fromInt[i]];
    }
  }

  /** From a control-flow graph to the loop over its instructions. */
  method IterateCfg(c: Cfg, starts: seq<Inst>) returns (it: seq<Inst>)
    requires WellFormedCfg(c) && forall s: nat :: s in starts ==> s < |c.succs|
    ensures forall i: nat, j: nat :: i < j < |it| ==> it[i] != it[j]
    ensures forall v: nat :: v in it <==> exists s: nat :: s in starts && Reach(c.succs, s, v)
    ensures forall i: nat, j: nat :: i < |it| && j < |it| && it[i] < |c.succs| && it[j] in c.succs[it[i]] ==>
              i < j || Reach(c.succs, it[j], it[i])
    ensures forall j: nat :: j < |it| && it[j] !in starts ==>
              exists i: nat :: i < j && it[i] < |c.succs| && it[j] in c.succs[it[i]]
  {
    hide Reach;
    var order := new Compressor<Inst>();
    ComputeCfgOrder(order, c, starts);
    it := Iterate(order);
    assert it == Backwards(order.fromInt);
    forall v: nat
      ensures v in it <==> exists s: nat :: s in starts && Reach(c.succs, s, v)
    {
      assert v in it <==> ReachedFrom(c.succs, starts, v);
    }
    forall i: nat, j: nat | i < |it| && j < |it| && it[i] < |c.succs| && it[j] in c.succs[it[i]]
      ensures i < j || Reach(c.succs, it[j], it[i])
    {
      assert Edge(c.succs, it[i], it[j]);
    }
    forall j: nat | j < |it| && it[j] !in starts
      ensures exists i: nat :: i < j && it[i] < |c.succs| && it[j] in c.succs[it[i]]
    {
      assert PredecessorBefore(c.succs, [], it, j);
      var u: nat :| Edge(c.succs, u, it[j]) && exists i: nat :: i < j && it[i] == u;
    }
  }
}
