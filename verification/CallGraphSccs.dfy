/** The strongly connected components of a call graph: the recursive depth-first search with
    discovery times, low links and an explicit stack that emits callees before their callers. */
module CallGraphSccs {
  import opened Graphs
  import opened Sequences

  type FunctionId = nat
  type CallSite = nat
  type SccId = nat

  /** Marks a function that has no discovery time yet. */
  const UNSEEN: nat := 0xFFFF_FFFF

  datatype Inst = Inst(id: CallSite, isCallSite: bool)

  /** What the search sees of the program: the instructions of each function and, per call site, the ids
      of its callees. A call site without an entry has no callees. */
  datatype Program = Program(insts: seq<seq<Inst>>, calleesAt: map<CallSite, seq<FunctionId>>) {
    function CalleesOfCallAt(cs: CallSite): seq<FunctionId> {
      if cs in calleesAt then calleesAt[cs] else []
    }

    function CalleesOfInst(i: Inst): seq<FunctionId> {
      if i.isCallSite then CalleesOfCallAt(i.id) else []
    }

    function CalleesOfInsts(code: seq<Inst>): seq<FunctionId> {
      if code == [] then [] else CalleesOfInsts(code[..|code| - 1]) + CalleesOfInst(code[|code| - 1])
    }

    /** The forward call edges, caller to callee. */
    function Calls(): Graph {
      seq(|insts|, f requires 0 <= f < |insts| => CalleesOfInsts(insts[f]))
    }
  }

  lemma {:induction false} CalleesInCode(p: Program, code: seq<Inst>, k: FunctionId)
    ensures k in p.CalleesOfInsts(code) <==>
            exists i: nat, j: nat :: i < |code| && code[i].isCallSite && code[i].id in p.calleesAt &&
                                     j < |p.calleesAt[code[i].id]| && p.calleesAt[code[i].id][j] == k
  {
    if code != [] {
      var init, last := code[..|code| - 1], code[|code| - 1];
      CalleesInCode(p, init, k);
      if k in p.CalleesOfInst(last) {
        var j: nat :| j < |p.calleesAt[last.id]| && p.calleesAt[last.id][j] == k;
        assert code[|code| - 1].isCallSite;
      }
      assert forall i: nat :: i < |init| ==> init[i] == code[i];
    }
  }

  lemma CallsOfProgram(p: Program)
    ensures |p.Calls()| == |p.insts| && forall f: nat, k: nat :: Edge(p.Calls(), f, k) <==>
              exists i: nat, j: nat :: f < |p.insts| && i < |p.insts[f]| && p.insts[f][i].isCallSite && p.insts[f][i].id in p.calleesAt &&
                                       j < |p.calleesAt[p.insts[f][i].id]| && p.calleesAt[p.insts[f][i].id][j] == k
  {
    forall f: nat, k: nat
      ensures Edge(p.Calls(), f, k) <==>
              exists i: nat, j: nat :: f < |p.insts| && i < |p.insts[f]| && p.insts[f][i].isCallSite && p.insts[f][i].id in p.calleesAt &&
                                       j < |p.calleesAt[p.insts[f][i].id]| && p.calleesAt[p.insts[f][i].id][j] == k
    {
      CallsExactly(p, f, k);
    }
  }

  /** There is a call edge for every callee of every call site in the code of a function, and no other one. */
  lemma CallsExactly(p: Program, f: FunctionId, k: FunctionId)
    ensures |p.Calls()| == |p.insts|
    ensures Edge(p.Calls(), f, k) <==>
            exists i: nat, j: nat :: f < |p.insts| && i < |p.insts[f]| && p.insts[f][i].isCallSite && p.insts[f][i].id in p.calleesAt &&
                                     j < |p.calleesAt[p.insts[f][i].id]| && p.calleesAt[p.insts[f][i].id][j] == k
  {
    if f < |p.insts| {
      CalleesInCode(p, p.insts[f], k);
    }
  }

  datatype SccHolder = SccHolder(sccOfNode: seq<SccId>, nodesInScc: seq<seq<FunctionId>>)

  /** The lists contain exactly the given vertices, each one once, under the component that sccOf names;
      no list is empty. */
  ghost predicate Listed(vertices: set<nat>, sccOf: seq<nat>, lists: seq<seq<nat>>) {
    && (forall v: nat :: v in vertices ==> v < |sccOf| && sccOf[v] < |lists| && v in lists[sccOf[v]])
    && (forall k: nat, v: nat :: k < |lists| && v in lists[k] ==> v in vertices && sccOf[v] == k)
    && (forall k: nat :: k < |lists| ==> lists[k] != [] && Distinct(lists[k]))
  }

  /** Every one of the n functions is in exactly one component, and both views of the partition agree. */
  ghost predicate IsPartition(n: nat, h: SccHolder) {
    |h.sccOfNode| == n && Listed(Range(n), h.sccOfNode, h.nodesInScc)
  }

  /** Two functions share a component if and only if each can reach the other. */
  ghost predicate AreComponents(g: Graph, h: SccHolder) {
    && |h.sccOfNode| == |g|
    && forall u: nat, v: nat :: 0 <= u < |g| && 0 <= v < |g| ==> (h.sccOfNode[u] == h.sccOfNode[v] <==> Mutual(g, u, v))
  }

  /** No call leads to a component with a greater id: ascending ids list callees first. */
  ghost predicate CalleesFirst(g: Graph, h: SccHolder) {
    && |h.sccOfNode| == |g|
    && forall u: nat, v: nat :: Edge(g, u, v) && v < |g| ==> h.sccOfNode[v] <= h.sccOfNode[u]
  }

  /** A snapshot of the search between two of its steps. */
  datatype State = State(disc: seq<nat>, stack: seq<nat>, closed: set<nat>, time: nat,
                         sccOf: seq<nat>, comps: seq<seq<nat>>) {
    predicate Visited(v: nat) {
      v < |disc| && disc[v] != UNSEEN
    }

    ghost function VisitedSet(): set<nat> {
      set v: nat | v < |disc| && Visited(v)
    }

    ghost function Unvisited(): set<nat> {
      set v: nat | v < |disc| && !Visited(v)
    }

    function OnStack(): set<nat> {
      set v | v in stack
    }
  }

  ghost predicate Shape(g: Graph, s: State) {
    && WellFormed(g)
    && |s.disc| == |s.sccOf| == |g| <= UNSEEN
    && s.time == |s.VisitedSet()|
    && (forall v: nat :: s.Visited(v) ==> s.disc[v] < s.time)
    && (forall i: nat :: 0 <= i < |s.stack| ==> s.Visited(s.stack[i]))
    && (forall i: nat, j: nat :: 0 <= i < j < |s.stack| ==> s.disc[s.stack[i]] < s.disc[s.stack[j]])
    && (forall v: nat :: s.Visited(v) <==> v in s.stack || v in s.closed)
    && (forall v: nat :: v in s.closed ==> v !in s.stack)
  }

  ghost predicate Exact(g: Graph, closed: set<nat>, sccOf: seq<nat>) {
    && (forall v: nat :: v in closed ==> v < |sccOf|)
    && (forall u: nat, v: nat :: u in closed && v in closed ==> (sccOf[u] == sccOf[v] <==> Mutual(g, u, v)))
  }

  /** The components emitted so far are exact on the closed vertices and numbered callees first. */
  ghost predicate Emitted(g: Graph, closed: set<nat>, sccOf: seq<nat>, comps: seq<seq<nat>>) {
    && ClosedUnder(g, closed)
    && Listed(closed, sccOf, comps)
    && Exact(g, closed, sccOf)
    && (forall u: nat, v: nat :: u in closed && Edge(g, u, v) ==> sccOf[v] <= sccOf[u])
  }

  /** v reaches an active call that is no younger than itself. */
  ghost predicate Anchored(g: Graph, s: State, gray: set<nat>, v: nat)
    requires Shape(g, s) && v in s.stack
  {
    exists u: nat :: u in gray && s.Visited(u) && s.disc[u] <= s.disc[v] && Reach(g, v, u)
  }

  ghost predicate AllAnchored(g: Graph, s: State, gray: set<nat>)
    requires Shape(g, s)
  {
    forall v: nat {:trigger Anchored(g, s, gray, v)} :: v in s.stack ==> Anchored(g, s, gray, v)
  }

  /** Finished vertices have no undiscovered successor. */
  ghost predicate BlackDone(g: Graph, s: State, gray: set<nat>) {
    forall u: nat, v: nat :: s.Visited(u) && u !in gray && Edge(g, u, v) ==> s.Visited(v)
  }

  /** An active call reaches everything stacked after it. */
  ghost predicate GrayReaches(g: Graph, s: State, gray: set<nat>)
    requires Shape(g, s)
  {
    && (forall v: nat :: v in gray ==> v in s.stack)
    && (forall u: nat, v: nat :: u in gray && v in s.stack && s.disc[u] <= s.disc[v] ==> Reach(g, u, v))
  }

  /** How the active calls (the gray vertices) hang together with the stack. */
  ghost predicate Linked(g: Graph, s: State, gray: set<nat>)
    requires Shape(g, s)
  {
    GrayReaches(g, s, gray) && BlackDone(g, s, gray) && AllAnchored(g, s, gray)
  }

  ghost predicate Inv(g: Graph, s: State, gray: set<nat>) {
    Shape(g, s) && Emitted(g, s.closed, s.sccOf, s.comps) && Linked(g, s, gray)
  }

  /** t continues s: nothing that s knows is forgotten or changed. */
  ghost predicate Extends(s: State, t: State) {
    && |s.disc| == |t.disc| && |s.sccOf| == |t.sccOf|
    && (forall v: nat :: s.Visited(v) ==> t.Visited(v) && t.disc[v] == s.disc[v])
    && (forall v: nat :: t.Visited(v) && !s.Visited(v) ==> t.disc[v] >= s.time)
    && s.time <= t.time
    && s.closed <= t.closed
    && s.stack <= t.stack
  }

  /** low bounds every edge from the part of the stack at or above position `from` into its lower part. */
  ghost predicate Bounds(g: Graph, s: State, from: nat, base: nat, low: nat)
    requires Shape(g, s)
  {
    forall i: nat, m: nat :: from <= i < |s.stack| && 0 <= m < base <= |s.stack| && Edge(g, s.stack[i], s.stack[m]) ==>
      low <= s.disc[s.stack[m]]
  }

  /** The value low is the discovery time of a stacked vertex that curr reaches. */
  ghost predicate Witnessed(g: Graph, s: State, curr: nat, low: nat)
    requires Shape(g, s)
  {
    exists y: nat :: y in s.stack && s.disc[y] == low && Reach(g, curr, y)
  }

  /** The callees looked at so far; those on the stack are not younger than low allows. */
  ghost predicate Looked(s: State, low: nat, done: set<nat>) {
    forall w: nat :: w in done ==> s.Visited(w) && (w in s.stack ==> low <= s.disc[w])
  }

  /** The loop over the callees of curr; s0 is the state in which curr was entered and done the callees
      looked at so far. */
  ghost predicate Exploring(g: Graph, s0: State, s: State, gray: set<nat>, curr: nat, low: nat, done: set<nat>)
    requires Shape(g, s)
  {
    && Extends(s0, s)
    && |s0.stack| < |s.stack| && s.stack[|s0.stack|] == curr
    && (forall v: nat :: v in gray ==> v in s0.stack)
    && low <= s.disc[curr]
    && Witnessed(g, s, curr, low)
    && Bounds(g, s, |s0.stack| + 1, |s0.stack|, low)
    && Looked(s, low, done)
  }

  /** What one call of the search guarantees about curr when it returns. */
  ghost predicate Explored(g: Graph, s0: State, s: State, curr: nat, low: nat)
    requires Shape(g, s)
  {
    && Extends(s0, s)
    && s.Visited(curr) && !s0.Visited(curr)
    && Bounds(g, s, |s0.stack|, |s0.stack|, low)
    && (curr in s.stack ==> exists y: nat :: y in s0.stack && s.disc[y] == low && Reach(g, curr, y))
    && (curr !in s.stack ==> low == s.disc[curr])
  }

  ghost predicate CanEnter(g: Graph, s: State, gray: set<nat>, v: nat) {
    && Inv(g, s, gray)
    && v < |g| && !s.Visited(v)
    && forall u: nat :: u in gray ==> Reach(g, u, v)
  }

  function Enter(s: State, v: nat): State
    requires v < |s.disc|
  {
    s.(disc := s.disc[v := s.time], stack := s.stack + [v], time := s.time + 1)
  }

  lemma EnterTime(g: Graph, s: State, v: nat)
    requires |s.disc| == |g| <= UNSEEN && s.time == |s.VisitedSet()| && v < |g| && !s.Visited(v)
    ensures s.time < |g|
    ensures Enter(s, v).VisitedSet() == s.VisitedSet() + {v}
    ensures Enter(s, v).time == |Enter(s, v).VisitedSet()|
  {
    RangeSize(|g|);
    SubsetSize(s.VisitedSet() + {v}, Range(|g|));
    assert forall u: nat :: Enter(s, v).Visited(u) <==> s.Visited(u) || u == v;
    assert Enter(s, v).VisitedSet() == s.VisitedSet() + {v};
  }

  lemma EnterShape(g: Graph, s: State, v: nat)
    requires Shape(g, s) && v < |g| && !s.Visited(v)
    ensures s.time < UNSEEN
    ensures Shape(g, Enter(s, v)) && Extends(s, Enter(s, v))
    ensures forall u: nat :: Enter(s, v).Visited(u) <==> s.Visited(u) || u == v
  {
    hide WellFormed, State.VisitedSet;
    EnterTime(g, s, v);
    var t := Enter(s, v);
    assert forall u: nat :: t.Visited(u) <==> s.Visited(u) || u == v;
    assert forall x: nat :: x in t.stack <==> x in s.stack || x == v;
  }

  lemma EnterGrayReaches(g: Graph, s: State, gray: set<nat>, v: nat)
    requires Shape(g, s) && GrayReaches(g, s, gray) && v < |g| && !s.Visited(v)
    requires forall u: nat :: u in gray ==> Reach(g, u, v)
    requires Shape(g, Enter(s, v))
    ensures GrayReaches(g, Enter(s, v), gray + {v})
  {
    var t := Enter(s, v);
    ReachSelf(g, v);
    assert forall x: nat :: x in t.stack <==> x in s.stack || x == v;
    forall u: nat, x: nat | u in gray + {v} && x in t.stack && t.disc[u] <= t.disc[x]
      ensures Reach(g, u, x)
    {
      if u == v {
        assert x == v;
      } else {
        assert x == v || s.disc[u] <= s.disc[x];
      }
    }
  }

  lemma EnterAnchored(g: Graph, s: State, gray: set<nat>, v: nat)
    requires Shape(g, s) && AllAnchored(g, s, gray) && v < |g| && !s.Visited(v)
    requires Shape(g, Enter(s, v))
    ensures AllAnchored(g, Enter(s, v), gray + {v})
  {
    var t, gray' := Enter(s, v), gray + {v};
    ReachSelf(g, v);
    assert v in t.stack && t.Visited(v);
    assert forall x: nat :: x in t.stack <==> x in s.stack || x == v;
    forall x: nat | x in t.stack
      ensures Anchored(g, t, gray', x)
    {
      if x == v {
        assert v in gray' && Reach(g, v, v);
      } else {
        assert Anchored(g, s, gray, x);
        var u: nat :| u in gray && s.Visited(u) && s.disc[u] <= s.disc[x] && Reach(g, x, u);
        assert u in gray' && t.Visited(u);
      }
    }
  }

  lemma EnterKeeps(g: Graph, s: State, gray: set<nat>, v: nat)
    requires CanEnter(g, s, gray, v)
    ensures s.time < UNSEEN
    ensures Inv(g, Enter(s, v), gray + {v}) && Exploring(g, s, Enter(s, v), gray, v, s.time, {})
  {
    EnterShape(g, s, v);
    EnterGrayReaches(g, s, gray, v);
    EnterAnchored(g, s, gray, v);
    ReachSelf(g, v);
    assert Enter(s, v).stack[|s.stack|] == v;
  }

  /** A callee without discovery time may be entered. */
  lemma TreeEdge(g: Graph, s: State, gray: set<nat>, curr: nat, w: nat)
    requires Inv(g, s, gray) && curr in gray
    requires forall u: nat :: u in gray ==> u in s.stack && s.disc[u] <= s.disc[curr]
    requires Edge(g, curr, w) && !s.Visited(w)
    ensures CanEnter(g, s, gray, w)
  {
    ReachEdge(g, curr, w);
    forall u: nat | u in gray
      ensures Reach(g, u, w)
    {
      ReachTrans(g, u, curr, w);
    }
  }

  lemma CurrIsYoungest(g: Graph, s0: State, s: State, gray: set<nat>, curr: nat)
    requires Shape(g, s) && Extends(s0, s)
    requires |s0.stack| < |s.stack| && s.stack[|s0.stack|] == curr
    requires forall v: nat :: v in gray ==> v in s0.stack
    ensures forall u: nat :: u in gray + {curr} ==> u in s.stack && s.disc[u] <= s.disc[curr]
  {
    forall u: nat | u in gray
      ensures u in s.stack && s.disc[u] < s.disc[curr]
    {
      var i: nat :| i < |s0.stack| && s0.stack[i] == u;
      assert s.stack[i] == u;
    }
  }

  lemma TreeEdgeWitness(g: Graph, s: State, t: State, curr: nat, low: nat, w: nat, lowW: nat)
    requires Shape(g, s) && Shape(g, t) && Extends(s, t)
    requires curr in s.stack && low <= s.disc[curr] && Edge(g, curr, w)
    requires t.Visited(w) && !s.Visited(w)
    requires w in t.stack ==> exists y: nat :: y in s.stack && t.disc[y] == lowW && Reach(g, w, y)
    requires w !in t.stack ==> lowW == t.disc[w]
    requires Witnessed(g, s, curr, low)
    ensures Witnessed(g, t, curr, Min(low, lowW))
    ensures w in t.stack ==> lowW <= t.disc[w]
  {
    if w in t.stack {
      var y: nat :| y in s.stack && t.disc[y] == lowW && Reach(g, w, y);
      ReachEdge(g, curr, w);
      ReachTrans(g, curr, w, y);
      assert y in t.stack && s.Visited(y);
    }
    if lowW >= low {
      var y: nat :| y in s.stack && s.disc[y] == low && Reach(g, curr, y);
      assert y in t.stack;
    }
  }

  lemma TreeEdgeBounds(g: Graph, s: State, t: State, base: nat, low: nat, lowW: nat)
    requires Shape(g, s) && Shape(g, t) && Extends(s, t) && base < |s.stack|
    requires Bounds(g, s, base + 1, base, low) && Bounds(g, t, |s.stack|, |s.stack|, lowW)
    ensures Bounds(g, t, base + 1, base, Min(low, lowW))
  {
    forall i: nat, m: nat | base + 1 <= i < |t.stack| && m < base && Edge(g, t.stack[i], t.stack[m])
      ensures low <= t.disc[t.stack[m]] || lowW <= t.disc[t.stack[m]]
    {
      assert t.stack[m] == s.stack[m];
      if i < |s.stack| {
        assert t.stack[i] == s.stack[i];
        assert Edge(g, s.stack[i], s.stack[m]);
      }
    }
  }

  lemma ExtendsTrans(r: State, s: State, t: State)
    requires Extends(r, s) && Extends(s, t)
    ensures Extends(r, t)
  {
  }

  lemma LookedExtends(g: Graph, s: State, t: State, low: nat, done: set<nat>, low': nat, w: nat)
    requires Shape(g, s) && Shape(g, t) && Extends(s, t) && Looked(s, low, done)
    requires low' <= low && t.Visited(w) && (w in t.stack ==> low' <= t.disc[w])
    ensures Looked(t, low', done + {w})
  {
    forall x: nat | x in done && x in t.stack
      ensures low <= t.disc[x]
    {
      assert s.Visited(x) && x !in s.closed;
    }
  }

  function Min(a: nat, b: nat): nat {
    if b < a then b else a
  }

  lemma AfterTreeEdge(g: Graph, s0: State, s: State, t: State, gray: set<nat>, curr: nat, low: nat, done: set<nat>,
                      w: nat, lowW: nat)
    requires Shape(g, s) && Shape(g, t)
    requires Exploring(g, s0, s, gray, curr, low, done)
    requires Edge(g, curr, w)
    requires Explored(g, s, t, w, lowW)
    ensures Exploring(g, s0, t, gray, curr, Min(low, lowW), done + {w})
  {
    hide Shape, Bounds, Witnessed, Looked, Reach, Edge;
    StackedIsVisited(g, s, |s0.stack|);
    TreeEdgeWitness(g, s, t, curr, low, w, lowW);
    TreeEdgeBounds(g, s, t, |s0.stack|, low, lowW);
    LookedExtends(g, s, t, low, done, Min(low, lowW), w);
    ExtendsTrans(s0, s, t);
    assert t.stack[|s0.stack|] == s.stack[|s0.stack|];
  }

  lemma AfterBackEdge(g: Graph, s0: State, s: State, gray: set<nat>, curr: nat, low: nat, done: set<nat>, w: nat)
    requires Shape(g, s)
    requires Exploring(g, s0, s, gray, curr, low, done)
    requires Edge(g, curr, w) && s.Visited(w)
    ensures Exploring(g, s0, s, gray, curr, if w in s.stack then Min(low, s.disc[w]) else low, done + {w})
  {
    ReachEdge(g, curr, w);
  }

  /** All callees of curr have been looked at. */
  ghost predicate Finished(g: Graph, curr: nat, done: set<nat>) {
    forall w: nat :: Edge(g, curr, w) ==> w in done
  }

  lemma ReanchorBelow(g: Graph, s: State, gray: set<nat>, curr: nat, x: nat)
    requires Shape(g, s) && x in s.stack && curr in s.stack
    requires Anchored(g, s, gray + {curr}, x) && s.disc[x] < s.disc[curr]
    ensures Anchored(g, s, gray, x)
  {
    var u: nat :| u in gray + {curr} && s.Visited(u) && s.disc[u] <= s.disc[x] && Reach(g, x, u);
    assert u in gray;
  }

  /** When the low link points below curr, curr stays on the stack and an older active call takes its place. */
  lemma LeaveAnchored(g: Graph, s: State, gray: set<nat>, curr: nat, low: nat, x: nat)
    requires Shape(g, s) && AllAnchored(g, s, gray + {curr}) && Witnessed(g, s, curr, low)
    requires curr in s.stack && low < s.disc[curr] && x in s.stack
    ensures Anchored(g, s, gray, x)
  {
    var y: nat :| y in s.stack && s.disc[y] == low && Reach(g, curr, y);
    assert Anchored(g, s, gray + {curr}, y);
    ReanchorBelow(g, s, gray, curr, y);
    var a: nat :| a in gray && s.Visited(a) && s.disc[a] <= s.disc[y] && Reach(g, y, a);
    ReachTrans(g, curr, y, a);
    assert Anchored(g, s, gray + {curr}, x);
    var u: nat :| u in gray + {curr} && s.Visited(u) && s.disc[u] <= s.disc[x] && Reach(g, x, u);
    if u == curr {
      ReachTrans(g, x, curr, a);
    }
  }

  lemma CurrTurnsBlack(g: Graph, s: State, gray: set<nat>, curr: nat, low: nat, done: set<nat>)
    requires BlackDone(g, s, gray + {curr}) && Looked(s, low, done) && Finished(g, curr, done)
    ensures BlackDone(g, s, gray)
  {
  }

  lemma LeaveLinked(g: Graph, s: State, gray: set<nat>, curr: nat, low: nat, done: set<nat>)
    requires Shape(g, s) && Linked(g, s, gray + {curr}) && Witnessed(g, s, curr, low) && Looked(s, low, done)
    requires curr in s.stack && low < s.disc[curr]
    requires Finished(g, curr, done)
    ensures Linked(g, s, gray)
  {
    CurrTurnsBlack(g, s, gray, curr, low, done);
    assert AllAnchored(g, s, gray) by {
      forall x: nat | x in s.stack
        ensures Anchored(g, s, gray, x)
      {
        LeaveAnchored(g, s, gray, curr, low, x);
      }
    }
  }

  lemma LeaveBounds(g: Graph, s: State, base: nat, low: nat, done: set<nat>)
    requires Shape(g, s) && base < |s.stack| && Bounds(g, s, base + 1, base, low) && Looked(s, low, done)
    requires Finished(g, s.stack[base], done)
    ensures Bounds(g, s, base, base, low)
  {
    forall i: nat, m: nat | base <= i < |s.stack| && m < base && Edge(g, s.stack[i], s.stack[m])
      ensures low <= s.disc[s.stack[m]]
    {
    }
  }

  lemma LeaveExplored(g: Graph, s0: State, s: State, gray: set<nat>, curr: nat, low: nat, done: set<nat>)
    requires Shape(g, s) && Exploring(g, s0, s, gray, curr, low, done) && !s0.Visited(curr)
    requires Finished(g, curr, done) && low < s.disc[curr]
    ensures Explored(g, s0, s, curr, low)
  {
    var base := |s0.stack|;
    assert curr in s.stack;
    LeaveBounds(g, s, base, low, done);
    var y: nat :| y in s.stack && s.disc[y] == low && Reach(g, curr, y);
    var k: nat :| k < |s.stack| && s.stack[k] == y;
    assert k < base;
    assert s0.stack[k] == y;
  }

  /** The segment of the stack from curr upwards becomes the next component, youngest vertex first. */
  function Emit(s: State, base: nat): State
    requires base <= |s.stack|
  {
    var seg := s.stack[base..];
    s.(stack := s.stack[..base],
       closed := s.closed + Elems(seg),
       sccOf := Assign(s.sccOf, seg, |s.comps|),
       comps := s.comps + [Reversed(seg)])
  }

  function Assign(sccOf: seq<nat>, fs: seq<nat>, scc: SccId): (r: seq<nat>)
    ensures |r| == |sccOf|
  {
    seq(|sccOf|, v requires 0 <= v < |sccOf| => if v in fs then scc else sccOf[v])
  }

  function Reversed(q: seq<nat>): seq<nat> {
    seq(|q|, i requires 0 <= i < |q| => q[|q| - 1 - i])
  }

  /** The stack from curr upwards is one component: mutually reachable, and left only into closed vertices. */
  ghost predicate IsComponent(g: Graph, s: State, base: nat) {
    && base < |s.stack|
    && (forall x: nat :: x in s.stack[base..] ==> Mutual(g, x, s.stack[base]))
    && (forall x: nat, w: nat :: x in s.stack[base..] && Edge(g, x, w) ==> w in s.stack[base..] || w in s.closed)
  }

  lemma SegmentMutual(g: Graph, s: State, gray: set<nat>, curr: nat, x: nat)
    requires Shape(g, s) && GrayReaches(g, s, gray + {curr}) && AllAnchored(g, s, gray + {curr})
    requires forall u: nat :: u in gray + {curr} ==> u in s.stack && s.disc[u] <= s.disc[curr]
    requires x in s.stack && s.disc[curr] <= s.disc[x]
    ensures Mutual(g, x, curr)
  {
    assert curr in gray + {curr};
    assert Anchored(g, s, gray + {curr}, x);
    var u: nat :| u in gray + {curr} && s.Visited(u) && s.disc[u] <= s.disc[x] && Reach(g, x, u);
    assert Reach(g, u, curr);
    ReachTrans(g, x, u, curr);
  }

  lemma SegmentLeavesToClosed(g: Graph, s: State, gray: set<nat>, base: nat, done: set<nat>, i: nat, w: nat)
    requires Shape(g, s) && base <= i < |s.stack| && BlackDone(g, s, gray)
    requires Bounds(g, s, base + 1, base, s.disc[s.stack[base]]) && Looked(s, s.disc[s.stack[base]], done)
    requires i == base ==> Finished(g, s.stack[base], done)
    requires s.stack[i] !in gray
    requires Edge(g, s.stack[i], w)
    ensures w in s.stack[base..] || w in s.closed
  {
    assert s.Visited(w);
    if w in s.stack {
      var m: nat :| m < |s.stack| && s.stack[m] == w;
      assert m >= base;
      assert s.stack[base..][m - base] == w;
    }
  }

  lemma SegmentIndex(q: seq<nat>, base: nat, x: nat) returns (i: nat)
    requires base <= |q| && x in q[base..]
    ensures base <= i < |q| && q[i] == x
  {
    i :| i < |q| - base && q[base..][i] == x;
    i := base + i;
  }

  lemma SegmentIsComponent(g: Graph, s: State, gray: set<nat>, base: nat, done: set<nat>)
    requires Shape(g, s) && base < |s.stack| && Linked(g, s, gray + {s.stack[base]})
    requires forall u: nat :: u in gray + {s.stack[base]} ==> u in s.stack && s.disc[u] <= s.disc[s.stack[base]]
    requires s.stack[base] !in gray
    requires Bounds(g, s, base + 1, base, s.disc[s.stack[base]]) && Looked(s, s.disc[s.stack[base]], done)
    requires Finished(g, s.stack[base], done)
    ensures IsComponent(g, s, base)
  {
    var curr := s.stack[base];
    CurrTurnsBlack(g, s, gray, curr, s.disc[curr], done);
    forall x: nat | x in s.stack[base..]
      ensures Mutual(g, x, curr)
    {
      var i := SegmentIndex(s.stack, base, x);
      SegmentMutual(g, s, gray, curr, x);
    }
    forall x: nat, w: nat | x in s.stack[base..] && Edge(g, x, w)
      ensures w in s.stack[base..] || w in s.closed
    {
      var i := SegmentIndex(s.stack, base, x);
      SegmentLeavesToClosed(g, s, gray, base, done, i, w);
    }
  }

  lemma EmitShape(g: Graph, s: State, base: nat)
    requires Shape(g, s) && base <= |s.stack|
    ensures Shape(g, Emit(s, base))
  {
    var t := Emit(s, base);
    StackSplit(s.stack, base);
    forall v: nat | v in t.closed
      ensures v !in t.stack
    {
    }
    assert t.VisitedSet() == s.VisitedSet();
  }

  lemma StackSplit(q: seq<nat>, base: nat)
    requires base <= |q|
    ensures forall v: nat :: v in q <==> v in q[..base] || v in q[base..]
  {
    assert q == q[..base] + q[base..];
  }

  lemma ReversedMembers(q: seq<nat>)
    requires Distinct(q)
    ensures forall v: nat :: v in Reversed(q) <==> v in q
    ensures Distinct(Reversed(q))
  {
    var r := Reversed(q);
    forall v: nat | v in q
      ensures v in r
    {
      var i: nat :| i < |q| && q[i] == v;
      assert r[|q| - 1 - i] == v;
    }
  }

  /** Vertices of the new component and closed vertices are never mutually reachable. */
  lemma ComponentIsApart(g: Graph, s: State, base: nat, u: nat, v: nat)
    requires ClosedUnder(g, s.closed)
    requires u in s.closed && v !in s.closed
    ensures !Mutual(g, u, v)
  {
    if Reach(g, u, v) {
      ReachClosed(g, s.closed, u, v);
    }
  }

  lemma EmitListed(g: Graph, s: State, base: nat)
    requires Shape(g, s) && Listed(s.closed, s.sccOf, s.comps) && base < |s.stack|
    ensures Listed(Emit(s, base).closed, Emit(s, base).sccOf, Emit(s, base).comps)
  {
    var seg := s.stack[base..];
    assert forall v: nat :: v in seg ==> v in s.stack;
    ReversedMembers(seg);
    AddList(s.closed, s.sccOf, s.comps, Reversed(seg), Emit(s, base).closed, Emit(s, base).sccOf);
  }

  lemma AddList(vertices: set<nat>, sccOf: seq<nat>, lists: seq<seq<nat>>, added: seq<nat>,
                vertices': set<nat>, sccOf': seq<nat>)
    requires Listed(vertices, sccOf, lists) && added != [] && Distinct(added)
    requires |sccOf'| == |sccOf|
    requires forall v: nat :: v in added ==> v !in vertices && v < |sccOf| && sccOf'[v] == |lists|
    requires forall v: nat :: v in vertices ==> sccOf'[v] == sccOf[v]
    requires forall v: nat :: v in vertices' <==> v in vertices || v in added
    ensures Listed(vertices', sccOf', lists + [added])
  {
  }

  lemma EmitExact(g: Graph, s: State, base: nat)
    requires Shape(g, s) && Listed(s.closed, s.sccOf, s.comps) && Exact(g, s.closed, s.sccOf)
    requires ClosedUnder(g, s.closed) && IsComponent(g, s, base)
    ensures Exact(g, Emit(s, base).closed, Emit(s, base).sccOf)
  {
    var t := Emit(s, base);
    var seg, curr := s.stack[base..], s.stack[base];
    assert forall v: nat :: v in seg ==> v in s.stack;
    forall u: nat, v: nat | u in t.closed && v in t.closed
      ensures t.sccOf[u] == t.sccOf[v] <==> Mutual(g, u, v)
    {
      if u in seg && v in seg {
        ReachTrans(g, u, curr, v);
        ReachTrans(g, v, curr, u);
      } else if u in seg {
        ComponentIsApart(g, s, base, v, u);
      } else if v in seg {
        ComponentIsApart(g, s, base, u, v);
      }
    }
  }

  lemma EmitEmitted(g: Graph, s: State, base: nat)
    requires Shape(g, s) && Emitted(g, s.closed, s.sccOf, s.comps) && IsComponent(g, s, base)
    ensures Emitted(g, Emit(s, base).closed, Emit(s, base).sccOf, Emit(s, base).comps)
  {
    EmitListed(g, s, base);
    EmitExact(g, s, base);
    assert forall v: nat :: v in s.stack[base..] ==> v in s.stack;
  }

  lemma EmitAnchored(g: Graph, s: State, gray: set<nat>, base: nat, x: nat)
    requires Shape(g, s) && base < |s.stack| && AllAnchored(g, s, gray + {s.stack[base]})
    requires Shape(g, Emit(s, base)) && x in s.stack[..base]
    ensures Anchored(g, Emit(s, base), gray, x)
  {
    var i: nat :| i < base && s.stack[..base][i] == x;
    assert s.stack[i] == x;
    assert Anchored(g, s, gray + {s.stack[base]}, x);
    ReanchorBelow(g, s, gray, s.stack[base], x);
    assert Anchored(g, s, gray, x);
  }

  lemma EmitLinked(g: Graph, s: State, gray: set<nat>, base: nat, low: nat, done: set<nat>)
    requires Shape(g, s) && base < |s.stack| && Linked(g, s, gray + {s.stack[base]})
    requires Shape(g, Emit(s, base)) && Looked(s, low, done) && Finished(g, s.stack[base], done)
    requires forall v: nat :: v in gray ==> v in s.stack[..base]
    ensures Linked(g, Emit(s, base), gray)
  {
    var t := Emit(s, base);
    CurrTurnsBlack(g, s, gray, s.stack[base], low, done);
    assert AllAnchored(g, t, gray) by {
      forall x: nat | x in t.stack
        ensures Anchored(g, t, gray, x)
      {
        EmitAnchored(g, s, gray, base, x);
      }
    }
    StackSplit(s.stack, base);
    assert BlackDone(g, t, gray) by {
      assert forall v: nat :: t.Visited(v) <==> s.Visited(v);
    }
  }

  lemma LeaveKeeps(g: Graph, s0: State, s: State, gray: set<nat>, curr: nat, low: nat, done: set<nat>)
    requires Inv(g, s, gray + {curr}) && Exploring(g, s0, s, gray, curr, low, done) && !s0.Visited(curr)
    requires Finished(g, curr, done) && low < s.disc[curr]
    ensures Inv(g, s, gray) && Explored(g, s0, s, curr, low)
  {
    assert curr in s.stack;
    LeaveLinked(g, s, gray, curr, low, done);
    LeaveExplored(g, s0, s, gray, curr, low, done);
  }

  lemma StackedIsVisited(g: Graph, s: State, i: nat)
    requires Shape(g, s) && i < |s.stack|
    ensures s.Visited(s.stack[i])
  {
    assert s.Visited(s.stack[i]);
  }

  lemma EmitInv(g: Graph, s: State, gray: set<nat>, base: nat, done: set<nat>)
    requires base < |s.stack| && Inv(g, s, gray + {s.stack[base]})
    requires forall u: nat :: u in gray ==> u in s.stack[..base]
    requires forall u: nat :: u in gray + {s.stack[base]} ==> u in s.stack && s.disc[u] <= s.disc[s.stack[base]]
    requires s.stack[base] !in gray
    requires Bounds(g, s, base + 1, base, s.disc[s.stack[base]]) && Looked(s, s.disc[s.stack[base]], done)
    requires Finished(g, s.stack[base], done)
    ensures Inv(g, Emit(s, base), gray)
  {
    hide Shape, Emitted, Linked, Bounds, Looked, Finished, IsComponent, Emit;
    assert s.stack[base] < |s.disc| by { StackedIsVisited(g, s, base); }
    SegmentIsComponent(g, s, gray, base, done);
    EmitShape(g, s, base);
    EmitEmitted(g, s, base);
    EmitLinked(g, s, gray, base, s.disc[s.stack[base]], done);
  }

  lemma EmitExplored(g: Graph, s0: State, s: State, curr: nat)
    requires |s0.stack| < |s.stack| && s.stack[|s0.stack|] == curr
    requires Shape(g, s) && Shape(g, Emit(s, |s0.stack|)) && Extends(s0, s) && !s0.Visited(curr)
    ensures Explored(g, s0, Emit(s, |s0.stack|), curr, s.disc[curr])
  {
    hide WellFormed, Edge, Reach;
    var t := Emit(s, |s0.stack|);
    assert t.stack == s0.stack;
    assert curr in s.stack && curr in s.stack[|s0.stack|..];
    assert s.closed <= t.closed;
    assert Bounds(g, t, |s0.stack|, |s0.stack|, s.disc[curr]);
  }

  lemma EmitKeeps(g: Graph, s0: State, s: State, gray: set<nat>, curr: nat, done: set<nat>)
    requires Inv(g, s, gray + {curr}) && Exploring(g, s0, s, gray, curr, s.disc[curr], done) && !s0.Visited(curr)
    requires Finished(g, curr, done)
    ensures Inv(g, Emit(s, |s0.stack|), gray)
    ensures Explored(g, s0, Emit(s, |s0.stack|), curr, s.disc[curr])
  {
    hide Shape, Emitted, Linked, Bounds, Witnessed, Looked, Emit, Explored, Finished;
    var base := |s0.stack|;
    CurrIsYoungest(g, s0, s, gray, curr);
    assert s.stack[..base] == s0.stack;
    CurrIsNew(g, s0, s, gray, curr);
    EmitInv(g, s, gray, base, done);
    EmitExplored(g, s0, s, curr);
  }

  lemma CurrIsNew(g: Graph, s0: State, s: State, gray: set<nat>, curr: nat)
    requires Shape(g, s) && Extends(s0, s)
    requires |s0.stack| < |s.stack| && s.stack[|s0.stack|] == curr
    requires forall v: nat :: v in gray ==> v in s0.stack
    ensures curr !in gray
  {
    hide WellFormed, Edge;
    forall v: nat | v in gray
      ensures v != curr
    {
      var i: nat :| i < |s0.stack| && s0.stack[i] == v;
      assert s.stack[i] == v;
    }
  }

  /** The low links of all vertices that s knows are unchanged. */
  ghost predicate LowsKept(s: State, low: seq<nat>, low': seq<nat>) {
    |low'| == |low| && forall v: nat :: v < |low| && s.Visited(v) ==> low'[v] == low[v]
  }

  /** curr is active, and the callees in `done` have been looked at since it was entered in state s0. */
  ghost predicate Active(g: Graph, s0: State, low0: seq<nat>, s: State, low: seq<nat>, gray: set<nat>, curr: nat, done: set<nat>) {
    && Inv(g, s, gray + {curr})
    && |low| == |g| && curr < |g| && !s0.Visited(curr)
    && Exploring(g, s0, s, gray, curr, low[curr], done)
    && LowsKept(s0, low0, low)
  }

  lemma Entered(g: Graph, s: State, low: seq<nat>, gray: set<nat>, curr: nat)
    requires CanEnter(g, s, gray, curr) && |low| == |g|
    ensures curr < |g| == |s.disc|
    ensures Active(g, s, low, Enter(s, curr), low[curr := s.time], gray, curr, {})
  {
    hide Emitted, Linked, Bounds, Witnessed, Looked, Reach;
    EnterKeeps(g, s, gray, curr);
  }

  lemma MayFollow(g: Graph, s0: State, low0: seq<nat>, s: State, low: seq<nat>, gray: set<nat>, curr: nat, done: set<nat>,
                  succ: nat)
    requires Active(g, s0, low0, s, low, gray, curr, done) && Edge(g, curr, succ) && !s.Visited(succ)
    ensures CanEnter(g, s, gray + {curr}, succ)
  {
    hide Emitted, Linked, Bounds, Witnessed, Looked, Reach, LowsKept;
    CurrIsYoungest(g, s0, s, gray, curr);
    TreeEdge(g, s, gray + {curr}, curr, succ);
  }

  lemma Followed(g: Graph, s0: State, low0: seq<nat>, s: State, low: seq<nat>, t: State, low1: seq<nat>,
                 gray: set<nat>, curr: nat, done: set<nat>, succ: nat)
    requires Active(g, s0, low0, s, low, gray, curr, done) && Edge(g, curr, succ)
    requires LowsKept(s, low, low1) && |low1| == |g| && succ < |g|
    requires Inv(g, t, gray + {curr}) && Explored(g, s, t, succ, low1[succ])
    ensures Active(g, s0, low0, t, low1[curr := Min(low1[curr], low1[succ])], gray, curr, done + {succ})
    ensures t.Unvisited() < s.Unvisited()
  {
    hide Emitted, Linked, Bounds, Witnessed, Looked, Reach, Shape;
    AfterTreeEdge(g, s0, s, t, gray, curr, low[curr], done, succ, low1[succ]);
    ActiveFacts(g, s0, low0, s, low, gray, curr, done);
    UnvisitedShrinks(s, t, succ);
  }

  lemma ActiveFacts(g: Graph, s0: State, low0: seq<nat>, s: State, low: seq<nat>, gray: set<nat>, curr: nat, done: set<nat>)
    requires Active(g, s0, low0, s, low, gray, curr, done)
    ensures Inv(g, s, gray + {curr}) && Shape(g, s) && LowsKept(s0, low0, low)
    ensures curr < |g| == |low| == |low0| == |s.disc| == |s0.disc| && s.Visited(curr)
    ensures forall w: nat :: Edge(g, curr, w) ==> w < |g|
    ensures s.Unvisited() < s0.Unvisited()
    ensures |s0.stack| < |s.stack| && s.stack[|s0.stack|] == curr
  {
    hide Emitted, Linked, Bounds, Witnessed, Looked, Reach;
    assert curr in s.stack;
    UnvisitedShrinks(s0, s, curr);
  }

  lemma SeenBefore(g: Graph, s0: State, low0: seq<nat>, s: State, low: seq<nat>, gray: set<nat>, curr: nat, done: set<nat>,
                   succ: nat)
    requires Active(g, s0, low0, s, low, gray, curr, done) && Edge(g, curr, succ) && s.Visited(succ)
    ensures succ in s.stack ==> Active(g, s0, low0, s, low[curr := Min(low[curr], s.disc[succ])], gray, curr, done + {succ})
    ensures succ !in s.stack ==> Active(g, s0, low0, s, low, gray, curr, done + {succ})
  {
    hide Emitted, Linked, Bounds, Witnessed, Looked, Reach, Shape;
    AfterBackEdge(g, s0, s, gray, curr, low[curr], done, succ);
  }

  lemma Left(g: Graph, s0: State, low0: seq<nat>, s: State, low: seq<nat>, gray: set<nat>, curr: nat, done: set<nat>)
    requires Active(g, s0, low0, s, low, gray, curr, done) && Finished(g, curr, done)
    requires curr < |low| && curr < |s.disc| && low[curr] != s.disc[curr]
    ensures Inv(g, s, gray) && Explored(g, s0, s, curr, low[curr])
  {
    hide Inv, Shape, Linked, Bounds, Witnessed, Looked, Reach, LowsKept, Finished, Explored;
    LeaveKeeps(g, s0, s, gray, curr, low[curr], done);
  }

  lemma Closed(g: Graph, s0: State, low0: seq<nat>, s: State, low: seq<nat>, gray: set<nat>, curr: nat, done: set<nat>)
    requires Active(g, s0, low0, s, low, gray, curr, done) && Finished(g, curr, done)
    requires curr < |low| && curr < |s.disc| && low[curr] == s.disc[curr]
    requires |s0.stack| <= |s.stack|
    ensures Inv(g, Emit(s, |s0.stack|), gray) && Explored(g, s0, Emit(s, |s0.stack|), curr, low[curr])
  {
    hide Inv, Shape, Linked, Bounds, Witnessed, Looked, Reach, LowsKept, Finished, Explored, Emit;
    EmitKeeps(g, s0, s, gray, curr, done);
  }

  /** The local variables that the recursive search shares. */
  class Search {
    const program: Program
    ghost const g: Graph
    var disc: seq<nat>
    var low: seq<nat>
    var onStack: set<FunctionId>
    var seen: set<FunctionId>
    var stack: seq<FunctionId>
    var time: nat
    var sccOfNode: seq<SccId>
    var nodesInScc: seq<seq<FunctionId>>

    ghost function Snapshot(): State
      reads this
    {
      State(disc, stack, seen, time, sccOfNode, nodesInScc)
    }

    /** The fields that the state of the search does not determine. */
    ghost predicate Consistent()
      reads this
    {
      g == program.Calls() && |low| == |g| && onStack == Snapshot().OnStack()
    }

    ghost predicate Valid(gray: set<nat>)
      reads this
    {
      Consistent() && Inv(g, Snapshot(), gray)
    }

    constructor (p: Program)
      requires WellFormed(p.Calls()) && |p.insts| <= UNSEEN
      ensures program == p && Valid({}) && Snapshot().VisitedSet() == {} && stack == []
    {
      var n := |p.insts|;
      program, g := p, p.Calls();
      disc, low := seq(n, _ => UNSEEN), seq(n, _ => UNSEEN);
      onStack, seen, stack, time := {}, {}, [], 0;
      sccOfNode, nodesInScc := seq(n, _ => 0), [];
    }

    ghost predicate Mid(s0: State, low0: seq<nat>, gray: set<nat>, curr: nat, done: set<nat>)
      reads this
    {
      Consistent() && Active(g, s0, low0, Snapshot(), low, gray, curr, done)
    }

    /** Explores everything reachable from curr that has no discovery time yet. */
    method Dfs(curr: FunctionId, ghost gray: set<nat>)
      requires Valid(gray) && CanEnter(g, Snapshot(), gray, curr)
      modifies this
      ensures Valid(gray)
      ensures Explored(g, old(Snapshot()), Snapshot(), curr, low[curr])
      ensures LowsKept(old(Snapshot()), old(low), low)
      decreases Snapshot().Unvisited(), 0, 0
    {
      hide Inv, Active, CanEnter, Explored, LowsKept, Edge, Graphs.WellFormed;
      ghost var s0, low0 := Snapshot(), low;
      EnterNode(curr, gray);
      ActiveFacts(g, s0, low0, Snapshot(), low, gray, curr, {});
      var insts := program.insts[curr];
      ghost var done: set<nat> := {};
      for i := 0 to |insts|
        invariant Mid(s0, low0, gray, curr, done)
        invariant done == Elems(program.CalleesOfInsts(insts[..i]))
      {
        ghost var callees := program.CalleesOfInst(insts[i]);
        CalleesArePrefix(program, curr, i);
        ActiveFacts(g, s0, low0, Snapshot(), low, gray, curr, done);
        if insts[i].isCallSite {
          VisitCallSite(curr, insts[i].id, s0, low0, gray, done);
        }
        assert !insts[i].isCallSite ==> done + Elems(callees) == done;
        done := done + Elems(callees);
      }
      EdgesAreCallees(program, curr, done);
      ActiveFacts(g, s0, low0, Snapshot(), low, gray, curr, done);
      LeaveNode(curr, s0, low0, gray, done);
    }

    /** Explores what has not been explored from earlier roots; afterwards the stack is empty again. */
    method VisitRoot(f: FunctionId)
      requires Valid({}) && stack == [] && f < |program.insts| && f !in seen
      modifies this
      ensures Valid({}) && stack == [] && f in seen && old(seen) <= seen
    {
      hide Inv, CanEnter, Explored, LowsKept;
      ghost var s0 := Snapshot();
      MayStart(g, s0, f);
      Dfs(f, {});
      RootDone(g, s0, Snapshot(), f, low[f]);
    }

    /** Looks at all callees of one call site of curr. */
    method VisitCallSite(curr: FunctionId, cs: CallSite,
                         ghost s0: State, ghost low0: seq<nat>, ghost gray: set<nat>, ghost done: set<nat>)
      requires Mid(s0, low0, gray, curr, done)
      requires forall w: nat :: w in program.CalleesOfCallAt(cs) ==> Edge(g, curr, w)
      modifies this
      ensures Mid(s0, low0, gray, curr, done + Elems(program.CalleesOfCallAt(cs)))
      decreases Snapshot().Unvisited(), 2, 0
    {
      hide Active, Edge;
      var callees := program.CalleesOfCallAt(cs);
      ghost var u := Snapshot().Unvisited();
      assert done + Elems(callees[..0]) == done;
      for j := 0 to |callees|
        invariant Mid(s0, low0, gray, curr, done + Elems(callees[..j]))
        invariant Snapshot().Unvisited() <= u
      {
        VisitCallee(curr, callees[j], s0, low0, gray, done + Elems(callees[..j]));
        assert done + Elems(callees[..j]) + {callees[j]} == done + Elems(callees[..j + 1]);
      }
      assert callees[..|callees|] == callees;
    }

    method EnterNode(curr: FunctionId, ghost gray: set<nat>)
      requires Valid(gray) && CanEnter(g, Snapshot(), gray, curr)
      modifies this
      ensures Mid(old(Snapshot()), old(low), gray, curr, {})
    {
      hide Inv, Active;
      Entered(g, Snapshot(), low, gray, curr);
      ghost var s0 := Snapshot();
      var currTime := time;
      time := time + 1;
      disc := disc[curr := currTime];
      low := low[curr := currTime];
      stack := stack + [curr];
      onStack := onStack + {curr};
      assert Snapshot() == Enter(s0, curr);
    }

    /** Looks at one call edge: a tree edge is followed, a back edge lowers the low link. */
    method VisitCallee(curr: FunctionId, succ: FunctionId,
                       ghost s0: State, ghost low0: seq<nat>, ghost gray: set<nat>, ghost done: set<nat>)
      requires Mid(s0, low0, gray, curr, done) && Edge(g, curr, succ)
      modifies this
      ensures Mid(s0, low0, gray, curr, done + {succ})
      ensures Snapshot().Unvisited() <= old(Snapshot().Unvisited())
      decreases Snapshot().Unvisited(), 1, 0
    {
      hide Active, Edge;
      ActiveFacts(g, s0, low0, Snapshot(), low, gray, curr, done);
      if disc[succ] == UNSEEN {
        VisitTreeEdge(curr, succ, s0, low0, gray, done);
      } else {
        SeenBefore(g, s0, low0, Snapshot(), low, gray, curr, done, succ);
        if succ in onStack {
          low := low[curr := Min(low[curr], disc[succ])];
        }
      }
    }

    method VisitTreeEdge(curr: FunctionId, succ: FunctionId,
                         ghost s0: State, ghost low0: seq<nat>, ghost gray: set<nat>, ghost done: set<nat>)
      requires Mid(s0, low0, gray, curr, done) && Edge(g, curr, succ) && succ < |disc| && disc[succ] == UNSEEN
      modifies this
      ensures Mid(s0, low0, gray, curr, done + {succ})
      ensures Snapshot().Unvisited() <= old(Snapshot().Unvisited())
      decreases Snapshot().Unvisited(), 0, 1
    {
      hide Active, Edge, CanEnter, Explored, LowsKept;
      ghost var s, l := Snapshot(), low;
      ActiveFacts(g, s0, low0, s, low, gray, curr, done);
      MayFollow(g, s0, low0, s, low, gray, curr, done, succ);
      Dfs(succ, gray + {curr});
      Followed(g, s0, low0, s, l, Snapshot(), low, gray, curr, done, succ);
      low := low[curr := Min(low[curr], low[succ])];
    }

    method LeaveNode(curr: FunctionId,
                     ghost s0: State, ghost low0: seq<nat>, ghost gray: set<nat>, ghost done: set<nat>)
      requires Mid(s0, low0, gray, curr, done) && Finished(g, curr, done)
      modifies this
      ensures Valid(gray)
      ensures Explored(g, s0, Snapshot(), curr, low[curr])
      ensures low == old(low)
    {
      hide Active, Inv, Explored, Finished, Emit;
      ghost var s := Snapshot();
      ActiveFacts(g, s0, low0, s, low, gray, curr, done);
      if low[curr] == disc[curr] {
        Closed(g, s0, low0, s, low, gray, curr, done);
        CloseComponent(curr, |s0.stack|);
      } else {
        Left(g, s0, low0, s, low, gray, curr, done);
      }
    }

    /** Pops the stack down to and including curr and records what was popped as a new component. */
    method CloseComponent(curr: FunctionId, ghost base: nat)
      requires Shape(g, Snapshot()) && onStack == Snapshot().OnStack()
      requires base < |stack| && stack[base] == curr
      modifies `stack, `onStack, `seen, `sccOfNode, `nodesInScc
      ensures Snapshot() == Emit(old(Snapshot()), base)
      ensures onStack == Snapshot().OnStack()
    {
      hide Shape, Assign, Reversed, Elems;
      ghost var s := Snapshot();
      var sccIdx := |nodesInScc|;
      nodesInScc := nodesInScc + [[]];
      EmitNothing(s);
      while stack[|stack| - 1] != curr
        invariant base < |stack| <= |s.stack| && Snapshot() == Emit(s, |stack|)
        invariant onStack == Snapshot().OnStack()
        decreases |stack|
      {
        PopInto(sccIdx, s);
      }
      SameVertex(g, s, base, |stack| - 1);
      PopInto(sccIdx, s);
    }

    method PopInto(sccIdx: SccId, ghost s: State)
      requires Shape(g, s) && sccIdx == |s.comps|
      requires 0 < |stack| <= |s.stack| && Snapshot() == Emit(s, |stack|) && onStack == Snapshot().OnStack()
      modifies `stack, `onStack, `seen, `sccOfNode, `nodesInScc
      ensures |stack| == |old(stack)| - 1 && Snapshot() == Emit(s, |stack|)
      ensures onStack == Snapshot().OnStack()
    {
      hide Shape, Assign, Reversed, Elems;
      PopOnStack(g, s, |stack|);
      EmitOneMore(s, |stack|);
      var fun := stack[|stack| - 1];
      stack := stack[..|stack| - 1];
      sccOfNode := sccOfNode[fun := sccIdx];
      onStack := onStack - {fun};
      seen := seen + {fun};
      nodesInScc := nodesInScc[sccIdx := nodesInScc[sccIdx] + [fun]];
    }
  }

  function PopOne(s: State, sccIdx: nat): State
    requires s.stack != [] && sccIdx < |s.comps| && s.stack[|s.stack| - 1] < |s.sccOf|
  {
    var fun := s.stack[|s.stack| - 1];
    s.(stack := s.stack[..|s.stack| - 1], closed := s.closed + {fun}, sccOf := s.sccOf[fun := sccIdx],
       comps := s.comps[sccIdx := s.comps[sccIdx] + [fun]])
  }

  lemma EmitNothing(s: State)
    ensures Emit(s, |s.stack|) == s.(comps := s.comps + [[]])
  {
    assert s.stack[|s.stack|..] == [] && s.stack[..|s.stack|] == s.stack;
    assert Emit(s, |s.stack|).sccOf == s.sccOf;
  }

  lemma AssignOneMore(sccOf: seq<nat>, f: nat, fs: seq<nat>, scc: SccId)
    requires f < |sccOf|
    ensures Assign(sccOf, [f] + fs, scc) == Assign(sccOf, fs, scc)[f := scc]
  {
    assert forall v: nat :: v in [f] + fs <==> v == f || v in fs;
  }

  lemma ReversedOneMore(f: nat, fs: seq<nat>)
    ensures Reversed([f] + fs) == Reversed(fs) + [f]
    ensures Elems([f] + fs) == Elems(fs) + {f}
  {
  }

  lemma EmitOneMore(s: State, k: nat)
    requires 0 < k <= |s.stack| && s.stack[k - 1] < |s.sccOf|
    ensures Emit(s, k - 1) == PopOne(Emit(s, k), |s.comps|)
  {
    hide Assign, Reversed, Elems;
    var f := s.stack[k - 1];
    assert s.stack[k - 1..] == [f] + s.stack[k..];
    assert s.stack[..k][..k - 1] == s.stack[..k - 1];
    AssignOneMore(s.sccOf, f, s.stack[k..], |s.comps|);
    ReversedOneMore(f, s.stack[k..]);
    assert s.closed + (Elems(s.stack[k..]) + {f}) == s.closed + Elems(s.stack[k..]) + {f};
  }

  /** Popping the top of the stack takes that function, and no other, off the stack. */
  lemma PopOnStack(g: Graph, s: State, k: nat)
    requires Shape(g, s) && 0 < k <= |s.stack|
    ensures s.stack[k - 1] < |s.sccOf|
    ensures Emit(s, k - 1).OnStack() == Emit(s, k).OnStack() - {s.stack[k - 1]}
  {
    assert s.stack[..k] == s.stack[..k - 1] + [s.stack[k - 1]];
    assert s.Visited(s.stack[k - 1]);
  }

  lemma SameVertex(g: Graph, s: State, i: nat, j: nat)
    requires Shape(g, s) && i < |s.stack| && j < |s.stack| && s.stack[i] == s.stack[j]
    ensures i == j
  {
    var di, dj := s.disc[s.stack[i]], s.disc[s.stack[j]];
  }

  lemma UnvisitedShrinks(s: State, t: State, v: nat)
    requires Extends(s, t) && t.Visited(v) && !s.Visited(v)
    ensures t.Unvisited() < s.Unvisited()
  {
    assert v in s.Unvisited();
  }

  function Elems(q: seq<nat>): set<nat> {
    set v | v in q
  }

  lemma ElemsConcat(a: seq<nat>, b: seq<nat>)
    ensures Elems(a + b) == Elems(a) + Elems(b)
  {
  }

  /** The callees of the instructions of f are its call-graph successors; looking at one more instruction
      adds its callees. */
  lemma CalleesArePrefix(p: Program, f: FunctionId, k: nat)
    requires f < |p.insts| && k <= |p.insts[f]|
    ensures k < |p.insts[f]| ==> Elems(p.CalleesOfInsts(p.insts[f][..k + 1])) ==
                                 Elems(p.CalleesOfInsts(p.insts[f][..k])) + Elems(p.CalleesOfInst(p.insts[f][k]))
    ensures forall w: nat :: w in p.CalleesOfInsts(p.insts[f][..k]) ==> Edge(p.Calls(), f, w)
    ensures k < |p.insts[f]| ==> forall w: nat :: w in p.CalleesOfInst(p.insts[f][k]) ==> Edge(p.Calls(), f, w)
    decreases |p.insts[f]| - k
  {
    var code := p.insts[f];
    if k == |code| {
      assert code[..k] == code;
    } else {
      CalleesArePrefix(p, f, k + 1);
      assert code[..k + 1][..k] == code[..k];
      ElemsConcat(p.CalleesOfInsts(code[..k]), p.CalleesOfInst(code[k]));
    }
  }

  lemma EdgesAreCallees(p: Program, f: FunctionId, done: set<nat>)
    requires f < |p.insts|
    requires done == Elems(p.CalleesOfInsts(p.insts[f][..|p.insts[f]|]))
    ensures Finished(p.Calls(), f, done)
  {
    assert p.insts[f][..|p.insts[f]|] == p.insts[f];
  }

  /** Computes the components of the call graph. */
  method ComputeCgSccs(p: Program) returns (h: SccHolder)
    requires WellFormed(p.Calls()) && |p.insts| <= UNSEEN
    ensures IsPartition(|p.insts|, h)
    ensures AreComponents(p.Calls(), h)
    ensures CalleesFirst(p.Calls(), h)
    ensures |p.Calls()| == |p.insts| && forall f: nat, k: nat :: Edge(p.Calls(), f, k) <==>
              exists i: nat, j: nat :: f < |p.insts| && i < |p.insts[f]| && p.insts[f][i].isCallSite && p.insts[f][i].id in p.calleesAt &&
                                       j < |p.calleesAt[p.insts[f][i].id]| && p.calleesAt[p.insts[f][i].id][j] == k
  {
    CallsOfProgram(p);
    hide Inv, IsPartition, AreComponents, CalleesFirst;
    ghost var g := p.Calls();
    if |p.insts| == 0 {
      NoFunctions();
      return SccHolder([], []);
    }
    var search := new Search(p);
    for f := 0 to |p.insts|
      invariant fresh(search) && search.program == p && search.Valid({}) && search.stack == []
      invariant forall v: nat :: v < f ==> v in search.seen
    {
      if f !in search.seen {
        search.VisitRoot(f);
      }
    }
    h := SccHolder(search.sccOfNode, search.nodesInScc);
    AllClosed(g, search.Snapshot());
  }

  lemma MayStart(g: Graph, s: State, f: nat)
    requires Inv(g, s, {}) && s.stack == [] && f < |g| && f !in s.closed
    ensures CanEnter(g, s, {}, f)
  {
    hide Emitted, Linked;
  }

  /** A vertex left on the stack would be anchored at an active call, and there is none. */
  lemma RootDone(g: Graph, s0: State, s: State, f: nat, low: nat)
    requires Inv(g, s, {}) && Explored(g, s0, s, f, low)
    ensures s.stack == [] && f in s.closed && s0.closed <= s.closed
  {
    hide Emitted, AllAnchored, BlackDone, GrayReaches, Bounds, Reach;
    NothingLeftOnStack(g, s, {});
  }

  lemma NothingLeftOnStack(g: Graph, s: State, gray: set<nat>)
    requires Shape(g, s) && AllAnchored(g, s, gray)
    ensures s.stack == [] || gray != {}
  {
    if s.stack != [] {
      assert Anchored(g, s, gray, s.stack[0]);
    }
  }

  lemma NoFunctions()
    ensures IsPartition(0, SccHolder([], []))
    ensures AreComponents([], SccHolder([], []))
    ensures CalleesFirst([], SccHolder([], []))
  {
  }

  lemma AllClosed(g: Graph, s: State)
    requires Inv(g, s, {})
    requires forall v: nat :: v < |g| ==> v in s.closed
    ensures IsPartition(|g|, SccHolder(s.sccOf, s.comps))
    ensures AreComponents(g, SccHolder(s.sccOf, s.comps))
    ensures CalleesFirst(g, SccHolder(s.sccOf, s.comps))
  {
    hide Listed, Mutual, Linked;
    RangeSize(|g|);
    assert forall v: nat :: v in s.closed ==> s.Visited(v);
    assert s.closed == Range(|g|);
  }
}
