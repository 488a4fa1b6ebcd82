/** Building a call graph with its two indexes, and its way to JSON and back. */
module CallGraphs {
  datatype CallSite = CallSite(id: nat)
  datatype Function = Function(id: nat)

  /** The callees of every call site and the callers of every function. */
  datatype CallGraph = CallGraph(calleesAt: map<CallSite, seq<Function>>, callersOf: map<Function, seq<CallSite>>) {
    function Callees(cs: CallSite): seq<Function> {
      if cs in calleesAt then calleesAt[cs] else []
    }

    function Callers(f: Function): seq<CallSite> {
      if f in callersOf then callersOf[f] else []
    }

    function WithFunction(f: Function): CallGraph {
      if f in callersOf then this else CallGraph(calleesAt, callersOf[f := []])
    }

    function WithCallSite(cs: CallSite): CallGraph {
      if cs in calleesAt then this else CallGraph(calleesAt[cs := []], callersOf)
    }

    function WithEdge(cs: CallSite, f: Function): CallGraph {
      CallGraph(calleesAt[cs := Callees(cs) + [f]], callersOf[f := Callers(f) + [cs]])
    }

    function WithEdges(f: Function, css: seq<CallSite>): CallGraph {
      if css == [] then this else WithEdges(f, css[..|css| - 1]).WithEdge(css[|css| - 1], f)
    }
  }

  /** Both indexes hold the same edges, equally often. */
  ghost predicate Inverse(g: CallGraph) {
    forall cs, f :: SameCount(g, cs, f)
  }

  ghost predicate SameCount(g: CallGraph, cs: CallSite, f: Function) {
    multiset(g.Callees(cs))[f] == multiset(g.Callers(f))[cs]
  }

  lemma EdgeKeepsInverse(g: CallGraph, cs: CallSite, f: Function)
    requires Inverse(g)
    ensures Inverse(g.WithEdge(cs, f))
  {
    var g' := g.WithEdge(cs, f);
    forall cs', f'
      ensures SameCount(g', cs', f')
    {
      assert SameCount(g, cs', f');
      assert multiset(g'.Callees(cs')) == multiset(g.Callees(cs')) + if cs' == cs then multiset{f} else multiset{};
      assert multiset(g'.Callers(f')) == multiset(g.Callers(f')) + if f' == f then multiset{cs} else multiset{};
    }
  }

  lemma FunctionKeepsInverse(g: CallGraph, f: Function)
    requires Inverse(g)
    ensures Inverse(g.WithFunction(f))
  {
    forall cs', f'
      ensures SameCount(g.WithFunction(f), cs', f')
    {
      assert SameCount(g, cs', f') && g.WithFunction(f).Callers(f') == g.Callers(f');
    }
  }

  lemma CallSiteKeepsInverse(g: CallGraph, cs: CallSite)
    requires Inverse(g)
    ensures Inverse(g.WithCallSite(cs))
  {
    forall cs', f'
      ensures SameCount(g.WithCallSite(cs), cs', f')
    {
      assert SameCount(g, cs', f') && g.WithCallSite(cs).Callees(cs') == g.Callees(cs');
    }
  }

  /** An edge brings its vertices along. */
  lemma EdgeBringsVertices(g: CallGraph, cs: CallSite, f: Function)
    ensures g.WithCallSite(cs).WithEdge(cs, f) == g.WithEdge(cs, f) == g.WithFunction(f).WithEdge(cs, f)
    ensures g.WithCallSite(cs).WithFunction(f).WithEdge(cs, f) == g.WithEdge(cs, f)
  {
  }

  /** No call site is a vertex without callees. */
  ghost predicate AllCalling(g: CallGraph) {
    forall cs :: cs in g.calleesAt ==> g.calleesAt[cs] != []
  }

  lemma {:induction false} EdgesAreAppended(g: CallGraph, f: Function, css: seq<CallSite>)
    requires f in g.callersOf
    ensures g.WithEdges(f, css).callersOf == g.callersOf[f := g.callersOf[f] + css]
    ensures Inverse(g) ==> Inverse(g.WithEdges(f, css))
    ensures AllCalling(g) ==> AllCalling(g.WithEdges(f, css))
  {
    hide Inverse;
    if css == [] {
      assert g.callersOf[f] + css == g.callersOf[f];
    } else {
      var init, last := css[..|css| - 1], css[|css| - 1];
      EdgesAreAppended(g, f, init);
      assert g.callersOf[f] + css == g.callersOf[f] + init + [last];
      if Inverse(g) {
        EdgeKeepsInverse(g.WithEdges(f, init), last, f);
      }
    }
  }

  /** Every key finds a list of its own. */
  ghost predicate Indexed<K(!new), V>(m: map<K, nat>, owner: seq<seq<V>>) {
    && (forall k :: k in m ==> m[k] < |owner|)
    && (forall k, l :: k in m && l in m && m[k] == m[l] ==> k == l)
  }

  function Lists<K, V>(m: map<K, nat>, owner: seq<seq<V>>): map<K, seq<V>>
    requires forall k :: k in m ==> m[k] < |owner|
  {
    map k | k in m :: owner[m[k]]
  }

  lemma NewList<K(!new), V>(m: map<K, nat>, owner: seq<seq<V>>, k: K)
    requires Indexed(m, owner) && k !in m
    ensures Indexed(m[k := |owner|], owner + [[]])
    ensures Lists(m[k := |owner|], owner + [[]]) == Lists(m, owner)[k := []]
  {
  }

  lemma LongerList<K(!new), V>(m: map<K, nat>, owner: seq<seq<V>>, k: K, x: V)
    requires Indexed(m, owner) && k in m
    ensures Indexed(m, owner[m[k] := owner[m[k]] + [x]])
    ensures Lists(m, owner[m[k] := owner[m[k]] + [x]]) == Lists(m, owner)[k := owner[m[k]] + [x]]
  {
    var owner' := owner[m[k] := owner[m[k]] + [x]];
    forall l | l in m
      ensures Lists(m, owner')[l] == if l == k then owner[m[k]] + [x] else Lists(m, owner)[l]
    {
    }
  }

  /** Every vertex is a list in one of the two owners, and the maps find it there. */
  class CallGraphBuilder {
    var instVertexOwner: seq<seq<Function>>
    var funVertexOwner: seq<seq<CallSite>>
    var calleesAt: map<CallSite, nat>
    var callersOf: map<Function, nat>

    ghost predicate Owned()
      reads this
    {
      Indexed(calleesAt, instVertexOwner) && Indexed(callersOf, funVertexOwner)
    }

    function Graph(): CallGraph
      requires Owned()
      reads this
    {
      CallGraph(Lists(calleesAt, instVertexOwner), Lists(callersOf, funVertexOwner))
    }

    ghost predicate Valid()
      reads this
    {
      Owned() && Inverse(Graph())
    }

    constructor ()
      ensures Valid() && Graph() == CallGraph(map[], map[])
    {
      instVertexOwner, funVertexOwner, calleesAt, callersOf := [], [], map[], map[];
    }

    method AddFunctionVertex(f: Function) returns (vtx: nat)
      requires Valid()
      modifies `funVertexOwner, `callersOf
      ensures Valid() && Graph() == old(Graph()).WithFunction(f)
      ensures Graph().calleesAt == old(Graph()).calleesAt
      ensures Graph().callersOf == if f in old(Graph()).callersOf then old(Graph()).callersOf else old(Graph()).callersOf[f := []]
      ensures f in callersOf && callersOf[f] == vtx
    {
      hide Inverse, Indexed;
      FunctionKeepsInverse(Graph(), f);
      if f !in callersOf {
        NewList(callersOf, funVertexOwner, f);
        callersOf := callersOf[f := |funVertexOwner|];
        funVertexOwner := funVertexOwner + [[]];
      }
      vtx := callersOf[f];
    }

    method AddInstructionVertex(cs: CallSite) returns (vtx: nat)
      requires Valid()
      modifies `instVertexOwner, `calleesAt
      ensures Valid() && Graph() == old(Graph()).WithCallSite(cs)
      ensures cs in calleesAt && calleesAt[cs] == vtx
    {
      hide Inverse, Indexed;
      CallSiteKeepsInverse(Graph(), cs);
      if cs !in calleesAt {
        NewList(calleesAt, instVertexOwner, cs);
        calleesAt := calleesAt[cs := |instVertexOwner|];
        instVertexOwner := instVertexOwner + [[]];
      }
      vtx := calleesAt[cs];
    }

    method AddCallEdge(cs: CallSite, callee: Function)
      requires Valid()
      modifies this
      ensures Valid() && Graph() == old(Graph()).WithEdge(cs, callee)
      ensures Graph().calleesAt ==
                old(Graph()).calleesAt[cs := (if cs in old(Graph()).calleesAt then old(Graph()).calleesAt[cs] else []) + [callee]]
      ensures Graph().callersOf ==
                old(Graph()).callersOf[callee := (if callee in old(Graph()).callersOf then old(Graph()).callersOf[callee] else []) + [cs]]
    {
      hide Owned, Inverse;
      EdgeBringsVertices(Graph(), cs, callee);
      var ivtx := AddInstructionVertex(cs);
      var fvtx := AddFunctionVertex(callee);
      Link(cs, ivtx, callee, fvtx);
    }

    /** With the vertex of the call site at hand. */
    method AddCallEdgeFrom(cs: CallSite, callees: nat, callee: Function)
      requires Valid() && cs in calleesAt && calleesAt[cs] == callees
      modifies this
      ensures Valid() && Graph() == old(Graph()).WithEdge(cs, callee)
      ensures Graph().calleesAt ==
                old(Graph()).calleesAt[cs := (if cs in old(Graph()).calleesAt then old(Graph()).calleesAt[cs] else []) + [callee]]
      ensures Graph().callersOf ==
                old(Graph()).callersOf[callee := (if callee in old(Graph()).callersOf then old(Graph()).callersOf[callee] else []) + [cs]]
    {
      hide Owned, Inverse;
      EdgeBringsVertices(Graph(), cs, callee);
      var callers := AddFunctionVertex(callee);
      Link(cs, callees, callee, callers);
    }

    /** With the vertex of the callee at hand. */
    method AddCallEdgeTo(cs: CallSite, callee: Function, callers: nat)
      requires Valid() && callee in callersOf && callersOf[callee] == callers
      modifies this
      ensures Valid() && Graph() == old(Graph()).WithEdge(cs, callee)
      ensures Graph().calleesAt ==
                old(Graph()).calleesAt[cs := (if cs in old(Graph()).calleesAt then old(Graph()).calleesAt[cs] else []) + [callee]]
      ensures Graph().callersOf ==
                old(Graph()).callersOf[callee := (if callee in old(Graph()).callersOf then old(Graph()).callersOf[callee] else []) + [cs]]
      ensures callersOf == old(callersOf)
    {
      hide Owned, Inverse;
      EdgeBringsVertices(Graph(), cs, callee);
      var callees := AddInstructionVertex(cs);
      Link(cs, callees, callee, callers);
    }

    method Link(cs: CallSite, callees: nat, callee: Function, callers: nat)
      requires Valid() && cs in calleesAt && calleesAt[cs] == callees && callee in callersOf && callersOf[callee] == callers
      modifies `instVertexOwner, `funVertexOwner
      ensures Valid() && Graph() == old(Graph()).WithEdge(cs, callee)
    {
      hide Inverse, Indexed;
      EdgeKeepsInverse(Graph(), cs, callee);
      LongerList(calleesAt, instVertexOwner, cs, callee);
      LongerList(callersOf, funVertexOwner, callee, cs);
      ListBounds(calleesAt, instVertexOwner);
      ListBounds(callersOf, funVertexOwner);
      instVertexOwner := instVertexOwner[callees := instVertexOwner[callees] + [callee]];
      funVertexOwner := funVertexOwner[callers := funVertexOwner[callers] + [cs]];
    }
  }

  /** The two queries answer with the lists of their vertices, and with nothing for what is no vertex. */
  lemma QueriesLookUp(b: CallGraphBuilder, cs: CallSite, f: Function)
    requires b.Owned()
    ensures cs in b.calleesAt ==> b.calleesAt[cs] < |b.instVertexOwner| && b.Graph().Callees(cs) == b.instVertexOwner[b.calleesAt[cs]]
    ensures cs !in b.calleesAt ==> b.Graph().Callees(cs) == []
    ensures f in b.callersOf ==> b.callersOf[f] < |b.funVertexOwner| && b.Graph().Callers(f) == b.funVertexOwner[b.callersOf[f]]
    ensures f !in b.callersOf ==> b.Graph().Callers(f) == []
  {
  }

  lemma ListBounds<K(!new), V>(m: map<K, nat>, owner: seq<seq<V>>)
    requires Indexed(m, owner)
    ensures forall k :: k in m ==> m[k] < |owner|
  {
  }
}
