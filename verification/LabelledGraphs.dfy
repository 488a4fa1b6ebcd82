/** Adjacency-list graphs with tagged nodes and weighted edges. */
module LabelledGraphs {
  import Graphs

  type Tag(==, !new)
  type Weight(==, !new)
  type Vertex = nat

  datatype Edge = Edge(target: Vertex, weight: Weight) {
    function WithTarget(v: Vertex): Edge {
      Edge(v, weight)
    }
  }

  datatype AdjacencyList = AdjacencyList(nodes: seq<Tag>, adj: seq<seq<Edge>>, roots: seq<Vertex>) {
    /** Nodes and adjacency run in parallel; edges and roots refer to nodes. */
    ghost predicate Valid() {
      && |nodes| == |adj|
      && (forall u: nat, i: nat :: u < |adj| && i < |adj[u]| ==> adj[u][i].target < |adj|)
      && (forall i: nat :: i < |roots| ==> roots[i] < |adj|)
    }

    function Size(): nat {
      |adj|
    }

    /** The graph without tags and weights. */
    ghost function Targets(): Graphs.Graph {
      seq(|adj|, u requires 0 <= u < |adj| => seq(|adj[u]|, i requires 0 <= i < |adj[u]| => adj[u][i].target))
    }
  }

  lemma TargetEdge(g: AdjacencyList, u: Vertex, i: nat)
    requires g.Valid() && u < g.Size() && i < |g.adj[u]|
    ensures Graphs.Edge(g.Targets(), u, g.adj[u][i].target)
  {
    assert g.Targets()[u][i] == g.adj[u][i].target;
  }

  lemma TargetsWellFormed(g: AdjacencyList)
    requires g.Valid()
    ensures Graphs.WellFormed(g.Targets()) && |g.Targets()| == g.Size()
  {
  }
}
