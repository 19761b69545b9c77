/**
 * The part of a PyBEL `BELGraph` the manager touches: a set of nodes and a
 * set of qualified edges, each edge a (source, relation, target) triple with
 * a citation and an evidence text.
 */
module BelGraphs {
  import opened Models

  /** PyBEL's `PART_OF` relation label. */
  const PART_OF: string := "partOf"

  /** A qualified edge. Adding an edge with the same data again adds nothing. */
  datatype Edge = Edge(source: BelNode, relation: string, target: BelNode, citation: string, evidence: string)

  /** The nodes an edge set touches. */
  function Endpoints(edges: set<Edge>): set<BelNode>
  {
    (set e | e in edges :: e.source) + (set e | e in edges :: e.target)
  }

  /** The endpoints of a union are the union of the endpoints. */
  lemma EndpointsUnion(a: set<Edge>, b: set<Edge>)
    ensures Endpoints(a + b) == Endpoints(a) + Endpoints(b)
  {
  }

  /** A single edge touches its source and its target. */
  lemma EndpointsSingle(e: Edge)
    ensures Endpoints({e}) == {e.source, e.target}
  {
  }

  class Graph {
    var name: string
    var nodes: set<BelNode>
    var edges: set<Edge>

    /** Every edge joins two nodes of the graph. */
    predicate Valid()
      reads this
    {
      Endpoints(edges) <= nodes
    }

    /** `BELGraph(name=...)`: an empty graph. */
    constructor (name: string)
      ensures this.name == name && nodes == {} && edges == {}
      ensures Valid()
    {
      this.name := name;
      nodes := {};
      edges := {};
    }

    /** `add_qualified_edge`: adds both endpoints, when absent, and the edge. */
    method AddQualifiedEdge(u: BelNode, v: BelNode, relation: string, citation: string, evidence: string)
      modifies this
      ensures nodes == old(nodes) + {u, v}
      ensures edges == old(edges) + {Edge(u, relation, v, citation, evidence)}
      ensures name == old(name)
      ensures old(Valid()) ==> Valid()
    {
      nodes := nodes + {u, v};
      edges := edges + {Edge(u, relation, v, citation, evidence)};
    }

    /** Adds a set of edges one by one, in any order. */
    method AddQualifiedEdges(es: set<Edge>)
      modifies this
      ensures nodes == old(nodes) + Endpoints(es)
      ensures edges == old(edges) + es
      ensures name == old(name)
      ensures old(Valid()) ==> Valid()
    {
      var todo := es;
      while todo != {}
        invariant todo <= es
        invariant nodes == old(nodes) + Endpoints(es - todo)
        invariant edges == old(edges) + (es - todo)
        invariant name == old(name)
        invariant old(Valid()) ==> Valid()
        decreases |todo|
      {
        var e :| e in todo;
        AddQualifiedEdge(e.source, e.target, e.relation, e.citation, e.evidence);
        assert es - (todo - {e}) == (es - todo) + {e};
        EndpointsUnion(es - todo, {e});
        EndpointsSingle(e);
        todo := todo - {e};
      }
    }
  }
}
