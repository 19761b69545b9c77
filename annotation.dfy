/**
 * What the manager's graph methods (src/bio2bel_wikipathways/manager.py)
 * add to a BEL graph, stated over the tables: the pathway graph of
 * `get_pathway_graph_by_id`, and the edges `enrich_wikipathways_pathway` and
 * `enrich_wikipathways_protein` add per node of a caller's graph.
 */
module Annotation {
  import opened Wrappers
  import opened Models
  import opened Store
  import opened BelGraphs

  /** Citation and evidence of the edges from the pathway side. */
  const PathwayCitation: string := "27899662"
  const PathwayEvidence: string := "http://www.genome.jp/wikipathways/"

  /** Citation and evidence of the edges `enrich_wikipathways_protein` adds. */
  const ProteinCitation: string := "26481357"
  const ProteinEvidence: string := "https://www.wikipathways.org/index.php/Download_Pathways"

  /** `PART_OF` edges from one node to each of `targets`. */
  function FanOut(source: BelNode, targets: set<BelNode>, citation: string, evidence: string): set<Edge>
  {
    set t | t in targets :: Edge(source, PART_OF, t, citation, evidence)
  }

  /** `PART_OF` edges from each of `sources` to one node. */
  function FanIn(sources: set<BelNode>, target: BelNode, citation: string, evidence: string): set<Edge>
  {
    set s | s in sources :: Edge(s, PART_OF, target, citation, evidence)
  }

  /** The protein nodes of the stored proteins among `entrezIds`. */
  function ProteinNodesOf(db: Db, entrezIds: set<string>): set<BelNode>
  {
    set e | e in entrezIds && e in db.proteins :: ToPybel(db.proteins[e])
  }

  /** The pathway nodes of the stored pathways among `ids`. */
  function PathwayNodesOf(db: Db, ids: set<string>): set<BelNode>
  {
    set id | id in ids && PathwayById(db, id).Some? :: PathwayNode(PathwayById(db, id).value)
  }

  // ---------------------------------------------------------------------
  // get_pathway_graph_by_id

  /** `get_pathway_graph_by_id` on an identifier with no pathway: `pathway.name` on None raises. */
  datatype GraphError = UnknownPathway(id: string)

  /** The graph's name: the pathway's name followed by " graph". */
  function GraphName(p: Pathway): string
  {
    p.name + " graph"
  }

  /** The edges of the pathway graph: from the pathway node to each member protein's node. */
  function PathwayGraphEdges(db: Db, p: Pathway): set<Edge>
  {
    FanOut(PathwayNode(p), ProteinNodesOf(db, Members(db, p.identifier)), PathwayCitation, PathwayEvidence)
  }

  /** No two members of `entrezIds` serialise to the same node (distinct symbol or HGNC id). */
  predicate DistinctNodes(db: Db, entrezIds: set<string>)
  {
    forall a, b ::
      (a in entrezIds && b in entrezIds && a in db.proteins && b in db.proteins
       && ToPybel(db.proteins[a]) == ToPybel(db.proteins[b])) ==> a == b
  }

  /** Distinct stored proteins give as many nodes as there are proteins. */
  lemma {:induction false} ProteinNodesCount(db: Db, entrezIds: set<string>)
    requires entrezIds <= db.proteins.Keys && DistinctNodes(db, entrezIds)
    ensures |ProteinNodesOf(db, entrezIds)| == |entrezIds|
    decreases |entrezIds|
  {
    if entrezIds != {} {
      var e :| e in entrezIds;
      var rest := entrezIds - {e};
      ProteinNodesCount(db, rest);
      assert ProteinNodesOf(db, entrezIds) == ProteinNodesOf(db, rest) + {ToPybel(db.proteins[e])};
      assert ToPybel(db.proteins[e]) !in ProteinNodesOf(db, rest);
    }
  }

  /** A fan of edges out of one node has one edge per target. */
  lemma {:induction false} FanOutCount(source: BelNode, targets: set<BelNode>, citation: string, evidence: string)
    ensures |FanOut(source, targets, citation, evidence)| == |targets|
    decreases |targets|
  {
    if targets != {} {
      var t :| t in targets;
      var rest := targets - {t};
      FanOutCount(source, rest, citation, evidence);
      assert FanOut(source, targets, citation, evidence)
          == FanOut(source, rest, citation, evidence) + {Edge(source, PART_OF, t, citation, evidence)};
    }
  }

  /** The nodes a fan out of `source` touches: the source and the targets, or nothing when there are no targets. */
  lemma FanOutEndpoints(source: BelNode, targets: set<BelNode>, citation: string, evidence: string)
    ensures Endpoints(FanOut(source, targets, citation, evidence)) == if targets == {} then {} else {source} + targets
  {
    var fan := FanOut(source, targets, citation, evidence);
    if targets != {} {
      var t :| t in targets;
      assert Edge(source, PART_OF, t, citation, evidence) in fan;
    }
    forall t | t in targets ensures t in Endpoints(fan) {
      assert Edge(source, PART_OF, t, citation, evidence) in fan;
    }
  }

  /**
   * The pathway graph of a stored pathway whose members serialise to distinct
   * nodes has one edge per member and, when it has members, one node more
   * than it has members (the shared pathway node); a pathway without members
   * gives an empty graph.
   */
  lemma PathwayGraphSize(db: Db, p: Pathway)
    requires Valid(db) && p in db.pathways
    requires DistinctNodes(db, Members(db, p.identifier))
    ensures |PathwayGraphEdges(db, p)| == |Members(db, p.identifier)|
    ensures Members(db, p.identifier) != {} ==> |Endpoints(PathwayGraphEdges(db, p))| == |Members(db, p.identifier)| + 1
    ensures Members(db, p.identifier) == {} ==> Endpoints(PathwayGraphEdges(db, p)) == {}
  {
    var members := Members(db, p.identifier);
    var nodes := ProteinNodesOf(db, members);
    assert members <= db.proteins.Keys by {
      forall e | e in members ensures e in db.proteins {
        assert Membership(e, p.identifier) in db.memberships;
      }
    }
    ProteinNodesCount(db, members);
    FanOutCount(PathwayNode(p), nodes, PathwayCitation, PathwayEvidence);
    FanOutEndpoints(PathwayNode(p), nodes, PathwayCitation, PathwayEvidence);
    assert PathwayNode(p) !in nodes by {
      forall e | e in members && e in db.proteins ensures ToPybel(db.proteins[e]) != PathwayNode(p) {
        ProteinNodeIsNotPathwayNode(db.proteins[e], p);
      }
    }
    if members == {} {
      assert nodes == {};
    }
  }

  // ---------------------------------------------------------------------
  // enrich_wikipathways_pathway and enrich_wikipathways_protein

  /** Which of the two enrichment methods runs. */
  datatype EnrichKind = PathwayMembers | ProteinPathways

  /**
   * Why an enrichment raises at a node: `data[NAMESPACE]` or `data[NAME]` is
   * missing (KeyError), no pathway has the name or no protein the symbol (the
   * None lookup raises AttributeError), or several proteins share the symbol
   * (`one_or_none` raises).
   */
  datatype EnrichError =
    | MissingNamespace(node: BelNode)
    | MissingName(node: BelNode)
    | UnknownPathwayName(name: string)
    | UnknownHgncSymbol(symbol: string)
    | MultipleProteins(symbol: string)

  /**
   * `enrich_wikipathways_pathway` at one node: a biological process in the
   * WikiPathways namespace with a name gets a `PART_OF` edge from every member
   * protein of the first pathway with that name; other nodes get nothing.
   */
  function PathwayNodeEdges(db: Db, n: BelNode): Result<set<Edge>, EnrichError>
  {
    if n.func != BiologicalProcess then Success({})
    else if n.namespace.None? then Failure(MissingNamespace(n))
    else if n.namespace.value != WIKIPATHWAYS || n.name.None? then Success({})
    else
      match PathwayByName(db, n.name.value)
      case None => Failure(UnknownPathwayName(n.name.value))
      case Some(p) => Success(FanIn(ProteinNodesOf(db, Members(db, p.identifier)), n, PathwayCitation, PathwayEvidence))
  }

  /**
   * `enrich_wikipathways_protein` at one node: a protein in the HGNC namespace
   * gets a `PART_OF` edge to the node of every pathway of the protein with its
   * symbol; other nodes get nothing.
   */
  function ProteinNodeEdges(db: Db, n: BelNode): Result<set<Edge>, EnrichError>
  {
    if n.func != ProteinAbundance then Success({})
    else if n.namespace.None? then Failure(MissingNamespace(n))
    else if n.namespace.value != HGNC then Success({})
    else if n.name.None? then Failure(MissingName(n))
    else
      match ProteinByHgncSymbol(db, n.name.value)
      case Failure(_) => Failure(MultipleProteins(n.name.value))
      case Success(None) => Failure(UnknownHgncSymbol(n.name.value))
      case Success(Some(q)) =>
        Success(FanOut(n, PathwayNodesOf(db, PathwaysOf(db, q.entrezId)), ProteinCitation, ProteinEvidence))
  }

  /** The edges one enrichment adds at one node, or why it raises there. */
  function NodeEdges(db: Db, kind: EnrichKind, n: BelNode): Result<set<Edge>, EnrichError>
  {
    match kind
    case PathwayMembers => PathwayNodeEdges(db, n)
    case ProteinPathways => ProteinNodeEdges(db, n)
  }

  /**
   * The edges a per-node enrichment `edgesAt` adds at the given nodes,
   * skipping the nodes where it raises. The enrichment loop is proved against
   * this form, for any `edgesAt`.
   */
  function Collected(edgesAt: BelNode -> Result<set<Edge>, EnrichError>, nodes: set<BelNode>): set<Edge>
  {
    set n, e | n in nodes && edgesAt(n).Success? && e in edgesAt(n).value :: e
  }

  /** The edges enrichment `kind` adds at the given nodes, skipping the nodes where it raises. */
  function EnrichedEdges(db: Db, kind: EnrichKind, nodes: set<BelNode>): set<Edge>
  {
    Collected(n => NodeEdges(db, kind, n), nodes)
  }

  /** The edges and nodes of a graph after one more node is enriched. */
  lemma CollectStep(edgesAt: BelNode -> Result<set<Edge>, EnrichError>, done: set<BelNode>, n: BelNode,
                    edges: set<Edge>, nodes: set<BelNode>)
    requires edgesAt(n).Success?
    ensures edges + Collected(edgesAt, done) + edgesAt(n).value == edges + Collected(edgesAt, done + {n})
    ensures nodes + Endpoints(Collected(edgesAt, done)) + Endpoints(edgesAt(n).value)
            == nodes + Endpoints(Collected(edgesAt, done + {n}))
  {
    assert Collected(edgesAt, done + {n}) == Collected(edgesAt, done) + edgesAt(n).value;
    EndpointsUnion(Collected(edgesAt, done), edgesAt(n).value);
  }

  /** More nodes, more edges. */
  lemma CollectedMonotone(edgesAt: BelNode -> Result<set<Edge>, EnrichError>, a: set<BelNode>, b: set<BelNode>)
    requires a <= b
    ensures Collected(edgesAt, a) <= Collected(edgesAt, b)
  {
  }

  /** Collecting at more nodes gives more edges, and so more endpoints. */
  lemma CollectedEndpointsMonotone(edgesAt: BelNode -> Result<set<Edge>, EnrichError>, a: set<BelNode>, b: set<BelNode>)
    requires a <= b
    ensures Collected(edgesAt, a) <= Collected(edgesAt, b)
    ensures Endpoints(Collected(edgesAt, a)) <= Endpoints(Collected(edgesAt, b))
  {
    CollectedMonotone(edgesAt, a, b);
    var rest := Collected(edgesAt, b) - Collected(edgesAt, a);
    EndpointsUnion(Collected(edgesAt, a), rest);
    assert Collected(edgesAt, b) == Collected(edgesAt, a) + rest;
  }

  /** Collecting the edges of an enrichment's own per-node function gives its edges. */
  lemma CollectedEnriched(db: Db, kind: EnrichKind, nodes: set<BelNode>, edgesAt: BelNode -> Result<set<Edge>, EnrichError>)
    requires forall n :: edgesAt(n) == NodeEdges(db, kind, n)
    ensures Collected(edgesAt, nodes) == EnrichedEdges(db, kind, nodes)
  {
    var f := (n: BelNode) => NodeEdges(db, kind, n);
    CollectedPointwise(edgesAt, f, nodes);
  }

  /** Two per-node enrichments that agree on every node collect the same edges. */
  lemma CollectedPointwise(f: BelNode -> Result<set<Edge>, EnrichError>, g: BelNode -> Result<set<Edge>, EnrichError>,
                           nodes: set<BelNode>)
    requires forall n :: f(n) == g(n)
    ensures Collected(f, nodes) == Collected(g, nodes)
  {
    forall e | e in Collected(f, nodes) ensures e in Collected(g, nodes) {
      var n :| n in nodes && f(n).Success? && e in f(n).value;
      assert g(n) == f(n);
    }
    forall e | e in Collected(g, nodes) ensures e in Collected(f, nodes) {
      var n :| n in nodes && g(n).Success? && e in g(n).value;
      assert g(n) == f(n);
    }
  }

  /**
   * Every edge `enrich_wikipathways_pathway` adds runs from a member protein's
   * node into a pathway node already in the graph, and is labelled `PART_OF`.
   */
  lemma PathwayEnrichmentEdgesInto(db: Db, nodes: set<BelNode>, e: Edge)
    requires e in EnrichedEdges(db, PathwayMembers, nodes)
    ensures e.target in nodes && e.relation == PART_OF
    ensures e.target.func == BiologicalProcess && e.target.namespace == Some(WIKIPATHWAYS)
    ensures e.source.func == ProteinAbundance && e.source.namespace == Some(HGNC)
  {
    var n :| n in nodes && NodeEdges(db, PathwayMembers, n).Success? && e in NodeEdges(db, PathwayMembers, n).value;
    var p := PathwayByName(db, n.name.value).value;
    var s :| s in ProteinNodesOf(db, Members(db, p.identifier)) && e == Edge(s, PART_OF, n, PathwayCitation, PathwayEvidence);
  }

  /**
   * Enriching the node of a pathway that comes first under its name adds
   * exactly the reversed edges of that pathway's own graph.
   */
  lemma PathwayEnrichmentMirrorsGraph(db: Db, p: Pathway)
    requires PathwayByName(db, p.name) == Some(p)
    ensures NodeEdges(db, PathwayMembers, PathwayNode(p)).Success?
    ensures NodeEdges(db, PathwayMembers, PathwayNode(p)).value
         == set e | e in PathwayGraphEdges(db, p) :: Edge(e.target, e.relation, e.source, e.citation, e.evidence)
  {
    var n := PathwayNode(p);
    var nodes := ProteinNodesOf(db, Members(db, p.identifier));
    var fanIn := FanIn(nodes, n, PathwayCitation, PathwayEvidence);
    var fanOut := FanOut(n, nodes, PathwayCitation, PathwayEvidence);
    assert NodeEdges(db, PathwayMembers, n).value == fanIn;
    forall e | e in fanIn ensures e in set f | f in fanOut :: Edge(f.target, f.relation, f.source, f.citation, f.evidence) {
      var f := Edge(n, PART_OF, e.source, PathwayCitation, PathwayEvidence);
      assert f in fanOut;
    }
  }

  /**
   * Every edge `enrich_wikipathways_protein` adds runs from an HGNC protein
   * node of the graph out to a WikiPathways pathway node, and is labelled `PART_OF`.
   */
  lemma ProteinEnrichmentEdgesFrom(db: Db, nodes: set<BelNode>, e: Edge)
    requires e in EnrichedEdges(db, ProteinPathways, nodes)
    ensures e.source in nodes && e.relation == PART_OF
    ensures e.source.func == ProteinAbundance && e.source.namespace == Some(HGNC)
    ensures e.target.func == BiologicalProcess && e.target.namespace == Some(WIKIPATHWAYS)
  {
    var n :| n in nodes && NodeEdges(db, ProteinPathways, n).Success? && e in NodeEdges(db, ProteinPathways, n).value;
    var q := ProteinByHgncSymbol(db, n.name.value).value.value;
    var id :| id in PathwaysOf(db, q.entrezId) && PathwayById(db, id).Some?
      && e == Edge(n, PART_OF, PathwayNode(PathwayById(db, id).value), ProteinCitation, ProteinEvidence);
  }

  /**
   * Enriching the node of a stored protein that alone carries its symbol adds
   * exactly one `PART_OF` edge to the node of each pathway the protein belongs to.
   */
  lemma ProteinEnrichmentOfStoredProtein(db: Db, q: Protein)
    requires Valid(db) && q.entrezId in db.proteins && db.proteins[q.entrezId] == q
    requires WithSymbol(db, q.hgncSymbol) == {q.entrezId}
    ensures NodeEdges(db, ProteinPathways, ToPybel(q)).Success?
    ensures forall p :: p in db.pathways && q.entrezId in Members(db, p.identifier) ==>
      Edge(ToPybel(q), PART_OF, PathwayNode(p), ProteinCitation, ProteinEvidence) in NodeEdges(db, ProteinPathways, ToPybel(q)).value
    ensures forall e :: e in NodeEdges(db, ProteinPathways, ToPybel(q)).value ==>
      exists p :: p in db.pathways && q.entrezId in Members(db, p.identifier)
        && e == Edge(ToPybel(q), PART_OF, PathwayNode(p), ProteinCitation, ProteinEvidence)
  {
    var n := ToPybel(q);
    assert ProteinByHgncSymbol(db, q.hgncSymbol) == Success(Some(q));
    var edges := NodeEdges(db, ProteinPathways, n).value;
    assert edges == FanOut(n, PathwayNodesOf(db, PathwaysOf(db, q.entrezId)), ProteinCitation, ProteinEvidence);
    forall p | p in db.pathways && q.entrezId in Members(db, p.identifier)
      ensures Edge(n, PART_OF, PathwayNode(p), ProteinCitation, ProteinEvidence) in edges
    {
      MembershipSymmetric(db, q.entrezId, p.identifier);
      PathwayByIdUnique(db, p);
      assert PathwayNode(p) in PathwayNodesOf(db, PathwaysOf(db, q.entrezId));
    }
    forall e | e in edges
      ensures exists p ::
                p in db.pathways && q.entrezId in Members(db, p.identifier)
                && e == Edge(n, PART_OF, PathwayNode(p), ProteinCitation, ProteinEvidence)
    {
      var id :| id in PathwaysOf(db, q.entrezId) && PathwayById(db, id).Some?
        && e == Edge(n, PART_OF, PathwayNode(PathwayById(db, id).value), ProteinCitation, ProteinEvidence);
      var p := PathwayById(db, id).value;
      MembershipSymmetric(db, q.entrezId, id);
    }
  }
}
