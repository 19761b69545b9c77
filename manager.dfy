/**
 * The WikiPathways `Manager` (src/bio2bel_wikipathways/manager.py) as an
 * object holding the committed tables: the pathway rows, the protein rows by
 * Entrez id, and the protein-pathway join rows. Its methods change the tables
 * as the session's commits would, and build or extend BEL graphs.
 */
module WikiPathwaysManager {
  import opened Wrappers
  import opened Models
  import opened Store
  import opened GmtParser
  import opened Population
  import opened BelGraphs
  import opened Annotation

  class Manager {
    var pathways: seq<Pathway>
    var proteins: map<string, Protein>
    var memberships: set<Membership>

    /** The tables as one value, for the specifications. */
    function Snapshot(): Db
      reads this
    {
      Db(pathways, proteins, memberships)
    }

    /** The tables satisfy the schema's constraints. */
    predicate Valid()
      reads this
    {
      Store.Valid(Snapshot())
    }

    /** `create_all` on a fresh database: empty tables. */
    constructor ()
      ensures Snapshot() == EmptyDb
      ensures Valid()
    {
      pathways := [];
      proteins := map[];
      memberships := {};
    }

    /**
     * `get_or_create_pathway`: the stored pathway with that identifier, left as
     * it is; otherwise a new row with that identifier and name.
     */
    method GetOrCreatePathway(id: string, name: string) returns (p: Pathway)
      modifies this
      ensures Snapshot() == UpsertPathway(old(Snapshot()), id, name)
      ensures p.identifier == id
      ensures old(Valid()) ==> Valid() && PathwayById(Snapshot(), id) == Some(p)
    {
      ghost var before := Snapshot();
      var found := PathwayById(Snapshot(), id);
      if found.Some? {
        p := found.value;
      } else {
        p := Pathway(id, name);
        pathways := pathways + [p];
      }
      if Store.Valid(before) {
        UpsertsKeepValid(before, id, name, "", "", "");
        UpsertPathwayFound(before, id, name);
      }
    }

    /**
     * `get_or_create_protein`: the stored protein with that Entrez id, whose
     * symbol and HGNC id are not overwritten; otherwise a new row.
     */
    method GetOrCreateProtein(entrezId: string, symbol: string, hgncId: string) returns (p: Protein)
      modifies this
      ensures Snapshot() == UpsertProtein(old(Snapshot()), entrezId, symbol, hgncId)
      ensures p == proteins[entrezId]
      ensures old(entrezId in proteins) ==> p == old(proteins[entrezId])
      ensures old(entrezId !in proteins) ==> p == Protein(entrezId, symbol, hgncId)
      ensures old(Valid()) ==> Valid() && p.entrezId == entrezId
    {
      var found := ProteinByEntrezId(Snapshot(), entrezId);
      if found.Some? {
        p := found.value;
      } else {
        p := Protein(entrezId, symbol, hgncId);
        proteins := proteins[entrezId := p];
      }
    }

    /**
     * `populate`: parse the fetched file, then for each record get or create
     * its pathway and link the protein of each resolved gene to it, committing
     * after each record. `missing` is `missing_entrez_ids`; a record that meets
     * a symbol without an HGNC id raises, and its changes are not committed.
     */
    method Populate(status: int, lines: seq<string>, res: Resolver) returns (missing: set<string>, error: Option<PopulateError>)
      modifies this
      ensures Snapshot() == Population.Populate(old(Snapshot()), res, status, lines).state.db
      ensures missing == Population.Populate(old(Snapshot()), res, status, lines).state.missing
      ensures error == Population.Populate(old(Snapshot()), res, status, lines).error
    {
      ghost var start := Snapshot();
      missing := {};
      var parsed := ParseGmtFile(status, lines);
      if parsed.Failure? {
        error := Some(ParseFailed(parsed.error));
        return;
      }
      var recs := parsed.value;
      var cache: map<string, Protein> := map[];
      var i := 0;
      while i < |recs|
        invariant 0 <= i <= |recs|
        invariant RunRecords(RunState(Snapshot(), cache, missing), res, recs[i..]) == RunRecords(Start(start), res, recs)
      {
        assert recs[i..][0] == recs[i] && recs[i..][1..] == recs[i + 1..];
        cache, missing, error := PopulateRecord(recs[i], res, cache, missing);
        if error.Some? {
          return;
        }
        // session.commit()
        i := i + 1;
      }
      error := None;
    }

    /**
     * One record of `populate`, up to its commit: get or create the pathway,
     * then handle each gene. When a gene raises, the tables and the run's
     * locals go back to what the previous commit left.
     */
    method PopulateRecord(rec: GmtRecord, res: Resolver, cache: map<string, Protein>, missing: set<string>)
      returns (cache': map<string, Protein>, missing': set<string>, error: Option<PopulateError>)
      modifies this
      ensures var r := RecordStep(RunState(old(Snapshot()), cache, missing), res, rec);
        && (r.Success? ==> error.None? && RunState(Snapshot(), cache', missing') == r.value)
        && (r.Failure? ==> error == Some(r.error) && Snapshot() == old(Snapshot()) && cache' == cache && missing' == missing)
    {
      var committed := Snapshot();
      ghost var st := RunState(committed, cache, missing);
      cache', missing' := cache, missing;
      var pathway := GetOrCreatePathway(rec.identifier, rec.name);
      var j := 0;
      while j < |rec.genes|
        invariant 0 <= j <= |rec.genes|
        invariant RunGenes(RunState(Snapshot(), cache', missing'), res, rec.identifier, rec.genes[j..]) == RecordStep(st, res, rec)
      {
        assert rec.genes[j..][0] == rec.genes[j] && rec.genes[j..][1..] == rec.genes[j + 1..];
        cache', missing', error := PopulateGene(rec.genes[j], pathway, res, cache', missing');
        if error.Some? {
          pathways, proteins, memberships := committed.pathways, committed.proteins, committed.memberships;
          cache', missing' := cache, missing;
          return;
        }
        j := j + 1;
      }
      error := None;
    }

    /**
     * One gene of a record: the cached protein, or else the symbol lookup
     * (a missing symbol is noted and skipped), the HGNC id lookup and
     * `get_or_create_protein`; then the link to the pathway.
     */
    method PopulateGene(entrezId: string, pathway: Pathway, res: Resolver, cache: map<string, Protein>, missing: set<string>)
      returns (cache': map<string, Protein>, missing': set<string>, error: Option<PopulateError>)
      modifies this
      ensures var r := GeneStep(RunState(old(Snapshot()), cache, missing), res, pathway.identifier, entrezId);
        && (r.Success? ==> error.None? && RunState(Snapshot(), cache', missing') == r.value)
        && (r.Failure? ==> error == Some(r.error) && Snapshot() == old(Snapshot()) && cache' == cache && missing' == missing)
    {
      cache', missing', error := cache, missing, None;
      var protein: Protein;
      if entrezId in cache {
        protein := cache[entrezId];
      } else {
        var symbol := if entrezId in res.entrezToSymbol then res.entrezToSymbol[entrezId] else "";
        if symbol == "" {
          missing' := missing + {entrezId};
          return;
        }
        if symbol !in res.symbolToId {
          // KeyError
          error := Some(PopulateError.UnknownHgncSymbol(symbol));
          return;
        }
        protein := GetOrCreateProtein(entrezId, symbol, res.symbolToId[symbol]);
        cache' := cache[entrezId := protein];
      }
      if Membership(protein.entrezId, pathway.identifier) !in memberships {
        memberships := memberships + {Membership(protein.entrezId, pathway.identifier)};
      }
    }

    /**
     * `get_pathway_graph_by_id`: a new graph named after the pathway with a
     * `PART_OF` edge from the pathway's node to each member protein's node;
     * an unknown identifier raises.
     */
    method GetPathwayGraphById(id: string) returns (r: Result<Graph, GraphError>)
      ensures PathwayById(Snapshot(), id).None? ==> r == Failure(UnknownPathway(id))
      ensures PathwayById(Snapshot(), id).Some? ==>
        var p := PathwayById(Snapshot(), id).value;
        && r.Success? && fresh(r.value)
        && r.value.name == GraphName(p)
        && r.value.edges == PathwayGraphEdges(Snapshot(), p)
        && r.value.nodes == Endpoints(r.value.edges)
        && r.value.Valid()
    {
      var found := PathwayById(Snapshot(), id);
      if found.None? {
        return Failure(UnknownPathway(id));
      }
      var p := found.value;
      var g := new Graph(GraphName(p));
      g.AddQualifiedEdges(PathwayGraphEdges(Snapshot(), p));
      return Success(g);
    }

    /**
     * `enrich_wikipathways_pathway`: every WikiPathways pathway node of the
     * graph gets a `PART_OF` edge from each member protein of the first
     * pathway with its name; a name with no pathway raises.
     */
    method EnrichWikipathwaysPathway(g: Graph) returns (error: Option<EnrichError>)
      modifies g
      ensures error.None? <==> forall n :: n in old(g.nodes) ==> PathwayNodeEdges(Snapshot(), n).Success?
      ensures error.Some? ==> exists n :: n in old(g.nodes) && PathwayNodeEdges(Snapshot(), n) == Failure(error.value)
      ensures error.None? ==> g.edges == old(g.edges) + EnrichedEdges(Snapshot(), PathwayMembers, old(g.nodes))
      ensures error.None? ==> g.nodes == old(g.nodes) + Endpoints(EnrichedEdges(Snapshot(), PathwayMembers, old(g.nodes)))
      ensures old(g.edges) <= g.edges <= old(g.edges) + EnrichedEdges(Snapshot(), PathwayMembers, old(g.nodes))
      ensures old(g.nodes) <= g.nodes <= old(g.nodes) + Endpoints(EnrichedEdges(Snapshot(), PathwayMembers, old(g.nodes)))
      ensures g.name == old(g.name)
      ensures old(g.Valid()) ==> g.Valid()
    {
      var db := Snapshot();
      var edgesAt := (n: BelNode) => PathwayNodeEdges(db, n);
      error := EnrichNodes(g, edgesAt);
      CollectedEnriched(db, PathwayMembers, old(g.nodes), edgesAt);
    }

    /**
     * `enrich_wikipathways_protein`: every HGNC protein node of the graph gets
     * a `PART_OF` edge to the node of each pathway of the protein with its
     * symbol; a symbol with no protein, or with several, raises.
     */
    method EnrichWikipathwaysProtein(g: Graph) returns (error: Option<EnrichError>)
      modifies g
      ensures error.None? <==> forall n :: n in old(g.nodes) ==> ProteinNodeEdges(Snapshot(), n).Success?
      ensures error.Some? ==> exists n :: n in old(g.nodes) && ProteinNodeEdges(Snapshot(), n) == Failure(error.value)
      ensures error.None? ==> g.edges == old(g.edges) + EnrichedEdges(Snapshot(), ProteinPathways, old(g.nodes))
      ensures error.None? ==> g.nodes == old(g.nodes) + Endpoints(EnrichedEdges(Snapshot(), ProteinPathways, old(g.nodes)))
      ensures old(g.edges) <= g.edges <= old(g.edges) + EnrichedEdges(Snapshot(), ProteinPathways, old(g.nodes))
      ensures old(g.nodes) <= g.nodes <= old(g.nodes) + Endpoints(EnrichedEdges(Snapshot(), ProteinPathways, old(g.nodes)))
      ensures g.name == old(g.name)
      ensures old(g.Valid()) ==> g.Valid()
    {
      var db := Snapshot();
      var edgesAt := (n: BelNode) => ProteinNodeEdges(db, n);
      error := EnrichNodes(g, edgesAt);
      CollectedEnriched(db, ProteinPathways, old(g.nodes), edgesAt);
    }
  }

  /**
   * The loop shared by the two enrichment methods, with `edgesAt` the edges
   * the enrichment gives one node or why it raises there: visit every node
   * the graph had on entry and add its edges, stopping at the first node
   * where the enrichment raises.
   */
  method EnrichNodes(g: Graph, edgesAt: BelNode -> Result<set<Edge>, EnrichError>) returns (error: Option<EnrichError>)
    modifies g
    ensures error.None? <==> forall n :: n in old(g.nodes) ==> edgesAt(n).Success?
    ensures error.Some? ==> exists n :: n in old(g.nodes) && edgesAt(n) == Failure(error.value)
    ensures error.None? ==> g.edges == old(g.edges) + Collected(edgesAt, old(g.nodes))
    ensures error.None? ==> g.nodes == old(g.nodes) + Endpoints(Collected(edgesAt, old(g.nodes)))
    ensures old(g.edges) <= g.edges <= old(g.edges) + Collected(edgesAt, old(g.nodes))
    ensures old(g.nodes) <= g.nodes <= old(g.nodes) + Endpoints(Collected(edgesAt, old(g.nodes)))
    ensures g.name == old(g.name)
    ensures old(g.Valid()) ==> g.Valid()
  {
    ghost var start := g.nodes;
    ghost var done: set<BelNode> := {};
    var todo := g.nodes;
    while todo != {}
      invariant todo <= start && done == start - todo
      invariant forall n :: n in done ==> edgesAt(n).Success?
      invariant g.edges == old(g.edges) + Collected(edgesAt, done)
      invariant g.nodes == old(g.nodes) + Endpoints(Collected(edgesAt, done))
      invariant g.name == old(g.name)
      invariant old(g.Valid()) ==> g.Valid()
      decreases |todo|
    {
      var n :| n in todo;
      error := EnrichNode(g, edgesAt, n);
      if error.Some? {
        CollectedEndpointsMonotone(edgesAt, done, start);
        return;
      }
      CollectStep(edgesAt, done, n, old(g.edges), old(g.nodes));
      assert start - (todo - {n}) == done + {n};
      done, todo := done + {n}, todo - {n};
    }
    CollectedMonotone(edgesAt, done, start);
    return None;
  }

  /** One node of the enrichment loop: the edges `edgesAt` gives it, or why it raises. */
  method EnrichNode(g: Graph, edgesAt: BelNode -> Result<set<Edge>, EnrichError>, n: BelNode) returns (error: Option<EnrichError>)
    modifies g
    ensures error.None? <==> edgesAt(n).Success?
    ensures error.Some? ==> edgesAt(n) == Failure(error.value) && g.edges == old(g.edges) && g.nodes == old(g.nodes)
    ensures error.None? ==> g.edges == old(g.edges) + edgesAt(n).value
    ensures error.None? ==> g.nodes == old(g.nodes) + Endpoints(edgesAt(n).value)
    ensures g.name == old(g.name)
    ensures old(g.Valid()) ==> g.Valid()
  {
    var added := edgesAt(n);
    if added.Failure? {
      return Some(added.error);
    }
    g.AddQualifiedEdges(added.value);
    return None;
  }
}
