/**
 * `query_gene_set` of the manager (src/bio2bel_wikipathways/manager.py): the
 * pathways hit by a set of HGNC symbols, with how many of the query's
 * proteins each contains and the pathway's own gene set.
 */
module Enrichment {
  import opened Wrappers
  import opened Models
  import opened Store

  /** The dictionary `query_gene_set` stores per pathway. */
  datatype EnrichmentRecord = EnrichmentRecord(
    pathwayId: string, pathwayName: string, mappedProteins: nat, pathwaySize: nat, pathwayGeneSet: set<string>)

  /** The query's proteins (by Entrez id) that belong to pathway `id`. */
  function MatchedMembers(db: Db, query: set<string>, id: string): set<string>
  {
    ProteinsInHgncList(db, query) * Members(db, id)
  }

  /**
   * The keys of the `Counter` over the chained pathway-id lists: every pathway
   * that some query protein belongs to.
   */
  function HitPathways(db: Db, query: set<string>): (r: set<string>)
    ensures forall id :: id in r <==> MatchedMembers(db, query, id) != {}
  {
    var matched := ProteinsInHgncList(db, query);
    var r := set m | m in db.memberships && m.entrezId in matched :: m.pathwayId;
    assert forall id :: id in r <==> MatchedMembers(db, query, id) != {} by {
      forall id ensures id in r <==> MatchedMembers(db, query, id) != {} {
        if id in r {
          var m :| m in db.memberships && m.entrezId in matched && m.pathwayId == id;
          assert m.entrezId in MatchedMembers(db, query, id);
        }
        if MatchedMembers(db, query, id) != {} {
          var e :| e in MatchedMembers(db, query, id);
          var m :| m in db.memberships && m.pathwayId == id && m.entrezId == e;
        }
      }
    }
    r
  }

  /**
   * `query_gene_set`: for every pathway containing at least one stored protein
   * whose symbol is queried, its identifier, name, the number of query proteins
   * in it, and its gene set with that set's size. Under the foreign keys of the
   * join table every such pathway is stored, so the lookup by identifier succeeds.
   */
  function QueryGeneSet(db: Db, query: set<string>): (r: map<string, EnrichmentRecord>)
    requires Valid(db)
    ensures forall id :: id in r <==> MatchedMembers(db, query, id) != {}
    ensures forall id :: id in r ==>
      && PathwayById(db, id).Some?
      && r[id] == EnrichmentRecord(id, PathwayById(db, id).value.name,
                                   |MatchedMembers(db, query, id)|, |GeneSet(db, id)|, GeneSet(db, id))
  {
    var hits := HitPathways(db, query);
    assert forall id :: id in hits ==> PathwayById(db, id).Some? by {
      forall id | id in hits ensures PathwayById(db, id).Some? {
        var e :| e in MatchedMembers(db, query, id);
        assert Membership(e, id) in db.memberships;
      }
    }
    map id | id in hits :: Record(db, query, PathwayById(db, id).value)
  }

  /** The dictionary built for one pathway hit by the query. */
  function Record(db: Db, query: set<string>, p: Pathway): EnrichmentRecord
  {
    var geneSet := GeneSet(db, p.identifier);
    EnrichmentRecord(p.identifier, p.name, |MatchedMembers(db, query, p.identifier)|, |geneSet|, geneSet)
  }

  /** A query that names no stored protein's symbol hits no pathway. */
  lemma QueryWithoutStoredSymbolIsEmpty(db: Db, query: set<string>)
    requires Valid(db)
    requires forall e :: e in db.proteins ==> db.proteins[e].hgncSymbol !in query
    ensures QueryGeneSet(db, query) == map[]
  {
    assert ProteinsInHgncList(db, query) == {};
  }

  /**
   * Every record counts between one and all of the pathway's members, and its
   * size is the size of its gene set, which is no larger than the member count.
   */
  lemma QueryCountsBounded(db: Db, query: set<string>, id: string)
    requires Valid(db) && id in QueryGeneSet(db, query)
    ensures var rec := QueryGeneSet(db, query)[id];
      && 1 <= rec.mappedProteins <= |Members(db, id)|
      && rec.pathwaySize == |rec.pathwayGeneSet| <= |Members(db, id)|
      && rec.pathwayGeneSet <= AllHgncSymbols(db)
  {
    var rec := QueryGeneSet(db, query)[id];
    SubsetBound(MatchedMembers(db, query, id), Members(db, id));
    GeneSetBound(db, id);
    var p := PathwayById(db, id).value;
    forall s | s in rec.pathwayGeneSet ensures s in AllHgncSymbols(db) {
      var e :| e in Members(db, id) && e in db.proteins && db.proteins[e].hgncSymbol == s;
      assert p in db.pathways && e in Members(db, p.identifier);
    }
  }

  /** Querying more symbols hits at least the same pathways, each with at least as many proteins. */
  lemma QueryMonotone(db: Db, query: set<string>, larger: set<string>)
    requires Valid(db) && query <= larger
    ensures QueryGeneSet(db, query).Keys <= QueryGeneSet(db, larger).Keys
    ensures forall id :: id in QueryGeneSet(db, query) ==>
      QueryGeneSet(db, query)[id].mappedProteins <= QueryGeneSet(db, larger)[id].mappedProteins
  {
    forall id | id in QueryGeneSet(db, query)
      ensures id in QueryGeneSet(db, larger)
      ensures QueryGeneSet(db, query)[id].mappedProteins <= QueryGeneSet(db, larger)[id].mappedProteins
    {
      var e :| e in MatchedMembers(db, query, id);
      assert e in MatchedMembers(db, larger, id);
      SubsetBound(MatchedMembers(db, query, id), MatchedMembers(db, larger, id));
    }
  }
}
