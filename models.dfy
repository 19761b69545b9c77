/**
 * The records of bio2bel WikiPathways (src/bio2bel_wikipathways/models.py):
 * pathways, proteins, the protein-pathway join relation, and the PyBEL nodes
 * these records serialise to.
 */
module Models {
  import opened Wrappers

  /** The namespace of protein nodes. */
  const HGNC: string := "HGNC"

  /** The namespace (and prefix) of pathway nodes. */
  const WIKIPATHWAYS: string := "WIKIPATHWAYS"

  /** A WikiPathways pathway row: its WikiPathways identifier (the unique key) and its name. */
  datatype Pathway = Pathway(identifier: string, name: string)

  /** A protein row: its Entrez id (the key the loader looks it up by), HGNC symbol and HGNC id. */
  datatype Protein = Protein(entrezId: string, hgncSymbol: string, hgncId: string)

  /**
   * One row of the `protein_pathway` join table. The table's primary key is
   * the whole pair, so a set of memberships holds each pair at most once.
   */
  datatype Membership = Membership(entrezId: string, pathwayId: string)

  /** The PyBEL functions the enrichment code tells apart; anything else is `OtherFunction`. */
  datatype BelFunction = ProteinAbundance | BiologicalProcess | OtherFunction(belName: string)

  /**
   * A PyBEL node's data dictionary: its function and, when present, its
   * namespace, name and identifier.
   */
  datatype BelNode = BelNode(func: BelFunction, namespace: Option<string>,
                             name: Option<string>, identifier: Option<string>)

  /**
   * `Protein.to_pybel`: a protein node in the HGNC namespace named by the
   * symbol and identified by the HGNC id. It depends on nothing else of the row.
   */
  function ToPybel(p: Protein): (n: BelNode)
    ensures n.func == ProteinAbundance && n.namespace == Some(HGNC)
    ensures n.name == Some(p.hgncSymbol) && n.identifier == Some(p.hgncId)
  {
    BelNode(ProteinAbundance, Some(HGNC), Some(p.hgncSymbol), Some(p.hgncId))
  }

  /** Two proteins give the same node exactly when they agree on symbol and HGNC id. */
  lemma ToPybelSameNode(p: Protein, q: Protein)
    ensures ToPybel(p) == ToPybel(q) <==> p.hgncSymbol == q.hgncSymbol && p.hgncId == q.hgncId
  {
    if ToPybel(p) == ToPybel(q) {
      assert ToPybel(p).name.value == p.hgncSymbol;
      assert ToPybel(q).name.value == q.hgncSymbol;
      assert ToPybel(p).identifier.value == p.hgncId;
    }
  }

  /**
   * The node a pathway serialises to: a biological process in the
   * WikiPathways namespace with the pathway's name and identifier.
   */
  function PathwayNode(p: Pathway): (n: BelNode)
    ensures n.func == BiologicalProcess && n.namespace == Some(WIKIPATHWAYS)
    ensures n.name == Some(p.name) && n.identifier == Some(p.identifier)
  {
    BelNode(BiologicalProcess, Some(WIKIPATHWAYS), Some(p.name), Some(p.identifier))
  }

  /** A protein node is never a pathway node. */
  lemma ProteinNodeIsNotPathwayNode(q: Protein, p: Pathway)
    ensures ToPybel(q) != PathwayNode(p)
  {
    assert ToPybel(q).func != PathwayNode(p).func;
  }
}
