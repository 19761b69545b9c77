# Bio2BEL WikiPathways, modelled in Dafny

Bio2BEL WikiPathways loads the WikiPathways human gene-set file (GMT format)
into three relational tables:
- pathways, keyed by WikiPathways identifier;
- proteins, keyed by Entrez id, carrying an HGNC symbol and an HGNC id;
- the protein-pathway join table.

It answers queries over those tables: enrichment of a set of HGNC symbols,
pathway sizes, gene sets by pathway name, and all symbols. It also builds and
extends BEL graphs, in which a protein is `partOf` a pathway.

This project models three parts:
- the GMT parser (`parser.py`), as pure functions over strings;
- the two record types and their BEL serialisation (`models.py`), as datatypes;
- the `Manager` (`manager.py`).

The `Manager` is modelled in two layers:
- **Specification functions over a value.** The tables are a value `Db`
  (`store.dfy`). Every query is a function of it (`store.dfy`,
  `enrichment.dfy`, `annotation.dfy`). `populate` is a fold over the parsed
  records and their genes (`population.dfy`). The properties are proved as
  lemmas about these functions.
- **An imperative class.** `WikiPathwaysManager.Manager` (`manager.dfy`) holds
  the tables as fields. Its methods are proved equal to the functions above:
  `get_or_create_*`, the `populate` loops, the graph builder, and the two
  enrichment loops.

A BEL graph is a `BelGraphs.Graph` object with node and edge sets (`graph.dfy`).

Files:

| file | models |
|---|---|
| `wrappers.dfy` | `Option` and `Result` |
| `text.dfy` | Python's `str.split`, `str.strip` and `str.replace` on one separator |
| `parser.dfy` | `parser.py` |
| `models.dfy` | `models.py` |
| `store.dfy` | the tables, the schema constraints, the lookups and the whole-table queries |
| `enrichment.dfy` | `query_gene_set` |
| `population.dfy` | `populate`, as a function, with its effect and error behaviour |
| `graph.dfy` | the part of `BELGraph` used here |
| `annotation.dfy` | the edges `get_pathway_graph_by_id` and the `enrich_*` methods add |
| `manager.dfy` | the `Manager` class |

Choices the model makes where the code's behaviour is easy to misread:
- **Edge direction.** The edges of `get_pathway_graph_by_id` run from the pathway node to each protein node, because `add_qualified_edge` gets the pathway node first (src/bio2bel_wikipathways/manager.py:329-336). The enrichment methods add edges the other way, from protein to pathway (src/bio2bel_wikipathways/manager.py:357-362 and :382-388).
- **Unknown identifier.** `get_pathway_graph_by_id` with an identifier that has no pathway raises, because `pathway.name` is read on `None` (src/bio2bel_wikipathways/manager.py:321-324). The model returns `Failure(UnknownPathway(id))` instead of a graph.
- **Unknown pathway or symbol during enrichment.** `enrich_wikipathways_pathway` reads `pathway.proteins` on the result of the name lookup without a `None` check (src/bio2bel_wikipathways/manager.py:355-357). `enrich_wikipathways_protein` does the same with `protein.pathways` (src/bio2bel_wikipathways/manager.py:380-382). So a node whose name has no stored pathway, or whose symbol has no stored protein, raises; it is not skipped. The model returns the error.
- **Identifier column.** The manager's queries name the pathway identifier `wikipathways_id`, while the model class declares the column `identifier` (src/bio2bel_wikipathways/models.py:66). Both are taken to be the same unique key.

## Model

| member | source | states |
|---|---|---|
| Text.FirstPiece | src/bio2bel_wikipathways/parser.py:20 | `split(sep)[0]`: the result has no separator, is a prefix of the text, is followed there by the separator when the text has one, and is the whole text when it has none |
| GmtParser.ProcessPathwayId | src/bio2bel_wikipathways/parser.py:13-20 | the result is the prefix of the id up to the first `_`, has no `_`, and is the whole id when it has none |
| GmtParser.PathwayName | src/bio2bel_wikipathways/parser.py:23-29 | the result is the prefix of the field before the first `%` and has no `%` |
| GmtParser.PathwaySpecies | src/bio2bel_wikipathways/parser.py:32-33 | the result is the suffix of the field after the last `%` and has no `%` |
| GmtParser.PathwayId | src/bio2bel_wikipathways/parser.py:36-43 | removing the URL prefix never lengthens the text, leaves a text without the prefix unchanged, and shortens a text holding the prefix by at least the prefix's length |
| GmtParser.PathwayIdOfUrl | src/bio2bel_wikipathways/parser.py:36-43 | the id is recovered from the instance URL built from it |
| GmtParser.ProcessLine | src/bio2bel_wikipathways/parser.py:49-68 | a line without a tab fails to unpack; otherwise the name, species, identifier and genes are the stripped tab-separated fields, post-processed |
| GmtParser.ProcessFormattedLine | src/bio2bel_wikipathways/parser.py:49-68 | round trip: a GMT line formatted from a name, tags, species, id, revision and genes parses back to exactly that name, species, id and genes |
| GmtParser.ProcessJoinedFields | src/bio2bel_wikipathways/parser.py:58-61 | splitting tab-joined trimmed fields and stripping them gives the fields back |
| GmtParser.ParseGmtFile | src/bio2bel_wikipathways/parser.py:71-92 | 404 raises FileNotFound; otherwise success iff every line has a tab, with one record per line in order, and failure names the first malformed line |
| Text.Split | src/bio2bel_wikipathways/parser.py:20 | `split` gives at least one piece, none containing the separator, whose join is the input; one piece iff no separator |
| Text.SplitJoin | src/bio2bel_wikipathways/parser.py:60 | `split` undoes `join` when no piece holds the separator |
| Text.Strip | src/bio2bel_wikipathways/parser.py:59 | `strip` returns a trimmed infix of the input with only whitespace removed around it |
| Text.StripTrimmed | src/bio2bel_wikipathways/parser.py:59 | `strip` leaves an already trimmed word unchanged |
| Text.RemoveAll | src/bio2bel_wikipathways/parser.py:43 | `replace(pat, '')` never lengthens the text and leaves a text without `pat` unchanged |
| Text.RemoveAllShrinks | src/bio2bel_wikipathways/parser.py:43 | when `pat` occurs, the result is shorter by at least the length of `pat` |
| Text.RemoveAllSkip | src/bio2bel_wikipathways/parser.py:43 | every occurrence is deleted, not just a leading one: the text before the first occurrence is kept and the deletion goes on after it |
| Text.RemoveAllPrefix | src/bio2bel_wikipathways/parser.py:43 | an occurrence at the very start is deleted and the rest is processed on its own |
| Models.ToPybel | src/bio2bel_wikipathways/models.py:50-56 | a protein serialises to a protein-abundance node in the HGNC namespace named by its symbol and identified by its HGNC id |
| Models.PathwayNode | src/bio2bel_wikipathways/models.py:61-66 | a pathway serialises to a biological-process node in the WikiPathways namespace with its name and identifier |
| Models.ToPybelSameNode | src/bio2bel_wikipathways/models.py:50-56 | two proteins serialise to the same BEL node iff they share symbol and HGNC id |
| Models.ProteinNodeIsNotPathwayNode | src/bio2bel_wikipathways/models.py:50-56 | a protein node never equals a pathway node |
| Store.PathwayById | src/bio2bel_wikipathways/manager.py:105-111 | `None` iff no stored pathway has the identifier; otherwise a stored pathway with it |
| Store.PathwayByIdUnique | src/bio2bel_wikipathways/models.py:66 | with unique identifiers, looking up a stored pathway's id returns that pathway |
| Store.PathwayByName | src/bio2bel_wikipathways/manager.py:113-125 | `None` iff no pathway has the name; otherwise the first pathway with it |
| Store.ProteinByEntrezId | src/bio2bel_wikipathways/manager.py:227-233 | `None` iff no protein has the Entrez id; otherwise exactly the stored row under that id, which carries that id when the tables are consistent |
| Store.ProteinByHgncSymbol | src/bio2bel_wikipathways/manager.py:243-249 | `one_or_none`: fails iff two or more proteins have the symbol, `None` iff none, else that one |
| Store.ProteinsInHgncList | src/bio2bel_wikipathways/manager.py:96-103 | exactly the stored proteins whose symbol is in the query |
| Store.MembershipSymmetric | src/bio2bel_wikipathways/models.py:75-79 | a protein is among a pathway's proteins iff the pathway is among the protein's pathways |
| Store.GeneSet | src/bio2bel_wikipathways/manager.py:84 | `get_gene_set`: the HGNC symbols of the pathway's stored member proteins (no contract; its bound is `Store.GeneSetBound`) |
| Store.GeneSetBound | src/bio2bel_wikipathways/manager.py:84 | a pathway's gene set has no more symbols than the pathway has proteins |
| Store.SizeDistribution | src/bio2bel_wikipathways/manager.py:158-171 | every pathway with proteins has its name as a key; each value is positive and is the protein count of a pathway with that name |
| Store.SizesByName | src/bio2bel_wikipathways/manager.py:165-171 | a name is a key iff some pathway with that name has proteins, and its value is the protein count of such a pathway |
| Store.SizeDistributionOfUniqueName | src/bio2bel_wikipathways/manager.py:165-171 | a pathway with a name of its own is reported with its protein count |
| Store.GenesetsByName | src/bio2bel_wikipathways/manager.py:251-259 | the keys are all pathway names, and each value is the gene set of a pathway with that name |
| Store.ExportGenesets | src/bio2bel_wikipathways/manager.py:251-259 | the keys are the names of all pathways; each value is the gene set of a pathway with that name |
| Store.AllHgncSymbols | src/bio2bel_wikipathways/manager.py:146-156 | a symbol is in the result iff it is in the gene set of some pathway |
| Store.ExportedSymbolsAreAllSymbols | src/bio2bel_wikipathways/manager.py:146-156 | every exported gene set lies within `get_all_hgnc_symbols`, and every symbol there belongs to some pathway's gene set |
| Store.UpsertPathway | src/bio2bel_wikipathways/manager.py:188-204 | the identifier becomes stored; an existing row is left unchanged, otherwise one row is appended; uniqueness is preserved |
| Store.UpsertPathwayFound | src/bio2bel_wikipathways/manager.py:195-204 | after get-or-create the lookup by identifier succeeds |
| Store.UpsertProtein | src/bio2bel_wikipathways/manager.py:206-225 | the Entrez id becomes stored; an existing protein keeps its symbol and HGNC id, otherwise the new row carries the given ones |
| Store.UpsertsKeepValid | src/bio2bel_wikipathways/manager.py:188-225 | both get-or-create operations keep the schema constraints |
| Enrichment.HitPathways | src/bio2bel_wikipathways/manager.py:69-77 | a pathway is counted iff some queried protein belongs to it |
| Enrichment.QueryGeneSet | src/bio2bel_wikipathways/manager.py:62-94 | keys are exactly the pathways hit; each record holds the id, the name, the number of matched proteins, and the gene set with its size |
| Enrichment.QueryWithoutStoredSymbolIsEmpty | src/bio2bel_wikipathways/manager.py:62-94 | a query naming no stored symbol yields an empty result |
| Enrichment.QueryCountsBounded | src/bio2bel_wikipathways/manager.py:81-92 | 1 ≤ mapped proteins ≤ pathway proteins; size = \|gene set\| ≤ pathway proteins; gene set ⊆ all symbols |
| Enrichment.QueryMonotone | src/bio2bel_wikipathways/manager.py:62-94 | a larger query hits at least the same pathways, each with at least as many proteins |
| Population.GeneStep | src/bio2bel_wikipathways/manager.py:286-304 | one gene fails only when its symbol has no HGNC id, with that symbol; otherwise pathways stay, and links, proteins and missing ids only grow |
| Population.RunGenes | src/bio2bel_wikipathways/manager.py:286-304 | a record's gene loop fails only on an unmappable symbol; on success the pathways stay and links, proteins and missing ids only grow |
| Population.RecordStep | src/bio2bel_wikipathways/manager.py:283-306 | one record fails only on an unmappable symbol; on success its pathway is stored and earlier pathway rows are kept in order |
| Population.RunRecords | src/bio2bel_wikipathways/manager.py:283-306 | the pathway rows and missing ids only grow, and the only error a run stops on is an unmappable symbol |
| Population.Populate | src/bio2bel_wikipathways/manager.py:263-306 | a parse error is reported as such and changes nothing; pathway rows only grow; the three-name unpacking error never arises |
| Population.AddMembership | src/bio2bel_wikipathways/manager.py:303-304 | the link is added once; an existing link leaves the tables unchanged |
| Population.GeneStepEffect | src/bio2bel_wikipathways/manager.py:286-304 | one gene fails iff its symbol has no HGNC id; otherwise the tables stay consistent and the gene is linked or recorded missing, and a protein row it creates is `Protein(entrez id, its symbol, that symbol's HGNC id)` |
| Population.RunGenesEffect | src/bio2bel_wikipathways/manager.py:286-304 | a record's gene loop fails iff a gene is unmappable; otherwise it links exactly the resolved genes, records exactly the unresolved ones, keeps every stored protein, and every new protein row carries the gene's resolved symbol and that symbol's HGNC id |
| Population.RecordStepEffect | src/bio2bel_wikipathways/manager.py:283-306 | one record stores its pathway once, a new row under the record's name, and links its resolved genes, each new protein row carrying the resolved symbol and HGNC id; or it fails iff one of its genes is unmappable |
| Population.RunRecordsEffect | src/bio2bel_wikipathways/manager.py:283-306 | the run fails iff some gene is unmappable; the tables stay consistent and only grow; a successful run adds exactly the records' pathway ids, links and protein keys, each new pathway row named after the first record with its id and each new protein row holding the gene's resolved symbol and HGNC id |
| Population.PopulateSucceedsIff | src/bio2bel_wikipathways/manager.py:263-306 | `populate` succeeds iff the file parses and no gene's symbol lacks an HGNC id |
| Population.PopulateEffect | src/bio2bel_wikipathways/manager.py:263-306 | on success the stored ids, links, protein keys and missing ids are exactly what the records ask for; existing proteins are not rewritten; each new protein row is the gene's Entrez id, resolved symbol and HGNC id; each new pathway row has a new id and the name of the first record with that id |
| Population.PopulateKeepsValid | src/bio2bel_wikipathways/manager.py:263-306 | the schema constraints hold afterwards, the tables only grow, and a failed fetch or parse changes nothing |
| Population.RunRecordsStopsAtRecord | src/bio2bel_wikipathways/manager.py:306 | a failed run keeps exactly what the records before the failing one committed |
| Population.PopulateFailureKeepsCommitted | src/bio2bel_wikipathways/manager.py:300-306 | a failing `populate` leaves the commits of the records before the failing one |
| Population.RunRecordsSaturated | src/bio2bel_wikipathways/manager.py:283-306 | records already fully stored change nothing |
| Population.PopulateIdempotent | src/bio2bel_wikipathways/manager.py:263-306 | a second `populate` on the same file changes no table and reports the same missing ids |
| Population.PopulateAsWritten | src/bio2bel_wikipathways/manager.py:283 | the as-written loop header succeeds iff the parse yields no records, and never touches the tables |
| Population.AsWrittenLoadsNothing | src/bio2bel_wikipathways/manager.py:283 | on a file with a parseable line, the as-written loop raises and stores nothing, while the corrected loop stores the first record's pathway |
| Population.FirstRecordStored | src/bio2bel_wikipathways/manager.py:283-306 | when the first record's genes all map, its pathway is stored whatever follows |
| BelGraphs.Graph.AddQualifiedEdge | src/bio2bel_wikipathways/manager.py:330-336 | adds the edge and both endpoints, and keeps every edge between graph nodes |
| BelGraphs.Graph.AddQualifiedEdges | src/bio2bel_wikipathways/manager.py:329-336 | adding a set of edges one by one adds exactly those edges and their endpoints |
| Annotation.PathwayGraphEdges | src/bio2bel_wikipathways/manager.py:321-338 | the pathway graph's edges: `partOf` from the pathway node to each member protein's node (no contract; see `Annotation.PathwayGraphSize`) |
| Annotation.PathwayGraphSize | src/bio2bel_wikipathways/manager.py:313-338 | the pathway graph has one edge per member protein and, when non-empty, one node more than members |
| Annotation.FanOutEndpoints | src/bio2bel_wikipathways/manager.py:329-336 | a fan of edges from one node touches that node and its targets, or nothing |
| Annotation.PathwayNodeEdges | src/bio2bel_wikipathways/manager.py:349-362 | the edges added at one node by `enrich_wikipathways_pathway`, or why it raises there (no contract; see `Annotation.PathwayEnrichmentEdgesInto` and `Annotation.PathwayEnrichmentMirrorsGraph`) |
| Annotation.ProteinNodeEdges | src/bio2bel_wikipathways/manager.py:375-390 | the edges added at one node by `enrich_wikipathways_protein`, or why it raises there (no contract; see `Annotation.ProteinEnrichmentEdgesFrom` and `Annotation.ProteinEnrichmentOfStoredProtein`) |
| Annotation.PathwayEnrichmentEdgesInto | src/bio2bel_wikipathways/manager.py:349-362 | every edge the pathway enrichment adds runs `partOf` from an HGNC protein into a WikiPathways pathway node of the graph |
| Annotation.PathwayEnrichmentMirrorsGraph | src/bio2bel_wikipathways/manager.py:340-364 | enriching a pathway's own node gives the pathway graph's edges reversed, with the same members |
| Annotation.ProteinEnrichmentEdgesFrom | src/bio2bel_wikipathways/manager.py:375-390 | every edge the protein enrichment adds runs `partOf` from an HGNC protein node of the graph out to a WikiPathways pathway node |
| Annotation.ProteinEnrichmentOfStoredProtein | src/bio2bel_wikipathways/manager.py:375-390 | enriching the node of a stored protein that alone has its symbol adds exactly one edge to the node of each pathway it belongs to, and no other |
| WikiPathwaysManager.Manager.constructor | src/bio2bel_wikipathways/manager.py:32-42 | a new manager on a fresh database starts with empty, consistent tables |
| WikiPathwaysManager.Manager.GetOrCreatePathway | src/bio2bel_wikipathways/manager.py:188-204 | the tables become `UpsertPathway` of the old ones, and the returned pathway is the stored one with that id |
| WikiPathwaysManager.Manager.GetOrCreateProtein | src/bio2bel_wikipathways/manager.py:206-225 | the tables become `UpsertProtein` of the old ones; the result is the stored protein, old if present, new otherwise |
| WikiPathwaysManager.Manager.Populate | src/bio2bel_wikipathways/manager.py:263-309 | the tables, missing ids and error are exactly those of `Population.Populate` on the old tables |
| WikiPathwaysManager.Manager.PopulateRecord | src/bio2bel_wikipathways/manager.py:283-306 | one record's loop agrees with `RecordStep`, and a failing record restores the last committed tables |
| WikiPathwaysManager.Manager.PopulateGene | src/bio2bel_wikipathways/manager.py:286-304 | one gene's step agrees with `GeneStep`; when the HGNC id lookup raises, the tables, the cache and the missing set are untouched |
| WikiPathwaysManager.Manager.GetPathwayGraphById | src/bio2bel_wikipathways/manager.py:313-338 | unknown id raises; otherwise a fresh graph named "<name> graph" holding exactly the pathway's edges and their endpoints |
| WikiPathwaysManager.EnrichNodes | src/bio2bel_wikipathways/manager.py:349-362 | for any per-node enrichment: fails iff some node present on entry raises, with that node's error; on success adds exactly the collected edges and their endpoints; on failure the edges and nodes added lie between the old ones and the old ones plus all collected edges and their endpoints; keeps the graph valid |
| WikiPathwaysManager.EnrichNode | src/bio2bel_wikipathways/manager.py:351-362 | one node: raises iff its enrichment raises, and then leaves the edges and nodes unchanged; otherwise adds exactly its edges and their endpoints |
| WikiPathwaysManager.Manager.EnrichWikipathwaysPathway | src/bio2bel_wikipathways/manager.py:340-364 | fails iff some pathway node names no stored pathway (or lacks a namespace); otherwise adds exactly the member-protein edges and their endpoints; on failure the edges and nodes added lie within those of all pathway nodes |
| WikiPathwaysManager.Manager.EnrichWikipathwaysProtein | src/bio2bel_wikipathways/manager.py:366-390 | fails iff some HGNC protein node has no name, no stored protein or several; otherwise adds exactly the edges to its pathways and their endpoints; on failure the edges and nodes added lie within those of all protein nodes |

## Findings

| source | as written | input that shows it | evidently intended | confidence | as-written member | corrected member |
|---|---|---|---|---|---|---|
| src/bio2bel_wikipathways/manager.py:283 | the loop header unpacks each parsed record into three names (`pathway_name, wikipathways_id, gene_set`), but `parse_gmt_file` yields four fields (name, species, identifier, genes), so the first record raises `ValueError` and nothing is loaded | any fetched file with one well-formed line, e.g. `Name%WikiPathways_20180710%WP1%Homo sapiens<TAB>http://www.wikipathways.org/instance/WP1_r1<TAB>1` | unpack name, species, identifier and genes, and load the record | high (not executed) | Population.PopulateAsWritten, Population.AsWrittenLoadsNothing | Population.Populate, Population.FirstRecordStored, WikiPathwaysManager.Manager.Populate |

## Left out

- Fetching the GMT file (`requests`, the `file://` adapter, the default URL) is not modelled. `ParseGmtFile` and `Populate` take the status code and the decoded lines as parameters. UTF-8 decoding is not modelled: a line is a sequence of characters.
- The HGNC manager is not modelled. Its two mappings, Entrez id → symbol and symbol → HGNC id, are the `Population.Resolver` parameter.
- Logging and the `tqdm` progress bar are not modelled. They have no effect on the tables.
- The SQLAlchemy engine, session and connection plumbing is not modelled: `Manager.__init__` beyond table creation, `create_all`, `drop_all` and `ensure`. The tables are values, and a commit is the point where a record's changes become permanent.
- Row surrogate keys (`id` columns) are not modelled. Proteins are keyed by Entrez id, pathways by identifier, and join rows by that pair.
- The `Species` table, `species_id`, `revision` and `bel_encoding` are not modelled. `populate` never sets them.
  - The not-null constraint on `species_id` would make every inserted pathway fail to flush; the model does not enforce it.
  - The parsed species is kept in `GmtRecord` but is not stored.
- `get_all_pathways`, `get_pathway_names_to_ids`, `query_pathway_by_name` and `get_protein_by_hgnc_id` are not modelled. They are plain table reads outside the core. The size and symbol queries read every pathway row through `get_all_pathways`, and `export_genesets` reads them with its own query; the model reads `db.pathways` in all three.
- The mixins `CompathPathwayMixin` and `CompathProteinMixin` are not part of this model. Their methods are modelled as follows:
  - `get_gene_set` is taken to be the set of the pathway's protein symbols (`Store.GeneSet`);
  - `get_pathways_ids` is taken to be the protein's pathway identifiers (`Store.PathwaysOf`);
  - `serialize_to_protein_node` is taken to be `to_pybel` (`Models.ToPybel`);
  - `serialize_to_pathway_node` is taken to be a biological-process node in the WikiPathways namespace (`Models.PathwayNode`).
- PyBEL internals are not modelled. BEL nodes compare by their function, namespace, name and identifier. A graph is a set of nodes and a set of edges, and an edge is identified by its data.
- WikiPathwaysManager.EnrichNodes visits a snapshot of the graph's nodes taken on entry. Adding nodes while iterating over the live node view of a networkx graph would raise, and the model does not capture that error. Visiting order is arbitrary, so on failure the model only states that the edges and nodes added lie between the old ones and the old ones plus all enrichment edges and their endpoints.
- WikiPathwaysManager.Manager.GetOrCreatePathway, WikiPathwaysManager.Manager.GetOrCreateProtein and WikiPathwaysManager.Manager.PopulateRecord do not model the session's visibility rules. The session is built with `autoflush=False`, so a row staged by `session.add` is not found by `get_pathway_by_id` or `get_protein_by_entrez_id` until a commit. The model makes a new row visible at once (`Store.UpsertPathwayFound`).
  - In the source, two calls with the same new key before a commit stage two rows: two pathways then break the unique identifier at commit, and two proteins are committed and later make `one_or_none` raise. The model stores one row.
  - Within `populate` the two agree: every record ends in a commit, so a pathway created by one record is visible to the next, and the run's `entrez_id_protein` cache means a protein created within a record is never looked up again.
  - A record that raises `KeyError` is not rolled back in the source; its staged rows stay in the session and would be flushed by a later commit on the same session. `PopulateRecord` restores the committed tables instead.
- Store.PathwayByName: `.first()` without an `order_by` returns whichever matching row the database yields first; the model takes the first matching row in insertion order.
- Store.SizesByName: when two pathways with proteins share a name, the last of them wins, matching dictionary-comprehension order; pathways without proteins are skipped and never overwrite a value. The model stores pathways in insertion order; the database's row order is not modelled.
- `to_belns.py`, `cli.py`, `web.py`, `utils.py`, `constants.py` and `__main__.py` are not part of this model.
