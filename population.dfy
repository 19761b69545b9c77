/**
 * What `Manager.populate` (src/bio2bel_wikipathways/manager.py) does to the
 * tables, written as a fold over the parsed records and their genes.
 *
 * Each Entrez id is resolved to an HGNC symbol, and each symbol to an HGNC
 * id, through two mappings (the HGNC manager's tables, given here as plain
 * maps). The session is committed after every record: when a record raises,
 * the tables keep what the earlier records committed and nothing of the
 * failing one.
 */
module Population {
  import opened Wrappers
  import opened Models
  import opened Store
  import opened GmtParser

  /** The two mappings `populate` builds from the HGNC manager. */
  datatype Resolver = Resolver(entrezToSymbol: map<string, string>, symbolToId: map<string, string>)

  /** `if not hgnc_symbol`: an Entrez id without a symbol, or with the empty symbol, is missing. */
  predicate Resolved(res: Resolver, entrezId: string)
  {
    entrezId in res.entrezToSymbol && res.entrezToSymbol[entrezId] != ""
  }

  /** A resolved Entrez id whose symbol has no HGNC id: `hgnc_symbol_id[hgnc_symbol]` raises `KeyError`. */
  predicate Unmappable(res: Resolver, entrezId: string)
  {
    Resolved(res, entrezId) && res.entrezToSymbol[entrezId] !in res.symbolToId
  }

  /** Why `populate` stops: the file could not be read, or a symbol has no HGNC id. */
  datatype PopulateError =
    | ParseFailed(parseError: ParseError)
    | UnknownHgncSymbol(symbol: string)
    | TooManyValuesToUnpack(expected: nat, got: nat)

  /** The tables together with `populate`'s locals `entrez_id_protein` and `missing_entrez_ids`. */
  datatype RunState = RunState(db: Db, cache: map<string, Protein>, missing: set<string>)

  /** Where a run stopped: its last committed state, and the error that stopped it, if any. */
  datatype Outcome = Outcome(state: RunState, error: Option<PopulateError>)

  /** `protein.pathways.append(pathway)` guarded by `if pathway not in protein.pathways`. */
  function AddMembership(db: Db, protein: Protein, id: string): (r: Db)
    ensures r.memberships == db.memberships + {Membership(protein.entrezId, id)}
    ensures Membership(protein.entrezId, id) in db.memberships ==> r == db
    ensures r.pathways == db.pathways && r.proteins == db.proteins
  {
    if Membership(protein.entrezId, id) in db.memberships then db
    else db.(memberships := db.memberships + {Membership(protein.entrezId, id)})
  }

  /**
   * One gene of a record: take the protein from the run's cache; otherwise
   * resolve the symbol, recording the id as missing when there is none, and
   * get or create the protein; then link it to the pathway.
   */
  function GeneStep(st: RunState, res: Resolver, id: string, entrezId: string): (r: Result<RunState, PopulateError>)
    ensures r.Failure? ==> Unmappable(res, entrezId) && r.error == UnknownHgncSymbol(res.entrezToSymbol[entrezId])
    ensures r.Success? ==>
      && r.value.db.pathways == st.db.pathways && st.missing <= r.value.missing
      && st.db.memberships <= r.value.db.memberships && st.db.proteins.Keys <= r.value.db.proteins.Keys
  {
    if entrezId in st.cache then Success(st.(db := AddMembership(st.db, st.cache[entrezId], id)))
    else if !Resolved(res, entrezId) then Success(st.(missing := st.missing + {entrezId}))
    else
      var symbol := res.entrezToSymbol[entrezId];
      if symbol !in res.symbolToId then Failure(UnknownHgncSymbol(symbol))
      else
        var db := UpsertProtein(st.db, entrezId, symbol, res.symbolToId[symbol]);
        var protein := db.proteins[entrezId];
        Success(RunState(AddMembership(db, protein, id), st.cache[entrezId := protein], st.missing))
  }

  /** The inner loop over a record's genes, stopping at the first error. */
  function RunGenes(st: RunState, res: Resolver, id: string, genes: seq<string>): (r: Result<RunState, PopulateError>)
    ensures r.Failure? ==> r.error.UnknownHgncSymbol?
    ensures r.Success? ==>
      && r.value.db.pathways == st.db.pathways && st.missing <= r.value.missing
      && st.db.memberships <= r.value.db.memberships && st.db.proteins.Keys <= r.value.db.proteins.Keys
    decreases |genes|
  {
    if genes == [] then Success(st)
    else
      match GeneStep(st, res, id, genes[0])
      case Failure(err) => Failure(err)
      case Success(next) => RunGenes(next, res, id, genes[1..])
  }

  /** One record: get or create its pathway, then run over its genes. */
  function RecordStep(st: RunState, res: Resolver, rec: GmtRecord): (r: Result<RunState, PopulateError>)
    ensures r.Failure? ==> r.error.UnknownHgncSymbol?
    ensures r.Success? ==> rec.identifier in PathwayIds(r.value.db) && st.db.pathways <= r.value.db.pathways
  {
    RunGenes(st.(db := UpsertPathway(st.db, rec.identifier, rec.name)), res, rec.identifier, rec.genes)
  }

  /** The outer loop over the records; a failing record leaves the state its predecessors committed. */
  function RunRecords(st: RunState, res: Resolver, recs: seq<GmtRecord>): (r: Outcome)
    ensures st.db.pathways <= r.state.db.pathways && st.missing <= r.state.missing
    ensures r.error.Some? ==> r.error.value.UnknownHgncSymbol?
    decreases |recs|
  {
    if recs == [] then Outcome(st, None)
    else
      match RecordStep(st, res, recs[0])
      case Failure(err) => Outcome(st, Some(err))
      case Success(next) => RunRecords(next, res, recs[1..])
  }

  /** A run's starting state: the tables as they are, an empty cache and no missing ids. */
  function Start(db: Db): RunState
  {
    RunState(db, map[], {})
  }

  /**
   * `populate` over the fetched file: parsing happens before any table is
   * touched, so a failed parse changes nothing.
   */
  function Populate(db: Db, res: Resolver, status: int, lines: seq<string>): (r: Outcome)
    ensures ParseGmtFile(status, lines).Failure? <==> r.error.Some? && r.error.value.ParseFailed?
    ensures ParseGmtFile(status, lines).Failure? ==> r.state == Start(db)
    ensures db.pathways <= r.state.db.pathways
    ensures r.error.Some? ==> !r.error.value.TooManyValuesToUnpack?
  {
    match ParseGmtFile(status, lines)
    case Failure(err) => Outcome(Start(db), Some(ParseFailed(err)))
    case Success(recs) => RunRecords(Start(db), res, recs)
  }

  // ---------------------------------------------------------------------
  // What a run adds, record by record.

  /** The Entrez ids named by the records. */
  function Genes(recs: seq<GmtRecord>): set<string>
    decreases |recs|
  {
    if recs == [] then {} else GeneIds(recs[0].genes) + Genes(recs[1..])
  }

  /** The distinct Entrez ids of one gene list. */
  function GeneIds(genes: seq<string>): set<string>
  {
    set e | e in genes
  }

  /** The pathway identifiers of the records. */
  function Ids(recs: seq<GmtRecord>): set<string>
    decreases |recs|
  {
    if recs == [] then {} else {recs[0].identifier} + Ids(recs[1..])
  }

  /** The join rows linking each resolved gene among `genes` to pathway `id`. */
  function Links(res: Resolver, genes: set<string>, id: string): set<Membership>
  {
    set e | e in ResolvedIn(res, genes) :: Membership(e, id)
  }

  /** The join rows a record asks for: each of its resolved genes with its pathway. */
  function RecordEdges(res: Resolver, rec: GmtRecord): set<Membership>
  {
    Links(res, GeneIds(rec.genes), rec.identifier)
  }

  /** The join rows the records ask for. */
  function Edges(res: Resolver, recs: seq<GmtRecord>): set<Membership>
    decreases |recs|
  {
    if recs == [] then {} else RecordEdges(res, recs[0]) + Edges(res, recs[1..])
  }

  /** The resolved genes among `genes`. */
  function ResolvedIn(res: Resolver, genes: set<string>): set<string>
  {
    set e | e in genes && Resolved(res, e)
  }

  /** The unresolved genes among `genes`. */
  function UnresolvedIn(res: Resolver, genes: set<string>): set<string>
  {
    set e | e in genes && !Resolved(res, e)
  }

  // ---------------------------------------------------------------------
  // Invariants of a run.

  /**
   * The per-run cache holds, for each Entrez id it has seen, the one stored
   * protein with that id; only resolved, mappable ids get there.
   */
  predicate CacheOk(st: RunState, res: Resolver)
  {
    forall e :: e in st.cache ==>
      && e in st.db.proteins && st.db.proteins[e] == st.cache[e]
      && Resolved(res, e) && !Unmappable(res, e)
  }

  /** The tables keep their constraints and the cache agrees with them. */
  predicate RunOk(st: RunState, res: Resolver)
  {
    Valid(st.db) && CacheOk(st, res)
  }

  /**
   * The protein row `populate` creates for a resolved, mappable Entrez id:
   * `get_or_create_protein(entrez_id, hgnc_symbol, hgnc_symbol_id[hgnc_symbol])`.
   */
  function ResolvedProtein(res: Resolver, entrezId: string): (p: Protein)
    requires Resolved(res, entrezId) && !Unmappable(res, entrezId)
    ensures p.entrezId == entrezId && p.hgncSymbol == res.entrezToSymbol[entrezId] && p.hgncSymbol != ""
    ensures p.hgncId == res.symbolToId[p.hgncSymbol]
  {
    Protein(entrezId, res.entrezToSymbol[entrezId], res.symbolToId[res.entrezToSymbol[entrezId]])
  }

  /** Every protein row of `db'` that `db` lacks is the row its Entrez id resolves to. */
  predicate NewProteinsResolved(db: Db, db': Db, res: Resolver)
  {
    forall e :: e in db'.proteins && e !in db.proteins ==>
      && Resolved(res, e) && !Unmappable(res, e)
      && db'.proteins[e] == ResolvedProtein(res, e)
  }

  /** New rows over two steps are new rows of one of them, and the second step keeps the first one's rows. */
  lemma NewProteinsResolvedTrans(a: Db, b: Db, c: Db, res: Resolver)
    requires NewProteinsResolved(a, b, res) && NewProteinsResolved(b, c, res)
    requires a.proteins.Keys <= b.proteins.Keys <= c.proteins.Keys
    requires forall e :: e in b.proteins ==> c.proteins[e] == b.proteins[e]
    ensures NewProteinsResolved(a, c, res)
  {
  }

  /** The name of the first record with identifier `id`, the one `get_or_create_pathway` stores. */
  function FirstName(recs: seq<GmtRecord>, id: string): string
    decreases |recs|
  {
    if recs == [] then ""
    else if recs[0].identifier == id then recs[0].name
    else FirstName(recs[1..], id)
  }

  /**
   * Every pathway row of `db'` past those of `db` has a new identifier named
   * by a record, and carries the name of the first record with it.
   */
  predicate NewPathwaysNamed(db: Db, db': Db, recs: seq<GmtRecord>)
  {
    forall i :: |db.pathways| <= i < |db'.pathways| ==>
      && db'.pathways[i].identifier in Ids(recs)
      && db'.pathways[i].identifier !in PathwayIds(db)
      && db'.pathways[i].name == FirstName(recs, db'.pathways[i].identifier)
  }

  /** What one successful pass over the genes of pathway `id` did to the state. */
  predicate GenesEffect(st: RunState, st': RunState, res: Resolver, id: string, genes: set<string>)
  {
    && st'.db.pathways == st.db.pathways
    && st'.db.memberships == st.db.memberships + Links(res, genes, id)
    && st'.db.proteins.Keys == st.db.proteins.Keys + ResolvedIn(res, genes)
    && (forall e :: e in st.db.proteins ==> st'.db.proteins[e] == st.db.proteins[e])
    && NewProteinsResolved(st.db, st'.db, res)
    && st'.missing == st.missing + UnresolvedIn(res, genes)
  }

  /** A gene step on a consistent state keeps it consistent and does what `GenesEffect` says for that gene. */
  lemma GeneStepEffect(st: RunState, res: Resolver, id: string, e: string)
    requires RunOk(st, res) && id in PathwayIds(st.db)
    ensures GeneStep(st, res, id, e).Failure? <==> Unmappable(res, e)
    ensures GeneStep(st, res, id, e).Failure? ==> GeneStep(st, res, id, e).error == UnknownHgncSymbol(res.entrezToSymbol[e])
    ensures GeneStep(st, res, id, e).Success? ==>
      && RunOk(GeneStep(st, res, id, e).value, res)
      && GenesEffect(st, GeneStep(st, res, id, e).value, res, id, {e})
  {
    var r := GeneStep(st, res, id, e);
    assert ResolvedIn(res, {e}) == if Resolved(res, e) then {e} else {};
    assert UnresolvedIn(res, {e}) == if Resolved(res, e) then {} else {e};
    if r.Success? && Resolved(res, e) {
      var st' := r.value;
      assert Links(res, {e}, id) == {Membership(e, id)};
      if e !in st.cache {
        assert st'.db.proteins[e].entrezId == e;
      }
    }
  }

  /** Two effects in a row are the effect over both gene sets. */
  lemma GenesEffectCompose(s0: RunState, s1: RunState, s2: RunState, res: Resolver, id: string, a: set<string>, b: set<string>)
    requires GenesEffect(s0, s1, res, id, a) && GenesEffect(s1, s2, res, id, b)
    ensures GenesEffect(s0, s2, res, id, a + b)
  {
    assert ResolvedIn(res, a + b) == ResolvedIn(res, a) + ResolvedIn(res, b);
    assert UnresolvedIn(res, a + b) == UnresolvedIn(res, a) + UnresolvedIn(res, b);
    assert Links(res, a + b, id) == Links(res, a, id) + Links(res, b, id);
    NewProteinsResolvedTrans(s0.db, s1.db, s2.db, res);
  }

  /**
   * The gene loop of one record: it fails exactly when one of the genes is
   * unmappable; otherwise it keeps the state consistent, links every resolved
   * gene to the pathway, creates the proteins not yet stored, leaves every
   * stored protein as it was, and records every unresolved gene as missing.
   */
  lemma {:induction false} RunGenesEffect(st: RunState, res: Resolver, id: string, genes: seq<string>)
    requires RunOk(st, res) && id in PathwayIds(st.db)
    ensures RunGenes(st, res, id, genes).Failure? <==> exists e :: e in genes && Unmappable(res, e)
    ensures RunGenes(st, res, id, genes).Success? ==>
      && RunOk(RunGenes(st, res, id, genes).value, res)
      && GenesEffect(st, RunGenes(st, res, id, genes).value, res, id, GeneIds(genes))
    decreases |genes|
  {
    if genes == [] {
      assert GeneIds(genes) == {};
      assert ResolvedIn(res, {}) == {} && UnresolvedIn(res, {}) == {};
      assert Links(res, {}, id) == {};
    } else {
      var e := genes[0];
      GeneStepEffect(st, res, id, e);
      assert forall x :: x in genes <==> x == e || x in genes[1..];
      var step := GeneStep(st, res, id, e);
      if step.Success? {
        var next := step.value;
        assert PathwayIds(next.db) == PathwayIds(st.db);
        RunGenesEffect(next, res, id, genes[1..]);
        var r := RunGenes(next, res, id, genes[1..]);
        if r.Success? {
          GenesEffectCompose(st, next, r.value, res, id, {e}, GeneIds(genes[1..]));
          assert {e} + GeneIds(genes[1..]) == GeneIds(genes);
        }
      }
    }
  }

  /** The tables after a run only grow: rows are added, none is removed or rewritten. */
  predicate Extends(db: Db, db': Db)
  {
    && db.pathways <= db'.pathways
    && db.memberships <= db'.memberships
    && db.proteins.Keys <= db'.proteins.Keys
    && (forall e :: e in db.proteins ==> db'.proteins[e] == db.proteins[e])
  }

  /** What a successful run over `recs` did to the state. */
  predicate RunEffect(st: RunState, st': RunState, res: Resolver, recs: seq<GmtRecord>)
  {
    && Extends(st.db, st'.db)
    && PathwayIds(st'.db) == PathwayIds(st.db) + Ids(recs)
    && (Ids(recs) <= PathwayIds(st.db) ==> st'.db.pathways == st.db.pathways)
    && st'.db.memberships == st.db.memberships + Edges(res, recs)
    && st'.db.proteins.Keys == st.db.proteins.Keys + ResolvedIn(res, Genes(recs))
    && NewProteinsResolved(st.db, st'.db, res)
    && NewPathwaysNamed(st.db, st'.db, recs)
    && st'.missing == st.missing + UnresolvedIn(res, Genes(recs))
  }

  /**
   * One record: it fails exactly when one of its genes is unmappable;
   * otherwise its pathway is stored (once), every resolved gene is linked to
   * it, and every unresolved gene is recorded as missing.
   */
  lemma RecordStepEffect(st: RunState, res: Resolver, rec: GmtRecord)
    requires RunOk(st, res)
    ensures RecordStep(st, res, rec).Failure? <==> exists e :: e in rec.genes && Unmappable(res, e)
    ensures RecordStep(st, res, rec).Success? ==>
      && RunOk(RecordStep(st, res, rec).value, res)
      && RunEffect(st, RecordStep(st, res, rec).value, res, [rec])
  {
    var st1 := st.(db := UpsertPathway(st.db, rec.identifier, rec.name));
    UpsertsKeepValid(st.db, rec.identifier, rec.name, "", "", "");
    assert RunOk(st1, res);
    RunGenesEffect(st1, res, rec.identifier, rec.genes);
    assert Ids([rec]) == {rec.identifier};
    assert Genes([rec]) == GeneIds(rec.genes);
    assert Edges(res, [rec]) == RecordEdges(res, rec);
  }

  /** Extending is transitive. */
  lemma ExtendsTrans(a: Db, b: Db, c: Db)
    requires Extends(a, b) && Extends(b, c)
    ensures Extends(a, c)
  {
  }

  /** The effect of one record followed by the effect of the rest is the effect of all of them. */
  lemma RunEffectCompose(s0: RunState, s1: RunState, s2: RunState, res: Resolver, recs: seq<GmtRecord>)
    requires recs != []
    requires RunEffect(s0, s1, res, [recs[0]]) && RunEffect(s1, s2, res, recs[1..])
    ensures RunEffect(s0, s2, res, recs)
  {
    RecordsSplit(res, recs);
    ResolvedSplit(res, Genes([recs[0]]), Genes(recs[1..]));
    ExtendsTrans(s0.db, s1.db, s2.db);
    assert NewProteinsResolved(s0.db, s2.db, res) by {
      NewProteinsResolvedTrans(s0.db, s1.db, s2.db, res);
    }
    assert NewPathwaysNamed(s0.db, s2.db, recs) by {
      NewPathwaysNamedCons(s0.db, s1.db, s2.db, recs);
    }
  }

  /** The pathway rows one record and then the rest add carry the names of the first records with their identifiers. */
  lemma NewPathwaysNamedCons(db0: Db, db1: Db, db2: Db, recs: seq<GmtRecord>)
    requires recs != []
    requires NewPathwaysNamed(db0, db1, [recs[0]]) && NewPathwaysNamed(db1, db2, recs[1..])
    requires db0.pathways <= db1.pathways <= db2.pathways
    requires PathwayIds(db1) == PathwayIds(db0) + Ids([recs[0]])
    requires Ids(recs) == Ids([recs[0]]) + Ids(recs[1..])
    ensures NewPathwaysNamed(db0, db2, recs)
  {
    var first := recs[0].identifier;
    assert Ids([recs[0]]) == {first} by {
      assert [recs[0]][1..] == [];
    }
    forall i | |db0.pathways| <= i < |db2.pathways|
      ensures db2.pathways[i].identifier in Ids(recs)
      ensures db2.pathways[i].identifier !in PathwayIds(db0)
      ensures db2.pathways[i].name == FirstName(recs, db2.pathways[i].identifier)
    {
      var p := db2.pathways[i];
      if i < |db1.pathways| {
        assert p == db1.pathways[i];
        assert p.identifier == first;
        assert FirstName([recs[0]], first) == recs[0].name;
      } else {
        assert first in PathwayIds(db1);
        assert p.identifier != first;
      }
    }
  }

  /** What a run asks for splits over its first record and the rest. */
  lemma RecordsSplit(res: Resolver, recs: seq<GmtRecord>)
    requires recs != []
    ensures Ids(recs) == Ids([recs[0]]) + Ids(recs[1..])
    ensures Genes(recs) == Genes([recs[0]]) + Genes(recs[1..])
    ensures Edges(res, recs) == Edges(res, [recs[0]]) + Edges(res, recs[1..])
  {
    var first := [recs[0]];
    assert first[0] == recs[0] && first[1..] == [];
  }

  /** Resolving distributes over a union of gene sets. */
  lemma ResolvedSplit(res: Resolver, a: set<string>, b: set<string>)
    ensures ResolvedIn(res, a + b) == ResolvedIn(res, a) + ResolvedIn(res, b)
    ensures UnresolvedIn(res, a + b) == UnresolvedIn(res, a) + UnresolvedIn(res, b)
  {
  }

  /**
   * The outer loop: it stops with an error exactly when some gene of some
   * record is unmappable, and it always leaves consistent tables that only
   * grew. When it completes, every record's pathway is stored, every resolved
   * gene has exactly one protein and is linked to the pathways naming it, and
   * the missing ids are exactly the unresolved genes.
   */
  lemma {:induction false} RunRecordsEffect(st: RunState, res: Resolver, recs: seq<GmtRecord>)
    requires RunOk(st, res)
    ensures RunRecords(st, res, recs).error.None? <==> forall e :: e in Genes(recs) ==> !Unmappable(res, e)
    ensures RunOk(RunRecords(st, res, recs).state, res)
    ensures Extends(st.db, RunRecords(st, res, recs).state.db)
    ensures RunRecords(st, res, recs).error.None? ==> RunEffect(st, RunRecords(st, res, recs).state, res, recs)
    decreases |recs|
  {
    if recs == [] {
      assert Genes(recs) == {} && Ids(recs) == {} && Edges(res, recs) == {};
      assert ResolvedIn(res, {}) == {} && UnresolvedIn(res, {}) == {};
    } else {
      RecordStepEffect(st, res, recs[0]);
      var step := RecordStep(st, res, recs[0]);
      if step.Success? {
        RunRecordsEffect(step.value, res, recs[1..]);
        RunRecordsEffectCons(st, step.value, res, recs);
      } else {
        assert Genes(recs) == GeneIds(recs[0].genes) + Genes(recs[1..]);
      }
    }
  }

  /** The step of `RunRecordsEffect` when the first record goes through. */
  lemma RunRecordsEffectCons(st: RunState, next: RunState, res: Resolver, recs: seq<GmtRecord>)
    requires recs != [] && RecordStep(st, res, recs[0]) == Success(next)
    requires RunOk(next, res) && RunEffect(st, next, res, [recs[0]])
    requires forall e :: e in recs[0].genes ==> !Unmappable(res, e)
    requires var out := RunRecords(next, res, recs[1..]);
      && (out.error.None? <==> forall e :: e in Genes(recs[1..]) ==> !Unmappable(res, e))
      && RunOk(out.state, res) && Extends(next.db, out.state.db)
      && (out.error.None? ==> RunEffect(next, out.state, res, recs[1..]))
    ensures RunRecords(st, res, recs).error.None? <==> forall e :: e in Genes(recs) ==> !Unmappable(res, e)
    ensures RunOk(RunRecords(st, res, recs).state, res)
    ensures Extends(st.db, RunRecords(st, res, recs).state.db)
    ensures RunRecords(st, res, recs).error.None? ==> RunEffect(st, RunRecords(st, res, recs).state, res, recs)
  {
    var out := RunRecords(next, res, recs[1..]);
    assert RunRecords(st, res, recs) == out;
    assert Genes(recs) == GeneIds(recs[0].genes) + Genes(recs[1..]);
    ExtendsTrans(st.db, next.db, out.state.db);
    if out.error.None? {
      RunEffectCompose(st, next, out.state, res, recs);
    }
  }


  // ---------------------------------------------------------------------
  // `populate` as a whole.

  /**
   * `populate` completes exactly when the file was fetched and parsed and no
   * gene of it resolves to a symbol without an HGNC id.
   */
  lemma PopulateSucceedsIff(db: Db, res: Resolver, status: int, lines: seq<string>)
    requires Valid(db)
    ensures Populate(db, res, status, lines).error.None? <==>
      && ParseGmtFile(status, lines).Success?
      && forall e :: e in Genes(ParseGmtFile(status, lines).value) ==> !Unmappable(res, e)
  {
    if ParseGmtFile(status, lines).Success? {
      RunRecordsEffect(Start(db), res, ParseGmtFile(status, lines).value);
    }
  }

  /**
   * A completed `populate`: every record's pathway is stored, a new pathway
   * row under the name of the first record with its identifier; each resolved
   * gene has its protein (existing proteins keep their symbol and HGNC id, a
   * new one carries the gene's symbol and that symbol's HGNC id) and is linked
   * to every pathway that lists it, nothing else is linked, and the missing
   * ids are exactly the genes without a symbol.
   */
  lemma PopulateEffect(db: Db, res: Resolver, status: int, lines: seq<string>)
    requires Valid(db) && Populate(db, res, status, lines).error.None?
    ensures ParseGmtFile(status, lines).Success?
    ensures var recs := ParseGmtFile(status, lines).value;
      var out := Populate(db, res, status, lines).state;
      && PathwayIds(out.db) == PathwayIds(db) + Ids(recs)
      && out.db.memberships == db.memberships + Edges(res, recs)
      && out.db.proteins.Keys == db.proteins.Keys + ResolvedIn(res, Genes(recs))
      && (forall e :: e in db.proteins ==> out.db.proteins[e] == db.proteins[e])
      && NewProteinsResolved(db, out.db, res)
      && NewPathwaysNamed(db, out.db, recs)
      && out.missing == UnresolvedIn(res, Genes(recs))
  {
    RunRecordsEffect(Start(db), res, ParseGmtFile(status, lines).value);
  }

  /**
   * Whatever happens, `populate` leaves tables that satisfy the schema and
   * extend the old ones; a failed fetch or parse leaves them untouched.
   */
  lemma PopulateKeepsValid(db: Db, res: Resolver, status: int, lines: seq<string>)
    requires Valid(db)
    ensures Valid(Populate(db, res, status, lines).state.db)
    ensures Extends(db, Populate(db, res, status, lines).state.db)
    ensures ParseGmtFile(status, lines).Failure? ==> Populate(db, res, status, lines).state.db == db
  {
    if ParseGmtFile(status, lines).Success? {
      RunRecordsEffect(Start(db), res, ParseGmtFile(status, lines).value);
    }
  }

  /**
   * Commit per pathway: a run that stops with an error leaves exactly the
   * state reached after the records before the failing one.
   */
  lemma {:induction false} RunRecordsStopsAtRecord(st: RunState, res: Resolver, recs: seq<GmtRecord>)
    requires RunRecords(st, res, recs).error.Some?
    ensures exists k :: 0 <= k < |recs| && CommittedBefore(st, res, recs, k)
    decreases |recs|
  {
    var step := RecordStep(st, res, recs[0]);
    if step.Failure? {
      assert recs[..0] == [];
      assert CommittedBefore(st, res, recs, 0);
    } else {
      var rest := recs[1..];
      RunRecordsStopsAtRecord(step.value, res, rest);
      var k :| 0 <= k < |rest| && CommittedBefore(step.value, res, rest, k);
      CommittedBeforeCons(st, res, recs, k);
    }
  }

  /** A failing record of the tail is, one place later, the failing record of the whole run. */
  lemma CommittedBeforeCons(st: RunState, res: Resolver, recs: seq<GmtRecord>, k: int)
    requires recs != [] && RecordStep(st, res, recs[0]).Success?
    requires CommittedBefore(RecordStep(st, res, recs[0]).value, res, recs[1..], k)
    ensures CommittedBefore(st, res, recs, k + 1)
  {
    var next := RecordStep(st, res, recs[0]).value;
    assert RunRecords(st, res, recs) == RunRecords(next, res, recs[1..]);
    RunRecordsPrefixCons(st, res, recs, k + 1);
    assert recs[k + 1] == recs[1..][k];
  }

  /** A run over a non-empty prefix whose first record goes through continues from that record's state. */
  lemma RunRecordsPrefixCons(st: RunState, res: Resolver, recs: seq<GmtRecord>, k: nat)
    requires 0 < k <= |recs| && RecordStep(st, res, recs[0]).Success?
    ensures RunRecords(st, res, recs[..k]) == RunRecords(RecordStep(st, res, recs[0]).value, res, recs[1..][..k - 1])
  {
    PrefixTail(recs, k);
  }

  /** The tail of a non-empty prefix is a prefix of the tail. */
  lemma PrefixTail<T>(s: seq<T>, k: nat)
    requires 0 < k <= |s|
    ensures s[..k] != [] && s[..k][0] == s[0] && s[..k][1..] == s[1..][..k - 1]
  {
  }

  /**
   * Record `k` is the one that failed: the run's final state is the state
   * after the records before it, and that record fails from there.
   */
  predicate CommittedBefore(st: RunState, res: Resolver, recs: seq<GmtRecord>, k: int)
  {
    && 0 <= k < |recs|
    && RunRecords(st, res, recs[..k]).error.None?
    && RunRecords(st, res, recs).state == RunRecords(st, res, recs[..k]).state
    && RecordStep(RunRecords(st, res, recs[..k]).state, res, recs[k]).Failure?
    && RunRecords(st, res, recs).error == Some(RecordStep(RunRecords(st, res, recs[..k]).state, res, recs[k]).error)
  }

  /** `populate` stopped by a missing HGNC id keeps what the earlier pathways committed. */
  lemma PopulateFailureKeepsCommitted(db: Db, res: Resolver, status: int, lines: seq<string>)
    requires Populate(db, res, status, lines).error.Some?
    requires ParseGmtFile(status, lines).Success?
    ensures exists k :: CommittedBefore(Start(db), res, ParseGmtFile(status, lines).value, k)
  {
    RunRecordsStopsAtRecord(Start(db), res, ParseGmtFile(status, lines).value);
  }

  /**
   * A run over records whose pathways, proteins and links are all stored
   * already, none of them unmappable, changes no table.
   */
  lemma RunRecordsSaturated(st: RunState, res: Resolver, recs: seq<GmtRecord>)
    requires RunOk(st, res)
    requires Ids(recs) <= PathwayIds(st.db)
    requires ResolvedIn(res, Genes(recs)) <= st.db.proteins.Keys
    requires Edges(res, recs) <= st.db.memberships
    requires forall e :: e in Genes(recs) ==> !Unmappable(res, e)
    ensures RunRecords(st, res, recs).error.None?
    ensures RunRecords(st, res, recs).state.db == st.db
  {
    RunRecordsEffect(st, res, recs);
    var out := RunRecords(st, res, recs).state.db;
    assert out.pathways == st.db.pathways;
    assert out.memberships == st.db.memberships;
    assert out.proteins.Keys == st.db.proteins.Keys;
    assert out.proteins == st.db.proteins;
  }

  /**
   * Re-running `populate` with the same file and mappings after it completed
   * changes nothing: no pathway, protein or link is added twice, and the same
   * ids are reported missing.
   */
  lemma PopulateIdempotent(db: Db, res: Resolver, status: int, lines: seq<string>)
    requires Valid(db) && Populate(db, res, status, lines).error.None?
    ensures var once := Populate(db, res, status, lines).state;
      && Populate(once.db, res, status, lines).error.None?
      && Populate(once.db, res, status, lines).state.db == once.db
      && Populate(once.db, res, status, lines).state.missing == once.missing
  {
    var recs := ParseGmtFile(status, lines).value;
    var once := Populate(db, res, status, lines).state;
    PopulateEffect(db, res, status, lines);
    PopulateSucceedsIff(db, res, status, lines);
    PopulateKeepsValid(db, res, status, lines);
    RunRecordsSaturated(Start(once.db), res, recs);
    RunRecordsEffect(Start(once.db), res, recs);
  }

  // ---------------------------------------------------------------------
  // The loop header of `populate` as written.

  /** The number of fields of each parsed record: name, species, identifier, genes. */
  const RecordFields: nat := 4

  /** The number of names the loop header of `populate` unpacks each record into. */
  const LoopTargets: nat := 3

  /**
   * `populate` as written: its loop header unpacks each four-field record into
   * three names, so the first record raises `ValueError` before any table is
   * touched; only a file with no lines gets through.
   */
  function PopulateAsWritten(db: Db, res: Resolver, status: int, lines: seq<string>): (r: Outcome)
    ensures r.state == Start(db)
    ensures r.error.None? <==> ParseGmtFile(status, lines) == Success([])
    ensures ParseGmtFile(status, lines).Failure? ==> r == Populate(db, res, status, lines)
  {
    match ParseGmtFile(status, lines)
    case Failure(err) => Outcome(Start(db), Some(ParseFailed(err)))
    case Success(recs) =>
      if recs == [] then Outcome(Start(db), None)
      else Outcome(Start(db), Some(TooManyValuesToUnpack(LoopTargets, RecordFields)))
  }

  /**
   * On any fetched file with a line, all of whose lines parse, the loop as
   * written loads nothing and raises, whereas the loop that unpacks the name,
   * the identifier and the genes stores the first record's pathway as soon as
   * that record's genes all map.
   */
  lemma AsWrittenLoadsNothing(db: Db, res: Resolver, status: int, lines: seq<string>)
    requires Valid(db)
    requires ParseGmtFile(status, lines).Success? && lines != []
    requires forall e :: e in ParseGmtFile(status, lines).value[0].genes ==> !Unmappable(res, e)
    ensures PopulateAsWritten(db, res, status, lines).state.db == db
    ensures PopulateAsWritten(db, res, status, lines).error == Some(TooManyValuesToUnpack(3, 4))
    ensures ParseGmtFile(status, lines).value[0].identifier in PathwayIds(Populate(db, res, status, lines).state.db)
  {
    FirstRecordStored(Start(db), res, ParseGmtFile(status, lines).value);
  }

  /** A run whose first record's genes all map stores that record's pathway, whatever follows. */
  lemma FirstRecordStored(st: RunState, res: Resolver, recs: seq<GmtRecord>)
    requires RunOk(st, res) && recs != []
    requires forall e :: e in recs[0].genes ==> !Unmappable(res, e)
    ensures recs[0].identifier in PathwayIds(RunRecords(st, res, recs).state.db)
  {
    RecordStepEffect(st, res, recs[0]);
    var next := RecordStep(st, res, recs[0]).value;
    assert Ids([recs[0]]) == {recs[0].identifier};
    RunRecordsEffect(next, res, recs[1..]);
    var out := RunRecords(next, res, recs[1..]).state;
    PrefixKeepsIds(next.db, out.db);
  }

  /** Tables that extend others keep their pathway identifiers. */
  lemma PrefixKeepsIds(db: Db, db': Db)
    requires db.pathways <= db'.pathways
    ensures PathwayIds(db) <= PathwayIds(db')
  {
    forall id | id in PathwayIds(db) ensures id in PathwayIds(db') {
      var k :| 0 <= k < |db.pathways| && db.pathways[k].identifier == id;
      assert db'.pathways[k] == db.pathways[k];
    }
  }
}
