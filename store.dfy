/**
 * The committed content of the WikiPathways tables and the read-only queries
 * of the manager (src/bio2bel_wikipathways/manager.py) over it.
 *
 * Pathway rows are kept in insertion order, because `get_pathway_by_name`
 * answers with the first row that has the name and the dictionary views keep
 * the last row per name. Protein rows are keyed by Entrez id: the loader only
 * ever creates a protein after finding no row with that Entrez id.
 */
module Store {
  import opened Wrappers
  import opened Models

  datatype Db = Db(pathways: seq<Pathway>, proteins: map<string, Protein>, memberships: set<Membership>)

  /** The empty tables. */
  const EmptyDb: Db := Db([], map[], {})

  /** The identifiers of all pathway rows. */
  function PathwayIds(db: Db): set<string>
  {
    set p | p in db.pathways :: p.identifier
  }

  /** No two pathway rows share an identifier (the `unique=True` column). */
  predicate UniquePathwayIds(pathways: seq<Pathway>)
  {
    forall i, j :: 0 <= i < j < |pathways| ==> pathways[i].identifier != pathways[j].identifier
  }

  /**
   * The constraints of the schema: unique pathway identifiers, each protein
   * stored under its own Entrez id, and join rows that refer to stored rows.
   */
  predicate Valid(db: Db)
  {
    && UniquePathwayIds(db.pathways)
    && (forall e :: e in db.proteins ==> db.proteins[e].entrezId == e)
    && (forall m :: m in db.memberships ==> m.entrezId in db.proteins && m.pathwayId in PathwayIds(db))
  }

  /** The position of the first pathway row with identifier `id`, or the row count if there is none. */
  function IndexOfId(pathways: seq<Pathway>, id: string): (i: nat)
    ensures i <= |pathways|
    ensures forall j :: 0 <= j < i ==> pathways[j].identifier != id
    ensures i < |pathways| ==> pathways[i].identifier == id
  {
    if pathways == [] || pathways[0].identifier == id then 0 else 1 + IndexOfId(pathways[1..], id)
  }

  /** The position of the first pathway row named `name`, or the row count if there is none. */
  function IndexOfName(pathways: seq<Pathway>, name: string): (i: nat)
    ensures i <= |pathways|
    ensures forall j :: 0 <= j < i ==> pathways[j].name != name
    ensures i < |pathways| ==> pathways[i].name == name
  {
    if pathways == [] || pathways[0].name == name then 0 else 1 + IndexOfName(pathways[1..], name)
  }

  /**
   * `get_pathway_by_id`: the pathway row with that identifier, or None. Under
   * the unique constraint at most one row matches, so `one_or_none` never raises.
   */
  function PathwayById(db: Db, id: string): (r: Option<Pathway>)
    ensures r.None? <==> id !in PathwayIds(db)
    ensures r.Some? ==> r.value in db.pathways && r.value.identifier == id
  {
    var i := IndexOfId(db.pathways, id);
    if i < |db.pathways| then Some(db.pathways[i])
    else None
  }

  /** With unique identifiers the row found by identifier is the only one with it. */
  lemma PathwayByIdUnique(db: Db, p: Pathway)
    requires UniquePathwayIds(db.pathways) && p in db.pathways
    ensures PathwayById(db, p.identifier) == Some(p)
  {
    var k :| 0 <= k < |db.pathways| && db.pathways[k] == p;
    var i := IndexOfId(db.pathways, p.identifier);
    assert i <= k;
    assert db.pathways[i].identifier == db.pathways[k].identifier;
  }

  /**
   * `get_pathway_by_name`: None when no pathway has the name; otherwise the
   * first matching row (WikiPathways has duplicate names).
   */
  function PathwayByName(db: Db, name: string): (r: Option<Pathway>)
    ensures r.None? <==> forall p :: p in db.pathways ==> p.name != name
    ensures r.Some? ==> exists i :: FirstNamedAt(db.pathways, name, i) && db.pathways[i] == r.value
  {
    var i := IndexOfName(db.pathways, name);
    if i < |db.pathways| then
      assert FirstNamedAt(db.pathways, name, i);
      Some(db.pathways[i])
    else None
  }

  /** Row `i` is named `name` and no earlier row is. */
  predicate FirstNamedAt(pathways: seq<Pathway>, name: string, i: int)
  {
    0 <= i < |pathways| && pathways[i].name == name && forall j :: 0 <= j < i ==> pathways[j].name != name
  }

  /** `get_protein_by_entrez_id`: the protein row with that Entrez id, or None. */
  function ProteinByEntrezId(db: Db, entrezId: string): (r: Option<Protein>)
    ensures r.None? <==> entrezId !in db.proteins
    ensures r.Some? ==> r.value in db.proteins.Values && r.value == db.proteins[entrezId]
    ensures Valid(db) && r.Some? ==> r.value.entrezId == entrezId
  {
    if entrezId in db.proteins then Some(db.proteins[entrezId]) else None
  }

  /** The Entrez ids of the stored proteins with HGNC symbol `symbol`. */
  function WithSymbol(db: Db, symbol: string): set<string>
  {
    set e | e in db.proteins && db.proteins[e].hgncSymbol == symbol
  }

  /** `one_or_none` found two or more rows. */
  datatype LookupError = MultipleResultsFound

  /**
   * `get_protein_by_hgnc_symbol`: the only protein with that symbol, None if
   * there is none, and `MultipleResultsFound` if there are several.
   */
  function ProteinByHgncSymbol(db: Db, symbol: string): (r: Result<Option<Protein>, LookupError>)
    ensures r.Failure? <==> |WithSymbol(db, symbol)| >= 2
    ensures r == Success(None) <==> WithSymbol(db, symbol) == {}
    ensures r.Success? && r.value.Some? ==>
      exists e :: e in db.proteins && WithSymbol(db, symbol) == {e} && r.value.value == db.proteins[e]
  {
    var found := WithSymbol(db, symbol);
    if |found| == 0 then Success(None)
    else if |found| >= 2 then Failure(MultipleResultsFound)
    else
      SingletonElement(found);
      var e :| e in found;
      Success(Some(db.proteins[e]))
  }

  /** A set of size one is the singleton of each of its elements. */
  lemma SingletonElement<T>(s: set<T>)
    requires |s| == 1
    ensures forall x, y :: x in s && y in s ==> x == y
    ensures forall x :: x in s ==> s == {x}
  {
    forall x | x in s ensures s == {x} {
      assert |s - {x}| == 0;
    }
  }

  /** `_query_proteins_in_hgnc_list`: the Entrez ids of the stored proteins whose symbol is in the query. */
  function ProteinsInHgncList(db: Db, query: set<string>): (r: set<string>)
    ensures forall e :: e in r <==> e in db.proteins && db.proteins[e].hgncSymbol in query
  {
    set e | e in db.proteins && db.proteins[e].hgncSymbol in query
  }

  /** The Entrez ids of the members of pathway `id` (the `Pathway.proteins` side of the join). */
  function Members(db: Db, id: string): set<string>
  {
    set m | m in db.memberships && m.pathwayId == id :: m.entrezId
  }

  /** The identifiers of the pathways protein `entrezId` belongs to (the `Protein.pathways` backref). */
  function PathwaysOf(db: Db, entrezId: string): set<string>
  {
    set m | m in db.memberships && m.entrezId == entrezId :: m.pathwayId
  }

  /** Both sides of the join describe the same pairs. */
  lemma MembershipSymmetric(db: Db, entrezId: string, id: string)
    ensures entrezId in Members(db, id) <==> id in PathwaysOf(db, entrezId)
  {
    if entrezId in Members(db, id) {
      assert Membership(entrezId, id) in db.memberships;
    }
    if id in PathwaysOf(db, entrezId) {
      assert Membership(entrezId, id) in db.memberships;
    }
  }

  /** A pathway's gene set: the HGNC symbols of its member proteins. */
  function GeneSet(db: Db, id: string): set<string>
  {
    Symbols(db, Members(db, id))
  }

  /** A gene set has at most as many symbols as the pathway has members. */
  lemma GeneSetBound(db: Db, id: string)
    ensures |GeneSet(db, id)| <= |Members(db, id)|
  {
    SymbolsBound(db, Members(db, id));
  }

  /** The symbols of the stored proteins among `entrezIds`. */
  function Symbols(db: Db, entrezIds: set<string>): set<string>
  {
    set e | e in entrezIds && e in db.proteins :: db.proteins[e].hgncSymbol
  }

  /** There are at most as many symbols as Entrez ids they come from. */
  lemma {:induction false} SymbolsBound(db: Db, entrezIds: set<string>)
    ensures |Symbols(db, entrezIds)| <= |entrezIds|
    decreases |entrezIds|
  {
    if entrezIds != {} {
      var e :| e in entrezIds;
      var rest := entrezIds - {e};
      SymbolsBound(db, rest);
      if e in db.proteins {
        assert Symbols(db, entrezIds) == Symbols(db, rest) + {db.proteins[e].hgncSymbol};
      } else {
        assert Symbols(db, entrezIds) == Symbols(db, rest);
      }
    }
  }

  /** A subset is no larger than its superset. */
  lemma SubsetBound<T>(a: set<T>, b: set<T>)
    requires a <= b
    ensures |a| <= |b|
  {
    assert b == a + (b - a);
  }

  /**
   * `get_pathway_size_distribution` and the `name -> value` dictionaries built
   * by comprehension over the pathway rows: a later row with the same name
   * replaces an earlier one.
   */
  function SizesByName(db: Db, pathways: seq<Pathway>): (r: map<string, nat>)
    ensures forall p :: p in pathways && Members(db, p.identifier) != {} ==> p.name in r
    ensures forall name :: name in r ==>
      exists p :: p in pathways && p.name == name && Members(db, p.identifier) != {} && r[name] == |Members(db, p.identifier)|
    decreases |pathways|
  {
    if pathways == [] then map[]
    else
      var last := pathways[|pathways| - 1];
      var init := pathways[..|pathways| - 1];
      var earlier := SizesByName(db, init);
      assert forall p :: p in pathways <==> p == last || p in init;
      if Members(db, last.identifier) != {} then earlier[last.name := |Members(db, last.identifier)|]
      else earlier
  }

  /**
   * `get_pathway_size_distribution`: pathway name to number of member proteins,
   * for the pathways that have members.
   */
  function SizeDistribution(db: Db): (r: map<string, nat>)
    ensures forall p :: p in db.pathways && Members(db, p.identifier) != {} ==> p.name in r
    ensures forall name :: name in r ==>
      r[name] > 0 && exists p :: p in db.pathways && p.name == name && r[name] == |Members(db, p.identifier)|
  {
    SizesByName(db, db.pathways)
  }

  /** With distinct names, each pathway with members has its own member count in the distribution. */
  lemma {:induction false} SizeDistributionOfUniqueName(db: Db, pathways: seq<Pathway>, p: Pathway)
    requires p in pathways && Members(db, p.identifier) != {}
    requires forall q :: q in pathways && q.name == p.name ==> q == p
    ensures p.name in SizesByName(db, pathways)
    ensures SizesByName(db, pathways)[p.name] == |Members(db, p.identifier)|
    decreases |pathways|
  {
    var last := pathways[|pathways| - 1];
    var init := pathways[..|pathways| - 1];
    if last != p {
      assert p in init by {
        var k :| 0 <= k < |pathways| && pathways[k] == p;
        assert k != |pathways| - 1;
        assert init[k] == p;
      }
      forall q | q in init && q.name == p.name ensures q == p {
        assert q in pathways;
      }
      SizeDistributionOfUniqueName(db, init, p);
      assert last.name != p.name;
    }
  }

  /** `export_genesets`: pathway name to gene set; a later row with the same name replaces an earlier one. */
  function GenesetsByName(db: Db, pathways: seq<Pathway>): (r: map<string, set<string>>)
    ensures r.Keys == set p | p in pathways :: p.name
    ensures forall name :: name in r ==> exists p :: p in pathways && p.name == name && r[name] == GeneSet(db, p.identifier)
    decreases |pathways|
  {
    if pathways == [] then map[]
    else
      var last := pathways[|pathways| - 1];
      var init := pathways[..|pathways| - 1];
      assert forall p :: p in pathways <==> p == last || p in init;
      GenesetsByName(db, init)[last.name := GeneSet(db, last.identifier)]
  }

  /** `export_genesets` over all pathway rows. */
  function ExportGenesets(db: Db): (r: map<string, set<string>>)
    ensures r.Keys == set p | p in db.pathways :: p.name
    ensures forall name :: name in r ==> exists p :: p in db.pathways && p.name == name && r[name] == GeneSet(db, p.identifier)
  {
    GenesetsByName(db, db.pathways)
  }

  /**
   * `get_all_hgnc_symbols`: the symbols of every protein that belongs to some
   * pathway row.
   */
  function AllHgncSymbols(db: Db): (r: set<string>)
    ensures forall s :: s in r <==> exists p :: p in db.pathways && s in GeneSet(db, p.identifier)
  {
    set p, e | p in db.pathways && e in Members(db, p.identifier) && e in db.proteins :: db.proteins[e].hgncSymbol
  }

  /** Every exported gene set is part of the set of all symbols, and every symbol lies in some exported gene set. */
  lemma ExportedSymbolsAreAllSymbols(db: Db)
    ensures forall name :: name in ExportGenesets(db) ==> ExportGenesets(db)[name] <= AllHgncSymbols(db)
    ensures forall s :: s in AllHgncSymbols(db) ==> exists p :: p in db.pathways && s in GeneSet(db, p.identifier)
  {
    var ex := ExportGenesets(db);
    forall name | name in ex ensures ex[name] <= AllHgncSymbols(db) {
      var p :| p in db.pathways && p.name == name && ex[name] == GeneSet(db, p.identifier);
      forall s | s in ex[name] ensures s in AllHgncSymbols(db) {
        var e :| e in Members(db, p.identifier) && e in db.proteins && db.proteins[e].hgncSymbol == s;
      }
    }
    forall s | s in AllHgncSymbols(db) ensures exists p :: p in db.pathways && s in GeneSet(db, p.identifier) {
      var p, e :| p in db.pathways && e in Members(db, p.identifier) && e in db.proteins && db.proteins[e].hgncSymbol == s;
      assert s in GeneSet(db, p.identifier);
    }
  }

  /** `get_or_create_pathway` on the tables: append a row only when no row has the identifier. */
  function UpsertPathway(db: Db, id: string, name: string): (r: Db)
    ensures PathwayIds(r) == PathwayIds(db) + {id}
    ensures db.pathways <= r.pathways && |r.pathways| <= |db.pathways| + 1
    ensures id in PathwayIds(db) ==> r == db
    ensures id !in PathwayIds(db) ==> r.pathways == db.pathways + [Pathway(id, name)]
    ensures r.proteins == db.proteins && r.memberships == db.memberships
    ensures UniquePathwayIds(db.pathways) ==> UniquePathwayIds(r.pathways)
  {
    if id in PathwayIds(db) then db
    else
      var r := db.(pathways := db.pathways + [Pathway(id, name)]);
      assert forall p :: p in r.pathways <==> p in db.pathways || p == Pathway(id, name);
      assert UniquePathwayIds(db.pathways) ==> UniquePathwayIds(r.pathways) by {
        if UniquePathwayIds(db.pathways) {
          forall i, j | 0 <= i < j < |r.pathways| ensures r.pathways[i].identifier != r.pathways[j].identifier {
            if j == |db.pathways| {
              assert r.pathways[i] in db.pathways;
            }
          }
        }
      }
      r
  }

  /** After the upsert, the row found by identifier is the old row if there was one, else the new row. */
  lemma UpsertPathwayFound(db: Db, id: string, name: string)
    requires UniquePathwayIds(db.pathways)
    ensures var r := UpsertPathway(db, id, name);
      PathwayById(r, id) == if id in PathwayIds(db) then PathwayById(db, id) else Some(Pathway(id, name))
  {
    var r := UpsertPathway(db, id, name);
    if id !in PathwayIds(db) {
      PathwayByIdUnique(r, Pathway(id, name));
    }
  }

  /** `get_or_create_protein` on the tables: store a row only when none has the Entrez id; an existing row is kept as it is. */
  function UpsertProtein(db: Db, entrezId: string, symbol: string, hgncId: string): (r: Db)
    ensures r.proteins.Keys == db.proteins.Keys + {entrezId}
    ensures entrezId in db.proteins ==> r == db
    ensures entrezId !in db.proteins ==> r.proteins[entrezId] == Protein(entrezId, symbol, hgncId)
    ensures forall e :: e in db.proteins ==> r.proteins[e] == db.proteins[e]
    ensures r.pathways == db.pathways && r.memberships == db.memberships
  {
    if entrezId in db.proteins then db
    else db.(proteins := db.proteins[entrezId := Protein(entrezId, symbol, hgncId)])
  }

  /** Both upserts keep the schema constraints. */
  lemma UpsertsKeepValid(db: Db, id: string, name: string, entrezId: string, symbol: string, hgncId: string)
    requires Valid(db)
    ensures Valid(UpsertPathway(db, id, name))
    ensures Valid(UpsertProtein(db, entrezId, symbol, hgncId))
  {
  }
}
