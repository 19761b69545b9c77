/**
 * The GMT line parser of bio2bel WikiPathways (src/bio2bel_wikipathways/parser.py).
 *
 * A GMT line is tab separated: the first field is `name%...%species`, the
 * second the pathway's WikiPathways URL ending in `_<revision>`, the rest are
 * Entrez gene ids. Parsing yields (name, species, identifier, genes).
 */
module GmtParser {
  import opened Wrappers
  import opened Text

  /** The URL prefix that `_get_pathway_id` deletes. */
  const UrlPrefix: string := "http://www.wikipathways.org/instance/"

  /** The HTTP status on which `parse_gmt_file` raises `FileNotFoundError`. */
  const NotFoundStatus: int := 404

  /** The 4-tuple `(name, species, identifier, genes)` that `_process_line` returns. */
  datatype GmtRecord = GmtRecord(name: string, species: string, identifier: string, genes: seq<string>)

  /**
   * `FileNotFound`: the fetch answered 404. `MalformedLine(line)`: the
   * `name, identifier, *genes` unpacking raised on line number `line` (from 0).
   */
  datatype ParseError = FileNotFound | MalformedLine(line: nat)

  /** `_process_pathway_id`: the text before the first `_`. */
  function ProcessPathwayId(pathwayId: string): (r: string)
    ensures '_' !in r
    ensures r <= pathwayId
    ensures '_' !in pathwayId ==> r == pathwayId
    ensures '_' in pathwayId ==> |r| < |pathwayId| && pathwayId[|r|] == '_'
  {
    FirstPiece(pathwayId, '_')
  }

  /** `_get_pathway_name`: the text before the first `%`. */
  function PathwayName(field: string): (r: string)
    ensures '%' !in r
    ensures r <= field
    ensures '%' !in field ==> r == field
    ensures '%' in field ==> |r| < |field| && field[|r|] == '%'
  {
    FirstPiece(field, '%')
  }

  /** `_get_pathway_species`: the text after the last `%`. */
  function PathwaySpecies(field: string): (r: string)
    ensures '%' !in r
    ensures |r| <= |field| && r == field[|field| - |r|..]
    ensures '%' !in field ==> r == field
    ensures '%' in field ==> |r| < |field| && field[|field| - |r| - 1] == '%'
  {
    var parts := Split(field, '%');
    if |parts| >= 2 then JoinLast(parts, '%'); parts[|parts| - 1]
    else parts[|parts| - 1]
  }

  /** `_get_pathway_id`: every occurrence of the WikiPathways URL prefix deleted. */
  function PathwayId(url: string): (r: string)
    ensures |r| <= |url|
    ensures !Contains(url, UrlPrefix) ==> r == url
    ensures Contains(url, UrlPrefix) ==> |r| <= |url| - |UrlPrefix|
  {
    RemoveAllShrinks(url, UrlPrefix);
    RemoveAll(url, UrlPrefix)
  }

  /** A WikiPathways URL yields the identifier written after its prefix. */
  lemma PathwayIdOfUrl(id: string)
    requires !Contains(id, UrlPrefix)
    ensures PathwayId(UrlPrefix + id) == id
  {
    RemoveAllPrefix(UrlPrefix, id);
  }

  /** The list comprehension `[word.strip() for word in words]`. */
  function StripAll(words: seq<string>): (r: seq<string>)
    ensures |r| == |words|
    ensures forall k :: 0 <= k < |r| ==> r[k] == Strip(words[k])
  {
    seq(|words|, k requires 0 <= k < |words| => Strip(words[k]))
  }

  /** Whitespace stripping never brings back a character the word did not have. */
  lemma StripKeepsOut(c: char, word: string)
    requires c !in word
    ensures c !in Strip(word)
  {
    var r := Strip(word);
    var i :| StrippedAt(word, r, i);
    forall k | 0 <= k < |r| ensures r[k] != c {
      assert r[k] == word[i + k];
    }
  }

  /**
   * `_process_line`: the tab fields, each stripped; the first two give the
   * pathway name and species, and the identifier with the URL prefix and the
   * revision suffix cut off; the remaining fields are the genes, in order.
   * The unpacking fails (None) exactly when the line has no tab.
   */
  function ProcessLine(line: string): (r: Option<GmtRecord>)
    ensures r.None? <==> '\t' !in line
    ensures r.Some? ==>
      var fields := Split(line, '\t');
      && r.value.name == PathwayName(Strip(fields[0]))
      && r.value.species == PathwaySpecies(Strip(fields[0]))
      && r.value.identifier == ProcessPathwayId(PathwayId(Strip(fields[1])))
      && |r.value.genes| == |fields| - 2
      && forall k :: 0 <= k < |r.value.genes| ==> r.value.genes[k] == Strip(fields[k + 2])
    ensures r.Some? ==>
      && '%' !in r.value.name && '%' !in r.value.species && '_' !in r.value.identifier
      && forall k :: 0 <= k < |r.value.genes| ==> '\t' !in r.value.genes[k] && Trimmed(r.value.genes[k])
  {
    var fields := Split(line, '\t');
    var words := StripAll(fields);
    if |words| < 2 then None
    else
      var genes := words[2..];
      assert forall k :: 0 <= k < |genes| ==> genes[k] == Strip(fields[k + 2]) && '\t' !in genes[k] && Trimmed(genes[k]) by {
        forall k | 0 <= k < |genes| ensures genes[k] == Strip(fields[k + 2]) && '\t' !in genes[k] && Trimmed(genes[k]) {
          assert genes[k] == words[k + 2];
          StripKeepsOut('\t', fields[k + 2]);
        }
      }
      Some(GmtRecord(PathwayName(words[0]), PathwaySpecies(words[0]),
                     ProcessPathwayId(PathwayId(words[1])), genes))
  }

  /** The position of the first line without a tab, or the number of lines if every line has one. */
  function FirstUntabbed(lines: seq<string>): (i: nat)
    ensures i <= |lines|
    ensures forall j :: 0 <= j < i ==> '\t' in lines[j]
    ensures i < |lines| ==> '\t' !in lines[i]
  {
    if lines == [] || '\t' !in lines[0] then 0 else 1 + FirstUntabbed(lines[1..])
  }

  /**
   * `parse_gmt_file`, given the fetch's status code and body lines (the
   * fetch itself is not modelled): a 404 raises `FileNotFoundError` and
   * yields no records; otherwise the list comprehension over the lines either
   * raises at the first line whose unpacking fails or yields exactly one
   * record per line, in line order.
   */
  function ParseGmtFile(status: int, lines: seq<string>): (r: Result<seq<GmtRecord>, ParseError>)
    ensures r == Failure(FileNotFound) <==> status == NotFoundStatus
    ensures r.Success? ==>
      && |r.value| == |lines|
      && forall i :: 0 <= i < |lines| ==> ProcessLine(lines[i]) == Some(r.value[i])
    ensures r.Failure? && r.error.MalformedLine? ==>
      && r.error.line < |lines| && ProcessLine(lines[r.error.line]).None?
      && forall j :: 0 <= j < r.error.line ==> ProcessLine(lines[j]).Some?
    ensures r.Success? <==> status != NotFoundStatus && forall i :: 0 <= i < |lines| ==> ProcessLine(lines[i]).Some?
  {
    if status == NotFoundStatus then Failure(FileNotFound)
    else
      var bad := FirstUntabbed(lines);
      if bad < |lines| then Failure(MalformedLine(bad))
      else Success(seq(|lines|, i requires 0 <= i < |lines| => ProcessLine(lines[i]).value))
  }

  /**
   * A GMT line as WikiPathways writes it: the name, any `%`-separated tags and
   * the species in the first field; the prefixed URL with `_<revision>` in the
   * second; then the genes.
   */
  function FormatLine(name: string, tags: seq<string>, species: string,
                      id: string, revision: string, genes: seq<string>): string
  {
    Join([Join([name] + tags + [species], '%'), UrlPrefix + id + "_" + revision] + genes, '\t')
  }

  /** A field that survives both splits and `strip()` unchanged. */
  predicate Clean(s: string)
  {
    '\t' !in s && '%' !in s && Trimmed(s)
  }

  /** The first field of a formatted line: its name and species come back out of it. */
  lemma {:induction false} FormattedNameField(name: string, tags: seq<string>, species: string)
    requires Clean(name) && Clean(species)
    requires forall k :: 0 <= k < |tags| ==> '\t' !in tags[k] && '%' !in tags[k]
    ensures var field := Join([name] + tags + [species], '%');
      && '\t' !in field && Trimmed(field)
      && PathwayName(field) == name && PathwaySpecies(field) == species
  {
    var segments := [name] + tags + [species];
    var field := Join(segments, '%');
    assert forall k :: 0 <= k < |segments| ==> '\t' !in segments[k] && '%' !in segments[k] by {
      forall k | 0 <= k < |segments| ensures '\t' !in segments[k] && '%' !in segments[k] {
        if 0 < k < |segments| - 1 { assert segments[k] == tags[k - 1]; }
      }
    }
    SplitJoin(segments, '%');
    NoSeparatorInJoin(segments, '%', '\t');
    assert field == name + ['%'] + Join(segments[1..], '%');
    JoinLast(segments, '%');
    assert field == Join(segments[..|segments| - 1], '%') + ['%'] + species;
  }

  /** The second field of a formatted line: the identifier comes back out of the URL. */
  lemma FormattedUrlField(id: string, revision: string)
    requires '\t' !in id && '_' !in id && '\t' !in revision && Trimmed(revision)
    requires !Contains(id + "_" + revision, UrlPrefix)
    ensures var field := UrlPrefix + id + "_" + revision;
      && '\t' !in field && Trimmed(field)
      && ProcessPathwayId(PathwayId(field)) == id
  {
    var rest := id + "_" + revision;
    UrlFieldShape(id, revision);
    assert UrlPrefix + id + "_" + revision == UrlPrefix + rest;
    PathwayIdOfUrl(rest);
    assert rest == id + ['_'] + revision;
    SplitCons(id, '_', revision);
  }

  /** A URL field starts with the prefix's `h`, ends with the revision (or `_`), and has no tab. */
  lemma UrlFieldShape(id: string, revision: string)
    requires '\t' !in id && '\t' !in revision && Trimmed(revision)
    ensures var field := UrlPrefix + id + "_" + revision;
      '\t' !in field && Trimmed(field)
  {
    var field := UrlPrefix + id + "_" + revision;
    assert field == UrlPrefix + id + ['_'] + revision;
    assert field[0] == 'h';
    assert field[|field| - 1] == if revision == [] then '_' else revision[|revision| - 1];
    assert '\t' !in UrlPrefix;
  }

  /** Tab-joining trimmed, tab-free fields and parsing the result reads the fields back. */
  lemma ProcessJoinedFields(fields: seq<string>)
    requires |fields| >= 2
    requires forall k :: 0 <= k < |fields| ==> '\t' !in fields[k] && Trimmed(fields[k])
    ensures ProcessLine(Join(fields, '\t'))
            == Some(GmtRecord(PathwayName(fields[0]), PathwaySpecies(fields[0]),
                              ProcessPathwayId(PathwayId(fields[1])), fields[2..]))
  {
    var line := Join(fields, '\t');
    assert Split(line, '\t') == fields by {
      SplitJoin(fields, '\t');
    }
    var r := ProcessLine(line);
    assert r.value.name == PathwayName(fields[0]) && r.value.species == PathwaySpecies(fields[0]) by {
      StripTrimmed(fields[0]);
    }
    assert r.value.identifier == ProcessPathwayId(PathwayId(fields[1])) by {
      StripTrimmed(fields[1]);
    }
    StripTrimmedTail(r.value.genes, fields);
  }

  /** Pieces that are the stripped fields after the first two, when those fields are trimmed, are those fields. */
  lemma StripTrimmedTail(words: seq<string>, fields: seq<string>)
    requires |fields| >= 2 && |words| == |fields| - 2
    requires forall k :: 0 <= k < |fields| ==> Trimmed(fields[k])
    requires forall k :: 0 <= k < |words| ==> words[k] == Strip(fields[k + 2])
    ensures words == fields[2..]
  {
    forall k | 0 <= k < |words| ensures words[k] == fields[k + 2] {
      StripTrimmed(fields[k + 2]);
    }
  }

  /** Parsing a well-formed line recovers the name, species, identifier and genes written into it. */
  lemma ProcessFormattedLine(name: string, tags: seq<string>, species: string,
                             id: string, revision: string, genes: seq<string>)
    requires Clean(name) && Clean(species)
    requires forall k :: 0 <= k < |tags| ==> '\t' !in tags[k] && '%' !in tags[k]
    requires '\t' !in id && '_' !in id && '\t' !in revision && Trimmed(revision)
    requires !Contains(id + "_" + revision, UrlPrefix)
    requires forall k :: 0 <= k < |genes| ==> '\t' !in genes[k] && Trimmed(genes[k])
    ensures ProcessLine(FormatLine(name, tags, species, id, revision, genes))
            == Some(GmtRecord(name, species, id, genes))
  {
    var first := Join([name] + tags + [species], '%');
    var second := UrlPrefix + id + "_" + revision;
    FormattedNameField(name, tags, species);
    FormattedUrlField(id, revision);
    FieldsClean(first, second, genes);
    ProcessJoinedFields([first, second] + genes);
  }

  /** Two clean leading fields followed by clean genes make a line of clean fields, with the genes after the first two. */
  lemma FieldsClean(first: string, second: string, genes: seq<string>)
    requires '\t' !in first && Trimmed(first) && '\t' !in second && Trimmed(second)
    requires forall k :: 0 <= k < |genes| ==> '\t' !in genes[k] && Trimmed(genes[k])
    ensures var fields := [first, second] + genes;
      && (forall k :: 0 <= k < |fields| ==> '\t' !in fields[k] && Trimmed(fields[k]))
      && fields[0] == first && fields[1] == second && fields[2..] == genes
  {
    var fields := [first, second] + genes;
    forall k | 0 <= k < |fields| ensures '\t' !in fields[k] && Trimmed(fields[k]) {
      if k >= 2 { assert fields[k] == genes[k - 2]; }
    }
    assert fields[2..] == genes;
  }

  /** A character absent from every piece and different from the separator is absent from the join. */
  lemma {:induction false} NoSeparatorInJoin(parts: seq<string>, sep: char, c: char)
    requires |parts| >= 1 && c != sep
    requires forall k :: 0 <= k < |parts| ==> c !in parts[k]
    ensures c !in Join(parts, sep)
  {
    if |parts| > 1 {
      NoSeparatorInJoin(parts[1..], sep, c);
    }
  }
}
