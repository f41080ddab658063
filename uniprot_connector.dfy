/**
 * The real-time UniProt connector (`fetch_uniprot_data_realtime`): a search
 * for the query as given, a keyword query restricted to reviewed human
 * proteins when the first answer holds no data row, and one record per TSV
 * row. The HTTP request and the TSV reader are inputs; a request that raised
 * is `None`.
 */
module UniprotConnector {
  import opened Common
  import Keywords

  /** The stop words of `_keywordize`. */
  const Stop: set<string> := {"the", "a", "an", "and", "or", "on", "in", "of", "to", "for", "with", "by",
                              "about", "what", "are", "is", "how", "latest", "research"}

  const MaxKeywords := 6

  /** `_keywordize(q)`: tokens of `[A-Za-z0-9][A-Za-z0-9\-]+` in the
      lower-cased query, stop words dropped, at most six. */
  function Keywordize(q: string): seq<string>
  {
    Keywords.Keywords(q, Keywords.UniprotStart, Stop, MaxKeywords)
  }

  const SmartPrefix := "(reviewed:true) AND (organism_id:9606) AND ("

  /** The keyword query of the retry. */
  function SmartQuery(kws: seq<string>): string
  {
    SmartPrefix + Join(" OR ", kws) + ")"
  }

  /** The retry keeps the reviewed-human restriction in front and mentions
      every keyword. */
  lemma SmartQueryShape(kws: seq<string>, k: nat)
    requires k < |kws|
    ensures SmartPrefix <= SmartQuery(kws)
    ensures Contains(SmartQuery(kws), kws[k])
  {
    var j := Join(" OR ", kws);
    JoinContainsPart(" OR ", kws, k);
    ContainsConcat(SmartPrefix, j, ")");
    ContainsTrans(SmartQuery(kws), j, kws[k]);
    assert SmartQuery(kws)[..|SmartPrefix|] == SmartPrefix;
  }

  /** Keywordising lower-cases first, so the upper-case letters of the
      pattern never match: the keywords are those of the pattern
      `[a-z0-9][a-z0-9\-]+`. */
  lemma KeywordizeLowerClass(q: string)
    ensures Keywordize(q) == Keywords.Keywords(q, Keywords.PubmedStart, Stop, MaxKeywords)
  {
    Keywords.UniprotClassIsPubmedClass(q);
  }

  /** The line breaks `str.splitlines` splits on, limited to ASCII. */
  predicate IsLineBreak(c: char)
  {
    c == '\n' || c == '\r' || c == '\U{0B}' || c == '\U{0C}' || ('\U{1C}' <= c <= '\U{1E}')
  }

  /** `not text or len(text.splitlines()) <= 1` for a stripped text: a
      stripped text has no break at either end, so it has at most one line
      exactly when it has no break at all. */
  predicate NoRows(text: string)
  {
    text == [] || forall k :: 0 <= k < |text| ==> !IsLineBreak(text[k])
  }

  /** A protein record. */
  datatype Record = Record(uniprotId: string, accession: string, proteinName: string, genes: string,
                           sequence: string, source: string, searchScore: real)

  /** `row.get(column, "")` */
  function Column(row: map<string, string>, column: string): string
  {
    if column in row then row[column] else ""
  }

  function RecordOf(row: map<string, string>): Record
  {
    Record(Column(row, "Entry"), Column(row, "Entry"), Column(row, "Protein names"),
           Column(row, "Gene Names"), Column(row, "Sequence"), "uniprot_records", 1.0)
  }

  /** The requests made and the records returned. */
  datatype Outcome = Outcome(requests: seq<string>, records: seq<Record>)

  /** The text answered to the query after the retry, `None` when the retry
      raised. */
  function AfterRetry(query: string, text: string, get: string -> Option<string>): Option<string>
  {
    if NoRows(text) && Keywordize(query) != [] then
      var r := get(SmartQuery(Keywordize(query)));
      if r.Some? then Some(Strip(r.value)) else None
    else Some(text)
  }

  /** `fetch_uniprot_data_realtime(query)`, with `get` standing for the
      request (its body, or `None` when it raises) and `rows` for the TSV
      reader. */
  function Realtime(enabled: bool, query: string, get: string -> Option<string>,
                    rows: string -> seq<map<string, string>>): Outcome
  {
    if !enabled then Outcome([], [])
    else if get(query).None? then Outcome([query], [])
    else
      var text := Strip(get(query).value);
      var retried := NoRows(text) && Keywordize(query) != [];
      var requests := if retried then [query, SmartQuery(Keywordize(query))] else [query];
      var t := AfterRetry(query, text, get);
      if t.None? || NoRows(t.value) then Outcome(requests, [])
      else Outcome(requests, Map(RecordOf, rows(t.value)))
  }

  /** The row loop. */
  method ReadRecords(rows: seq<map<string, string>>) returns (proteins: seq<Record>)
    ensures proteins == Map(RecordOf, rows)
  {
    proteins := [];
    var i := 0;
    while i < |rows|
      invariant 0 <= i <= |rows|
      invariant proteins == Map(RecordOf, rows[..i])
    {
      TakeSnoc(rows, i);
      MapAppend(RecordOf, rows[..i], rows[i]);
      proteins := proteins + [RecordOf(rows[i])];
      i := i + 1;
    }
    TakeAll(rows);
  }

  /** `fetch_uniprot_data_realtime`: the first request, the keyword retry
      when the first answer has no data row, then the row loop. */
  method FetchRealtime(enabled: bool, query: string, get: string -> Option<string>,
                       rows: string -> seq<map<string, string>>)
    returns (requests: seq<string>, proteins: seq<Record>)
    ensures Outcome(requests, proteins) == Realtime(enabled, query, get, rows)
  {
    if !enabled {
      return [], [];
    }
    var response := get(query);
    if response.None? {
      return [query], [];
    }
    var text: Option<string>;
    requests, text := RetryWhenEmpty(query, Strip(response.value), get);
    if text.None? || NoRows(text.value) {
      return requests, [];
    }
    proteins := ReadRecords(rows(text.value));
  }

  /** The retry with the keyword query when the first answer `text` has no
      data row and the query yields keywords; `None` when the retry raises. */
  method RetryWhenEmpty(query: string, text: string, get: string -> Option<string>)
    returns (requests: seq<string>, retried: Option<string>)
    ensures retried == AfterRetry(query, text, get)
    ensures requests == if NoRows(text) && Keywordize(query) != [] then [query, SmartQuery(Keywordize(query))] else [query]
  {
    requests, retried := [query], Some(text);
    if NoRows(text) {
      var kws := Keywordize(query);
      if kws != [] {
        var smart := SmartQuery(kws);
        requests := requests + [smart];
        var retry := get(smart);
        retried := if retry.None? then None else Some(Strip(retry.value));
      }
    }
  }

  /** Every record is a UniProt record with score 1.0 whose id and accession
      are both the row's Entry column ("" when absent). */
  lemma RecordsShape(rows: seq<map<string, string>>, k: nat)
    requires k < |rows|
    ensures var r := Map(RecordOf, rows)[k];
      && r.uniprotId == r.accession == Column(rows[k], "Entry")
      && r.source == "uniprot_records" && r.searchScore == 1.0
      && r.proteinName == Column(rows[k], "Protein names") && r.genes == Column(rows[k], "Gene Names")
      && r.sequence == Column(rows[k], "Sequence")
  {
  }

  /** Disabled, nothing is requested. The keyword retry is made exactly when
      the first answer has no data row and the query has keywords; when the
      final text still has no data row, or a request raised, there are no
      records; otherwise there is one record per TSV row of that text. */
  lemma Flow(enabled: bool, query: string, get: string -> Option<string>, rows: string -> seq<map<string, string>>)
    ensures var o := Realtime(enabled, query, get, rows);
      && (!enabled ==> o == Outcome([], []))
      && (enabled ==> |o.requests| >= 1 && o.requests[0] == query)
      && (|o.requests| == 2 <==>
            enabled && get(query).Some? && NoRows(Strip(get(query).value)) && Keywordize(query) != [])
      && (|o.requests| == 2 ==> o.requests[1] == SmartQuery(Keywordize(query)))
      && (o.records != [] ==>
            (get(o.requests[|o.requests| - 1]).Some? &&
             var text := Strip(get(o.requests[|o.requests| - 1]).value);
             !NoRows(text) && o.records == Map(RecordOf, rows(text))))
  {
  }
}
