/**
 * The real-time PubMed connector (`fetch_pubmed_data_realtime`): a search
 * for the query as given, a keyword fallback in titles and abstracts when it
 * finds nothing, and one record per article fetched. The Entrez search and
 * fetch calls are inputs; `None` stands for a call that raised.
 */
module PubmedConnector {
  import opened Common
  import Keywords

  /** The stop words of the fallback. */
  const Stop: set<string> := {"the", "a", "an", "and", "or", "on", "in", "of", "to", "for", "with", "by",
                              "about", "latest", "research", "study", "studies", "effects", "effect",
                              "impact", "what", "are", "is", "how"}

  const MaxKeywords := 8

  /** The fallback's keywords: tokens of `[a-z0-9][a-z0-9\-]+` in the
      lower-cased query, stop words dropped, at most eight. */
  function FallbackKeywords(query: string): seq<string>
  {
    Keywords.Keywords(query, Keywords.PubmedStart, Stop, MaxKeywords)
  }

  const TitleAbstract := "[Title/Abstract]"

  /** A keyword restricted to titles and abstracts, quoted when hyphenated. */
  function TaTerm(kw: string): string
  {
    if '-' in kw then "\"" + kw + "\"" + TitleAbstract else kw + TitleAbstract
  }

  /** The keyword a term was built from, `None` when it is not a term. */
  function TermKeyword(t: string): Option<string>
  {
    var n := |TitleAbstract|;
    if |t| < n || t[|t| - n..] != TitleAbstract then None
    else
      var core := t[..|t| - n];
      if |core| >= 2 && core[0] == '"' && core[|core| - 1] == '"' then Some(core[1..|core| - 1])
      else Some(core)
  }

  /** The fallback search term: the keyword terms joined with ` OR `. */
  function FallbackTerm(kws: seq<string>): string
  {
    Join(" OR ", Map(TaTerm, kws))
  }

  /** A term gives back its keyword, for every keyword that does not open
      with a quote (no token does); a quoted term is one whose keyword holds
      a hyphen. */
  lemma TaTermRoundTrip(kw: string)
    requires kw == [] || kw[0] != '"'
    ensures TermKeyword(TaTerm(kw)) == Some(kw)
    ensures TaTerm(kw)[0] == '"' <==> '-' in kw
  {
    var n := |TitleAbstract|;
    var t := TaTerm(kw);
    if '-' in kw {
      var core := "\"" + kw + "\"";
      assert t == core + TitleAbstract;
      assert t[..|t| - n] == core && t[|t| - n..] == TitleAbstract;
      assert core[1..|core| - 1] == kw;
    } else {
      assert t[..|t| - n] == kw && t[|t| - n..] == TitleAbstract;
      assert t[0] == (kw + TitleAbstract)[0];
    }
  }

  /** Every keyword of the query occurs in the fallback term as its term. */
  lemma FallbackTermHolds(kws: seq<string>, k: nat)
    requires k < |kws|
    ensures Contains(FallbackTerm(kws), TaTerm(kws[k]))
  {
    JoinContainsPart(" OR ", Map(TaTerm, kws), k);
  }

  /** The fallback keywords open with a letter or digit, so each of their
      terms gives it back. */
  lemma FallbackKeywordsRoundTrip(query: string, k: nat)
    requires k < |FallbackKeywords(query)|
    ensures TermKeyword(TaTerm(FallbackKeywords(query)[k])) == Some(FallbackKeywords(query)[k])
  {
    var i := Keywords.KeywordIsToken(query, Keywords.PubmedStart, Stop, MaxKeywords, k);
    TaTermRoundTrip(FallbackKeywords(query)[k]);
  }

  /** What `Entrez.efetch` yields for one PMID: the article title (`None` when
      absent) and its abstract parts. */
  datatype Fetched = Fetched(title: Option<string>, abstractParts: seq<string>)

  /** The record returned for one article. */
  datatype Record = Record(pmid: string, title: string, abstractText: string, source: string, searchScore: real)

  function RecordOf(pmid: string, f: Fetched): Record
  {
    Record(pmid, if f.title.Some? then f.title.value else "",
           if f.abstractParts != [] then Join(" ", f.abstractParts) else "",
           "pubmed_articles", 1.0)
  }

  /** The records of the fetched articles, in PMID order; an article whose
      fetch raised is skipped. */
  function Records(pmids: seq<string>, fetch: string -> Option<Fetched>): (r: seq<Record>)
    ensures |r| <= |pmids|
  {
    if pmids == [] then []
    else
      var p := pmids[|pmids| - 1];
      Records(pmids[..|pmids| - 1], fetch) + (if fetch(p).Some? then [RecordOf(p, fetch(p).value)] else [])
  }

  /** The searches made and the records returned. */
  datatype Outcome = Outcome(searches: seq<string>, records: seq<Record>)

  /** `fetch_pubmed_data_realtime(query)` with `search` standing for the
      Entrez search (`None` when it raises) and `fetch` for the per-article
      fetch. */
  function Realtime(enabled: bool, query: string, search: string -> Option<seq<string>>,
                    fetch: string -> Option<Fetched>): Outcome
  {
    if !enabled then Outcome([], [])
    else if search(query).None? then Outcome([query], [])
    else if search(query).value != [] then Outcome([query], Records(search(query).value, fetch))
    else
      var kws := FallbackKeywords(query);
      if kws == [] then Outcome([query], [])
      else
        var term := FallbackTerm(kws);
        var found := search(term);
        if found.None? || found.value == [] then Outcome([query, term], [])
        else Outcome([query, term], Records(found.value, fetch))
  }

  /** The article loop. */
  method FetchRecords(pmids: seq<string>, fetch: string -> Option<Fetched>) returns (articles: seq<Record>)
    ensures articles == Records(pmids, fetch)
  {
    articles := [];
    var i := 0;
    while i < |pmids|
      invariant 0 <= i <= |pmids|
      invariant articles == Records(pmids[..i], fetch)
    {
      var pmid := pmids[i];
      TakeNext([], pmids, i);
      var f := fetch(pmid);
      if f.Some? {
        articles := articles + [RecordOf(pmid, f.value)];
      }
      i := i + 1;
    }
    TakeAll(pmids);
  }

  method FetchRealtime(enabled: bool, query: string, search: string -> Option<seq<string>>,
                       fetch: string -> Option<Fetched>)
    returns (searches: seq<string>, articles: seq<Record>)
    ensures Outcome(searches, articles) == Realtime(enabled, query, search, fetch)
  {
    if !enabled {
      return [], [];
    }
    searches := [query];
    var found := search(query);
    if found.None? {
      return searches, [];
    }
    var pmids := found.value;
    if pmids == [] {
      var kws := FallbackKeywords(query);
      if kws == [] {
        return searches, [];
      }
      var term := FallbackTerm(kws);
      searches := searches + [term];
      found := search(term);
      if found.None? {
        return searches, [];
      }
      pmids := found.value;
      if pmids == [] {
        return searches, [];
      }
    }
    articles := FetchRecords(pmids, fetch);
  }

  /** Each record comes from a PMID whose fetch succeeded, is marked as a
      PubMed record with score 1.0, and carries the title (or "") and the
      abstract parts joined with spaces (or ""). */
  lemma {:induction false} RecordOrigin(pmids: seq<string>, fetch: string -> Option<Fetched>, k: nat) returns (j: nat)
    requires k < |Records(pmids, fetch)|
    ensures j < |pmids| && fetch(pmids[j]).Some?
    ensures var r := Records(pmids, fetch)[k];
      && r == RecordOf(pmids[j], fetch(pmids[j]).value)
      && r.pmid == pmids[j] && r.source == "pubmed_articles" && r.searchScore == 1.0
  {
    var init := pmids[..|pmids| - 1];
    if k < |Records(init, fetch)| {
      j := RecordOrigin(init, fetch, k);
      assert pmids[j] == init[j];
    } else {
      j := |pmids| - 1;
    }
  }

  /** A failed fetch skips only its own article: when every fetch succeeds
      there is one record per PMID, in order. */
  lemma {:induction false} AllFetched(pmids: seq<string>, fetch: string -> Option<Fetched>)
    requires forall p :: p in pmids ==> fetch(p).Some?
    ensures |Records(pmids, fetch)| == |pmids|
    ensures forall k :: 0 <= k < |pmids| ==> Records(pmids, fetch)[k].pmid == pmids[k]
  {
    if pmids != [] {
      var init := pmids[..|pmids| - 1];
      AllFetched(init, fetch);
    }
  }

  /** Disabled, the connector searches nothing; the fallback is searched
      exactly when the first search succeeded with no PMIDs and the query has
      keywords, and then with the keyword term; records come only from the
      search that was made last. */
  lemma Flow(enabled: bool, query: string, search: string -> Option<seq<string>>, fetch: string -> Option<Fetched>)
    ensures var o := Realtime(enabled, query, search, fetch);
      && (!enabled ==> o == Outcome([], []))
      && (enabled ==> |o.searches| >= 1 && o.searches[0] == query)
      && (|o.searches| == 2 <==> enabled && search(query) == Some([]) && FallbackKeywords(query) != [])
      && (|o.searches| == 2 ==> o.searches[1] == FallbackTerm(FallbackKeywords(query)))
      && (o.records != [] ==>
            (search(o.searches[|o.searches| - 1]).Some? &&
             o.records == Records(search(o.searches[|o.searches| - 1]).value, fetch)))
  {
  }
}
