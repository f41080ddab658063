/**
 * The shared RAG service (`run_rag`): configuration guard, candidate ids
 * from vector (and optionally lexical) search, corpus lookup, live-connector
 * fallback, mode and source filtering, document ordering, and the exit taken
 * when no passage is selected. The embedding, vector search, BigQuery,
 * connector, scoring and generation calls are inputs of the model.
 */
module RagService {
  import opened Common
  import Config
  import CorpusLoader

  // ------------------------------------------------------------ model names

  const ClaudeModel := "publishers/anthropic/models/claude-3-5-sonnet"

  /** `_normalize_model_name(choice, default_name)` */
  function NormalizeModelName(choice: Option<string>, defaultName: string): (name: string)
  {
    if choice.None? || choice.value == "" then defaultName
    else
      var c := Lower(Strip(choice.value));
      if Contains(c, "/") || "gemini" <= c then choice.value
      else if Contains(c, "claude") then ClaudeModel
      else defaultName
  }

  /** No choice gives the default; a full path or a Gemini name (after
      trimming and lower-casing) is kept as given, untrimmed; a Claude alias
      gives the Claude path; anything else gives the default. */
  lemma ModelNameChoice(choice: Option<string>, defaultName: string)
    ensures choice.None? || choice.value == "" ==> NormalizeModelName(choice, defaultName) == defaultName
    ensures choice.Some? && choice.value != "" ==>
      var c := Lower(Strip(choice.value));
      && (Contains(c, "/") || "gemini" <= c ==> NormalizeModelName(choice, defaultName) == choice.value)
      && (!Contains(c, "/") && !("gemini" <= c) && Contains(c, "claude") ==>
            NormalizeModelName(choice, defaultName) == ClaudeModel)
      && (!Contains(c, "/") && !("gemini" <= c) && !Contains(c, "claude") ==>
            NormalizeModelName(choice, defaultName) == defaultName)
  {
  }

  /** The Claude path is itself a full path, so it is kept as given. */
  lemma ClaudeModelKept(defaultName: string)
    ensures NormalizeModelName(Some(ClaudeModel), defaultName) == ClaudeModel
  {
    ClaudeModelTrimmed();
    ClaudeModelHasSlash();
  }

  lemma ClaudeModelTrimmed()
    ensures Strip(ClaudeModel) == ClaudeModel
  {
    var a, b := "publishers/anthropic/models/", "claude-3-5-sonnet";
    assert ClaudeModel == a + b;
    assert (a + b)[0] == a[0] == 'p';
    assert (a + b)[|a + b| - 1] == b[|b| - 1] == 't';
    StripOfStripped(a + b);
  }

  lemma ClaudeModelHasSlash()
    ensures Contains(Lower(ClaudeModel), "/")
  {
    assert Lower(ClaudeModel)[10] == '/';
    ContainsAt(Lower(ClaudeModel), "/", 10);
  }

  /** A name the normalisation chose over the default normalises to itself. */
  lemma ModelNameStable(choice: Option<string>, defaultName: string)
    requires NormalizeModelName(choice, defaultName) != defaultName
    ensures var name := NormalizeModelName(choice, defaultName);
      NormalizeModelName(Some(name), defaultName) == name
  {
    if NormalizeModelName(choice, defaultName) == ClaudeModel {
      ClaudeModelKept(defaultName);
    }
  }

  // ---------------------------------------------------------- configuration

  /** The settings `run_rag` checks before any retrieval. */
  datatype RagConfig = RagConfig(project: Value, endpoint: Value, deployedId: Value)

  /** `os.getenv(name)` */
  function EnvVar(env: Config.Env, name: string): Value
  {
    if name in env then Str(env[name]) else Null
  }

  function ReadConfig(env: Config.Env, p: Config.Parsers): RagConfig
  {
    RagConfig(
      Or(EnvVar(env, "GOOGLE_CLOUD_PROJECT"), Config.GetConfig("PROJECT_ID", Null, env, p)),
      Config.GetConfig("MATCHING_ENGINE_INDEX_ENDPOINT", Null, env, p),
      Config.GetConfig("MATCHING_ENGINE_DEPLOYED_INDEX_ID", Null, env, p))
  }

  /** `not project or not endpoint or not deployed_id` raises otherwise. */
  predicate Configured(c: RagConfig)
  {
    Truthy(c.project) && Truthy(c.endpoint) && Truthy(c.deployedId)
  }

  /** The endpoint's class default is empty, so without an environment
      setting for it the service refuses to run. */
  lemma EndpointRequired(env: Config.Env, p: Config.Parsers)
    requires "BIOMIND_" + "MATCHING_ENGINE_INDEX_ENDPOINT" !in env && "MATCHING_ENGINE_INDEX_ENDPOINT" !in env
    ensures !Configured(ReadConfig(env, p))
  {
    assert Config.ClassDefault("MATCHING_ENGINE_INDEX_ENDPOINT") == Some(Str(""));
  }

  // ---------------------------------------------------------- candidate ids

  /** `[n.get("datapoint_id") for n in neighbors if n.get("datapoint_id")]` */
  function NeighborIds(neighbors: seq<map<string, Value>>): (ids: seq<Value>)
  {
    if neighbors == [] then []
    else
      var v := Get(neighbors[|neighbors| - 1], "datapoint_id", Null);
      NeighborIds(neighbors[..|neighbors| - 1]) + (if Truthy(v) then [v] else [])
  }

  /** The neighbour ids are exactly the truthy `datapoint_id`s. */
  lemma {:induction false} NeighborIdsExactly(neighbors: seq<map<string, Value>>, v: Value)
    ensures v in NeighborIds(neighbors)
        <==> Truthy(v) && exists n :: n in neighbors && Get(n, "datapoint_id", Null) == v
  {
    if neighbors != [] {
      var init := neighbors[..|neighbors| - 1];
      var last := neighbors[|neighbors| - 1];
      NeighborIdsExactly(init, v);
      assert neighbors == init + [last];
      if v in NeighborIds(neighbors) && v !in NeighborIds(init) {
        assert Get(last, "datapoint_id", Null) == v;
      }
    }
  }

  /** The ids the hybrid mode looks up: the string forms of both id lists. */
  function IdUnion(neighborIds: seq<Value>, bqIds: seq<Value>): set<string>
  {
    (set x | x in neighborIds :: Show(x)) + (set x | x in bqIds :: Show(x))
  }

  /** `list(s)` for a set: its elements once each, in an order the model
      leaves open. */
  method ListOf(s: set<string>) returns (xs: seq<string>)
    ensures forall x :: x in xs <==> x in s
    ensures forall i, j :: 0 <= i < j < |xs| ==> xs[i] != xs[j]
  {
    xs := [];
    var todo := s;
    while todo != {}
      invariant todo <= s
      invariant forall x :: x in xs <==> x in s && x !in todo
      invariant forall i, j :: 0 <= i < j < |xs| ==> xs[i] != xs[j]
      decreases |todo|
    {
      var x :| x in todo;
      xs := xs + [x];
      todo := todo - {x};
    }
  }

  /** The ids handed to the corpus lookup: the neighbour ids as strings, or,
      in hybrid mode when the lexical search answers, the set union of both,
      with duplicates removed and no particular order. */
  method LookupIds(neighborIds: seq<Value>, hybrid: bool, bqIds: Option<seq<Value>>)
    returns (ids: seq<string>)
    ensures !(hybrid && bqIds.Some?) ==> ids == Map(Show, neighborIds)
    ensures hybrid && bqIds.Some? ==>
      && (forall x :: x in ids <==> x in IdUnion(neighborIds, bqIds.value))
      && (forall i, j :: 0 <= i < j < |ids| ==> ids[i] != ids[j])
  {
    if hybrid && bqIds.Some? {
      ids := ListOf(IdUnion(neighborIds, bqIds.value));
    } else {
      ids := Map(Show, neighborIds);
    }
  }

  /** The ids a lookup may be handed. */
  ghost predicate LookupIdsOf(ids: seq<string>, neighborIds: seq<Value>, hybrid: bool, bqIds: Option<seq<Value>>)
  {
    if hybrid && bqIds.Some? then
      && (forall x :: x in ids <==> x in IdUnion(neighborIds, bqIds.value))
      && (forall i, j :: 0 <= i < j < |ids| ==> ids[i] != ids[j])
    else ids == Map(Show, neighborIds)
  }

  // ---------------------------------------------------------- live sources

  /** A PubMed record as the real-time connector returns it. */
  datatype Article = Article(pmid: Value, title: string, summary: string)

  /** A UniProt record as the real-time connector returns it. */
  datatype Protein = Protein(accession: Value, uniprotId: Value, proteinName: string,
                             genes: string, sequence: string)

  /** A row handed to the best-effort corpus upsert. */
  datatype PersistRow = PersistRow(id: Value, text: string, source: string, url: string)

  /** `hash(text) & 0xfffffff` */
  function Masked(h: int): nat
  {
    h % 0x1000_0000
  }

  function ArticleText(a: Article): string
  {
    Strip(a.title + "\n\n" + a.summary)
  }

  predicate HasText(a: Article)
  {
    ArticleText(a) != ""
  }

  function ArticleUrl(pmid: string): string
  {
    if CorpusLoader.IsDigits(pmid) then CorpusLoader.PubmedPrefix + pmid + "/" else ""
  }

  function LiveMetadata(source: string, id: Value, url: string): map<string, Value>
  {
    map["source" := Str(source), "source_id" := id, "source_type" := Str("corpus"),
        "priority" := Str("live"), "url" := Str(url)]
  }

  function ArticleDoc(a: Article): Document
  {
    var pmid := Show(a.pmid);
    Document(ArticleText(a), LiveMetadata("pubmed_articles", Str(pmid), ArticleUrl(pmid)))
  }

  function ArticleRow(hash: string -> int): Article -> PersistRow
  {
    (a: Article) =>
      var pmid := Show(a.pmid);
      var id := if pmid != "" then pmid else "pmid-" + NatToString(Masked(hash(ArticleText(a))));
      PersistRow(Str(id), ArticleText(a), "pubmed_articles", ArticleUrl(pmid))
  }

  function ProteinText(q: Protein): string
  {
    Strip(ProteinBlock(q))
  }

  /** `f"Protein: {pname}\nGenes: {genes}\n\nSequence (partial):\n{seq[:600]}"` */
  function ProteinBlock(q: Protein): string
  {
    "Protein: " + (q.proteinName + "\nGenes: " + q.genes + "\n\nSequence (partial):\n"
                   + q.sequence[..if |q.sequence| < 600 then |q.sequence| else 600])
  }

  predicate ProteinHasText(q: Protein)
  {
    ProteinText(q) != ""
  }

  function ProteinUrl(acc: string): string
  {
    if acc != "" then CorpusLoader.UniprotPrefix + acc + "/entry" else ""
  }

  function ProteinDoc(q: Protein): Document
  {
    var acc := Show(q.accession);
    Document(ProteinText(q), LiveMetadata("uniprot_records", Or(Str(acc), q.uniprotId), ProteinUrl(acc)))
  }

  function ProteinRow(hash: string -> int): Protein -> PersistRow
  {
    (q: Protein) =>
      var acc := Show(q.accession);
      var id := Or(Or(Str(acc), q.uniprotId), Str("uniprot-" + NatToString(Masked(hash(ProteinText(q))))));
      PersistRow(id, ProteinText(q), "uniprot_records", ProteinUrl(acc))
  }

  predicate Always(d: Document)
  {
    true
  }

  function Same(d: Document): Document
  {
    d
  }

  function DrugRow(d: Document): PersistRow
  {
    PersistRow(Get(d.metadata, "drug_id", Str("")), d.content, "drugbank_local",
               Show(Get(d.metadata, "url", Str(""))))
  }

  /** A connector that raised or returned nothing contributes nothing. */
  function Items<T>(o: Option<seq<T>>): seq<T>
  {
    if o.Some? then o.value else []
  }

  /** The live documents, PubMed first, then UniProt, then DrugBank; a PubMed
      or UniProt record with an empty text is skipped. */
  function LiveDocs(pubmed: Option<seq<Article>>, uniprot: Option<seq<Protein>>,
                    drugbank: Option<seq<Document>>): seq<Document>
  {
    FilterMap(Items(pubmed), HasText, ArticleDoc) + FilterMap(Items(uniprot), ProteinHasText, ProteinDoc)
      + FilterMap(Items(drugbank), Always, Same)
  }

  /** The rows for the best-effort corpus upsert, one per live document. */
  function LiveRows(pubmed: Option<seq<Article>>, uniprot: Option<seq<Protein>>,
                    drugbank: Option<seq<Document>>, hash: string -> int): seq<PersistRow>
  {
    FilterMap(Items(pubmed), HasText, ArticleRow(hash))
      + FilterMap(Items(uniprot), ProteinHasText, ProteinRow(hash))
      + FilterMap(Items(drugbank), Always, DrugRow)
  }

  /** One connector's loop of the live fallback: each record with a text adds
      a document and a row. */
  method AddLive<A>(docs: seq<Document>, rows: seq<PersistRow>, records: seq<A>, keep: A -> bool,
                    doc: A -> Document, row: A -> PersistRow)
    returns (docs': seq<Document>, rows': seq<PersistRow>)
    ensures docs' == docs + FilterMap(records, keep, doc)
    ensures rows' == rows + FilterMap(records, keep, row)
  {
    docs', rows' := docs, rows;
    var i := 0;
    while i < |records|
      invariant 0 <= i <= |records|
      invariant docs' == docs + FilterMap(records[..i], keep, doc)
      invariant rows' == rows + FilterMap(records[..i], keep, row)
    {
      TakeSnoc(records, i);
      FilterMapAppend(records[..i], keep, doc, records[i]);
      FilterMapAppend(records[..i], keep, row, records[i]);
      if keep(records[i]) {
        docs' := docs' + [doc(records[i])];
        rows' := rows' + [row(records[i])];
      }
      i := i + 1;
    }
    TakeAll(records);
  }

  /** The live fallback: the three connectors in turn. */
  method GatherLive(pubmed: Option<seq<Article>>, uniprot: Option<seq<Protein>>,
                    drugbank: Option<seq<Document>>, hash: string -> int)
    returns (docs: seq<Document>, rows: seq<PersistRow>)
    ensures docs == LiveDocs(pubmed, uniprot, drugbank)
    ensures rows == LiveRows(pubmed, uniprot, drugbank, hash)
  {
    docs, rows := AddLive([], [], Items(pubmed), HasText, ArticleDoc, ArticleRow(hash));
    assert docs == FilterMap(Items(pubmed), HasText, ArticleDoc);
    assert rows == FilterMap(Items(pubmed), HasText, ArticleRow(hash));
    docs, rows := AddLive(docs, rows, Items(uniprot), ProteinHasText, ProteinDoc, ProteinRow(hash));
    docs, rows := AddLive(docs, rows, Items(drugbank), Always, Same, DrugRow);
  }

  /** A UniProt record always yields a document: its text starts with
      `Protein:`. */
  lemma ProteinTextNonEmpty(q: Protein)
    ensures ProteinHasText(q)
  {
    var s := ProteinBlock(q);
    assert s[0] == 'P';
    StripEmptyIffBlank(s);
  }

  /** Every UniProt record becomes a live document, in order. */
  lemma ProteinDocsAll(proteins: seq<Protein>)
    ensures FilterMap(proteins, ProteinHasText, ProteinDoc) == Map(ProteinDoc, proteins)
  {
    forall q | q in proteins ensures ProteinHasText(q) {
      ProteinTextNonEmpty(q);
    }
    FilterMapAll(proteins, ProteinHasText, ProteinDoc);
  }

  /** Every PubMed document comes from a record with a non-empty text, is
      marked live, and links to PubMed exactly when the PMID is all digits. */
  lemma ArticleDocsShape(articles: seq<Article>, k: nat) returns (a: Article)
    requires k < |FilterMap(articles, HasText, ArticleDoc)|
    ensures a in articles && HasText(a)
    ensures var d := FilterMap(articles, HasText, ArticleDoc)[k];
      && d.content != ""
      && d.metadata == LiveMetadata("pubmed_articles", Str(Show(a.pmid)), ArticleUrl(Show(a.pmid)))
      && (ArticleUrl(Show(a.pmid)) != "" <==> CorpusLoader.IsDigits(Show(a.pmid)))
  {
    var j := FilterMapOrigin(articles, HasText, ArticleDoc, k);
    a := articles[j];
  }

  /** A persisted PubMed row always has an id: the PMID, or a hash-based one. */
  lemma ArticleRowId(a: Article, hash: string -> int)
    ensures ArticleRow(hash)(a).id.Str? && ArticleRow(hash)(a).id.s != ""
    ensures Show(a.pmid) != "" ==> ArticleRow(hash)(a).id == Str(Show(a.pmid))
  {
  }

  // ---------------------------------------------------------- filtering

  /** `str(e.get("metadata", {}).get("source", ""))` */
  function Src(e: Document): string
  {
    Show(Get(e.metadata, "source", Str("")))
  }

  /** `[e for e in entries if _src(e) in allow]` */
  function KeepSources(es: seq<Document>, allow: set<string>): (r: seq<Document>)
    ensures |r| <= |es|
  {
    if es == [] then []
    else
      var e := es[|es| - 1];
      KeepSources(es[..|es| - 1], allow) + (if Src(e) in allow then [e] else [])
  }

  /** An entry is kept exactly when it is in the input and its source is
      allowed. */
  lemma {:induction false} KeepSourcesExactly(es: seq<Document>, allow: set<string>, e: Document)
    ensures e in KeepSources(es, allow) <==> e in es && Src(e) in allow
  {
    if es != [] {
      var init := es[..|es| - 1];
      KeepSourcesExactly(init, allow, e);
      assert es == init + [es[|es| - 1]];
    }
  }

  /** Filtering twice is filtering once by both sets. */
  lemma {:induction false} KeepSourcesTwice(es: seq<Document>, a: set<string>, b: set<string>)
    ensures KeepSources(KeepSources(es, a), b) == KeepSources(es, a * b)
  {
    if es != [] {
      var init := es[..|es| - 1];
      var e := es[|es| - 1];
      KeepSourcesTwice(init, a, b);
      var k := KeepSources(init, a);
      assert es[..|es| - 1] == init;
      if Src(e) in a {
        assert KeepSources(es, a) == k + [e];
        assert (k + [e])[..|k + [e]| - 1] == k;
        assert KeepSources(k + [e], b) == KeepSources(k, b) + (if Src(e) in b then [e] else []);
      } else {
        assert KeepSources(es, a) == k;
      }
    }
  }

  /** Filtering keeps everything when every source is allowed. */
  lemma {:induction false} KeepSourcesAll(es: seq<Document>, allow: set<string>)
    requires forall e :: e in es ==> Src(e) in allow
    ensures KeepSources(es, allow) == es
  {
    if es != [] {
      var init := es[..|es| - 1];
      KeepSourcesAll(init, allow);
      assert init + [es[|es| - 1]] == es;
    }
  }

  const ScholarSources: set<string> := {"pubmed_articles", "uniprot_records"}

  /** The corpus entries left after the Scholar mode and the source filters. */
  function FilterEntries(es: seq<Document>, mode: string, sourceFilters: Option<seq<string>>): seq<Document>
  {
    var scholar := if mode == "Scholar" then KeepSources(es, ScholarSources) else es;
    if sourceFilters.Some? && sourceFilters.value != [] then
      KeepSources(scholar, set f | f in sourceFilters.value)
    else scholar
  }

  /** The Scholar mode and the filters together keep exactly the entries whose
      source both allow. */
  lemma FilterEntriesExactly(es: seq<Document>, mode: string, sourceFilters: Option<seq<string>>, e: Document)
    ensures e in FilterEntries(es, mode, sourceFilters) <==>
      && e in es
      && (mode == "Scholar" ==> Src(e) in ScholarSources)
      && (sourceFilters.Some? && sourceFilters.value != [] ==> Src(e) in sourceFilters.value)
  {
    var scholar := if mode == "Scholar" then KeepSources(es, ScholarSources) else es;
    if mode == "Scholar" {
      KeepSourcesExactly(es, ScholarSources, e);
    }
    if sourceFilters.Some? && sourceFilters.value != [] {
      KeepSourcesExactly(scholar, (set f | f in sourceFilters.value), e);
    }
  }

  // ---------------------------------------------------------- doc order

  function UploadDoc(idx: nat, t: string): Document
  {
    Document(Strip(t), map["source" := Str("upload"), "source_id" := Str("upload-" + NatToString(idx + 1)),
                           "source_type" := Str("user_upload"), "priority" := Str("upload"), "url" := Str("")])
  }

  /** The documents of the uploaded texts: the non-blank ones, each numbered
      by its position among all the texts. */
  function Uploads(ts: seq<string>): (r: seq<Document>)
    ensures |r| <= |ts|
  {
    if ts == [] then []
    else
      var t := ts[|ts| - 1];
      Uploads(ts[..|ts| - 1]) + (if IsBlank(t) then [] else [UploadDoc(|ts| - 1, t)])
  }

  /** The upload loop of `run_rag`. */
  method AppendUploads(docs: seq<Document>, ts: seq<string>) returns (docs': seq<Document>)
    ensures docs' == docs + Uploads(ts)
  {
    docs' := docs;
    var idx := 0;
    while idx < |ts|
      invariant 0 <= idx <= |ts|
      invariant docs' == docs + Uploads(ts[..idx])
    {
      TakeNext([], ts, idx);
      var t := ts[idx];
      StripEmptyIffBlank(t);
      if t != "" && Strip(t) != "" {
        docs' := docs' + [UploadDoc(idx, t)];
      }
      idx := idx + 1;
    }
    TakeAll(ts);
  }

  /** Each upload document comes from a non-blank text and carries the 1-based
      position of that text among all the texts, blanks included. */
  lemma {:induction false} UploadOrigin(ts: seq<string>, k: nat) returns (j: nat)
    requires k < |Uploads(ts)|
    ensures j < |ts| && !IsBlank(ts[j]) && Uploads(ts)[k] == UploadDoc(j, ts[j])
    ensures Uploads(ts)[k].content != "" && Uploads(ts)[k].metadata["source_id"] == Str("upload-" + NatToString(j + 1))
  {
    var init := ts[..|ts| - 1];
    var last := if IsBlank(ts[|ts| - 1]) then [] else [UploadDoc(|ts| - 1, ts[|ts| - 1])];
    assert Uploads(ts) == Uploads(init) + last;
    if k < |Uploads(init)| {
      j := UploadOrigin(init, k);
      assert ts[j] == init[j];
    } else {
      j := |ts| - 1;
    }
    UploadDocShape(j, ts[j]);
  }

  lemma UploadDocShape(idx: nat, t: string)
    requires !IsBlank(t)
    ensures UploadDoc(idx, t).content != ""
    ensures UploadDoc(idx, t).metadata["source_id"] == Str("upload-" + NatToString(idx + 1))
  {
    StripEmptyIffBlank(t);
  }

  /** A blank text still uses up its number. */
  lemma BlankUploadKeepsNumbering()
    ensures Uploads([" ", "notes"]) == [UploadDoc(1, "notes")]
  {
    var ts := [" ", "notes"];
    assert ts[..1] == [" "] && [" "][..0] == [];
    assert IsBlank(" ");
    assert Uploads([" "]) == [];
    assert !IsBlank("notes") by {
      assert !IsSpace("notes"[0]);
    }
    assert Uploads(ts) == Uploads([" "]) + [UploadDoc(1, "notes")];
  }

  /** The documents handed to scoring: live documents first, then the filtered
      corpus entries, then the uploads. */
  function OrderedDocs(live: seq<Document>, corpus: seq<Document>, extraTexts: Option<seq<string>>): seq<Document>
  {
    live + corpus + Uploads(Items(extraTexts))
  }

  // ---------------------------------------------------------- run_rag

  /** `str(get_config("CORPUS_BACKEND", "gcs_jsonl")).lower()` */
  function Backend(env: Config.Env, p: Config.Parsers): string
  {
    Lower(Show(Config.GetConfig("CORPUS_BACKEND", Str("gcs_jsonl"), env, p)))
  }

  /** The diagnostics' `corpus_source`. */
  function CorpusSource(backend: string, corpusUri: string): string
  {
    if backend == "bq" || backend == "bigquery" then "bq"
    else if "gs://" <= corpusUri then "gcs"
    else "none"
  }

  datatype Diagnostics = Diagnostics(neighbors: nat, neighborIds: nat, mappedDocs: nat, corpusSource: string,
                                     corpusUri: string, uploadedDocs: nat, effectiveModel: string, hybrid: bool)

  /** How `run_rag` ends: a raised configuration error, the fixed reply for
      no passages, or generation over the selected passages (generation
      itself is not modelled). */
  datatype RagOutcome =
    | MissingConfig
    | NoPassages(diagnostics: Diagnostics)
    | Generate(selected: seq<Document>, diagnostics: Diagnostics)

  const NoPassagesText := "No relevant passages found."

  /** The reply of the no-passages exit: the fixed text and no sources. */
  function Reply(r: RagOutcome): (reply: Option<(string, seq<Document>)>)
  {
    if r.NoPassages? then Some((NoPassagesText, [])) else None
  }

  /** The inputs that stand for the external calls of `run_rag`. */
  datatype Calls = Calls(
    neighbors: seq<map<string, Value>>,                   // vector search
    bqIds: Option<seq<Value>>,                            // lexical search, `None` when it raises
    bqAvailable: bool,                                    // `_bq_corpus_available()`
    lookup: seq<string> -> Option<seq<Document>>,         // corpus lookup, `None` when it raises
    pubmed: Option<seq<Article>>,
    uniprot: Option<seq<Protein>>,
    drugbank: Option<seq<Document>>,
    hash: string -> int,
    select: seq<Document> -> seq<Document>)               // scoring and selection

  /** The corpus entries found for `ids`: none when the BigQuery backend is
      chosen but unavailable or when the lookup raises. */
  function Entries(backend: string, ids: seq<string>, calls: Calls): seq<Document>
  {
    if (backend == "bq" || backend == "bigquery") && !calls.bqAvailable then []
    else Items(calls.lookup(ids))
  }

  /** The diagnostics of a run that handed `docCount` documents to scoring. */
  function Diagnose(env: Config.Env, p: Config.Parsers, modelOverride: Option<string>,
                    extraTexts: Option<seq<string>>, ids: seq<string>, calls: Calls, docCount: nat): Diagnostics
  {
    var uri := Show(Config.GetConfig("CORPUS_URI", Str(""), env, p));
    Diagnostics(|calls.neighbors|, |ids|, docCount, CorpusSource(Backend(env, p), uri), uri,
                |Items(extraTexts)|,
                NormalizeModelName(modelOverride, Show(Config.GetConfig("GENERATION_MODEL", Str("gemini-2.5-flash-lite"), env, p))),
                Truthy(Config.GetConfig("HYBRID_RETRIEVAL", Bool(false), env, p)))
  }

  /** The no-passages exit when nothing is selected, generation otherwise. */
  function Decide(selected: seq<Document>, diag: Diagnostics): RagOutcome
  {
    if selected == [] then NoPassages(diag) else Generate(selected, diag)
  }

  /** What `run_rag` does once the configuration is complete and the lookup
      ids are `ids`. */
  function Finish(env: Config.Env, p: Config.Parsers, modelOverride: Option<string>, mode: string,
                  sourceFilters: Option<seq<string>>, extraTexts: Option<seq<string>>,
                  ids: seq<string>, calls: Calls): RagOutcome
  {
    var entries := Entries(Backend(env, p), ids, calls);
    var live := if entries == [] then LiveDocs(calls.pubmed, calls.uniprot, calls.drugbank) else [];
    var docs := OrderedDocs(live, FilterEntries(entries, mode, sourceFilters), extraTexts);
    Decide(calls.select(docs), Diagnose(env, p, modelOverride, extraTexts, ids, calls, |docs|))
  }

  /** The rows `run_rag` hands to the best-effort corpus upsert. */
  function Persisted(env: Config.Env, p: Config.Parsers, ids: seq<string>, calls: Calls): seq<PersistRow>
  {
    if Entries(Backend(env, p), ids, calls) == [] then
      LiveRows(calls.pubmed, calls.uniprot, calls.drugbank, calls.hash)
    else []
  }

  /** `run_rag` */
  method RunRag(env: Config.Env, p: Config.Parsers, modelOverride: Option<string>, mode: string,
                sourceFilters: Option<seq<string>>, extraTexts: Option<seq<string>>, calls: Calls)
    returns (ids: seq<string>, persisted: seq<PersistRow>, r: RagOutcome)
    ensures !Configured(ReadConfig(env, p)) ==> r == MissingConfig && ids == [] && persisted == []
    ensures Configured(ReadConfig(env, p)) ==>
      && LookupIdsOf(ids, NeighborIds(calls.neighbors),
                     Truthy(Config.GetConfig("HYBRID_RETRIEVAL", Bool(false), env, p)), calls.bqIds)
      && r == Finish(env, p, modelOverride, mode, sourceFilters, extraTexts, ids, calls)
      && persisted == Persisted(env, p, ids, calls)
  {
    if !Configured(ReadConfig(env, p)) {
      return [], [], MissingConfig;
    }
    var hybrid := Truthy(Config.GetConfig("HYBRID_RETRIEVAL", Bool(false), env, p));
    ids := LookupIds(NeighborIds(calls.neighbors), hybrid, calls.bqIds);
    var entries := Entries(Backend(env, p), ids, calls);
    var docs;
    docs, persisted := CollectDocs(entries, mode, sourceFilters, extraTexts, calls);
    r := Decide(calls.select(docs), Diagnose(env, p, modelOverride, extraTexts, ids, calls, |docs|));
  }

  /** The documents handed to scoring and the rows to persist, given the
      corpus entries found. */
  method CollectDocs(entries: seq<Document>, mode: string, sourceFilters: Option<seq<string>>,
                     extraTexts: Option<seq<string>>, calls: Calls)
    returns (docs: seq<Document>, persisted: seq<PersistRow>)
    ensures docs == OrderedDocs(if entries == [] then LiveDocs(calls.pubmed, calls.uniprot, calls.drugbank) else [],
                                FilterEntries(entries, mode, sourceFilters), extraTexts)
    ensures persisted == if entries == [] then LiveRows(calls.pubmed, calls.uniprot, calls.drugbank, calls.hash) else []
  {
    var live: seq<Document> := [];
    persisted := [];
    if entries == [] {
      live, persisted := GatherLive(calls.pubmed, calls.uniprot, calls.drugbank, calls.hash);
    }
    docs := live + FilterEntries(entries, mode, sourceFilters);
    if extraTexts.Some? && extraTexts.value != [] {
      docs := AppendUploads(docs, extraTexts.value);
    } else {
      assert Uploads(Items(extraTexts)) == [];
    }
  }

  /** Live documents are fetched only when the corpus lookup found nothing,
      come first, and are never filtered by mode or source; uploads come
      last and are never filtered either. */
  lemma DocsOrder(live: seq<Document>, corpus: seq<Document>, extraTexts: Option<seq<string>>, k: nat)
    ensures var docs := OrderedDocs(live, corpus, extraTexts);
      && docs[..|live|] == live
      && docs[|live|..|live| + |corpus|] == corpus
      && docs[|live| + |corpus|..] == Uploads(Items(extraTexts))
  {
  }

  /** With no passage selected, the reply is the fixed text with no sources. */
  lemma NoPassagesReply(env: Config.Env, p: Config.Parsers, modelOverride: Option<string>, mode: string,
                        sourceFilters: Option<seq<string>>, extraTexts: Option<seq<string>>,
                        ids: seq<string>, calls: Calls)
    ensures var r := Finish(env, p, modelOverride, mode, sourceFilters, extraTexts, ids, calls);
      (Reply(r) == Some((NoPassagesText, []))) <==>
        calls.select(OrderedDocs(
          if Entries(Backend(env, p), ids, calls) == [] then LiveDocs(calls.pubmed, calls.uniprot, calls.drugbank) else [],
          FilterEntries(Entries(Backend(env, p), ids, calls), mode, sourceFilters), extraTexts)) == []
  {
  }

  /** In Scholar mode every corpus document handed to scoring is a PubMed or
      UniProt entry, while live documents and uploads are kept. */
  lemma ScholarKeepsLiveAndUploads(entries: seq<Document>, live: seq<Document>, sourceFilters: Option<seq<string>>,
                                   extraTexts: Option<seq<string>>, e: Document)
    ensures e in live ==> e in OrderedDocs(live, FilterEntries(entries, "Scholar", sourceFilters), extraTexts)
    ensures e in Uploads(Items(extraTexts)) ==>
      e in OrderedDocs(live, FilterEntries(entries, "Scholar", sourceFilters), extraTexts)
    ensures e in FilterEntries(entries, "Scholar", sourceFilters) ==> Src(e) in ScholarSources
  {
    FilterEntriesExactly(entries, "Scholar", sourceFilters, e);
  }
}
