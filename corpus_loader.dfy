/**
 * The corpus loader: JSONL lines (or BigQuery rows) become a mapping from
 * an id to the entry's text and metadata, kept in a process-wide cache for
 * 300 seconds. Reading the lines (local file or GCS), the BigQuery query,
 * the clock and `json.loads` are inputs of the model.
 */
module CorpusLoader {
  import opened Common
  import Config

  // ------------------------------------------------------------ source URLs

  /** `str.isdigit()` over ASCII digits. */
  predicate IsDigits(s: string)
  {
    s != [] && forall k :: 0 <= k < |s| ==> '0' <= s[k] <= '9'
  }

  const PubmedPrefix := "https://pubmed.ncbi.nlm.nih.gov/"
  const UniprotPrefix := "https://www.uniprot.org/uniprotkb/"

  /** `_derive_url(source, sid)`: a best-effort link for the known sources. */
  function DeriveUrl(source: Value, sid: string): (url: string)
  {
    if !Truthy(source) || sid == "" then ""
    else if Show(source) == "pubmed_articles" && IsDigits(sid) then PubmedPrefix + sid + "/"
    else if Show(source) == "uniprot_records" then UniprotPrefix + sid + "/entry"
    else ""
  }

  /** The id a URL derived for `source` was built from. */
  function UrlId(source: Value, url: string): string
  {
    if Show(source) == "pubmed_articles" && |url| >= |PubmedPrefix| + 1 then
      url[|PubmedPrefix|..|url| - 1]
    else if Show(source) == "uniprot_records" && |url| >= |UniprotPrefix| + 6 then
      url[|UniprotPrefix|..|url| - 6]
    else ""
  }

  /** No URL without a source and an id. */
  lemma DeriveUrlNeedsBoth(source: Value, sid: string)
    ensures !Truthy(source) || sid == "" ==> DeriveUrl(source, sid) == ""
  {
  }

  /** A URL is derived exactly for a PubMed article with an all-digit id and
      for any UniProt record. */
  lemma DeriveUrlCases(source: Value, sid: string)
    requires Truthy(source) && sid != ""
    ensures DeriveUrl(source, sid) == PubmedPrefix + sid + "/"
        <==> Show(source) == "pubmed_articles" && IsDigits(sid)
    ensures DeriveUrl(source, sid) == UniprotPrefix + sid + "/entry"
        <==> Show(source) == "uniprot_records"
    ensures DeriveUrl(source, sid) == ""
        <==> !(Show(source) == "pubmed_articles" && IsDigits(sid)) && Show(source) != "uniprot_records"
  {
    assert (PubmedPrefix + sid + "/")[8] == 'p';
    assert (UniprotPrefix + sid + "/entry")[8] == 'w';
  }

  /** The id can be read back from any derived URL. */
  lemma DeriveUrlRoundTrip(source: Value, sid: string)
    requires DeriveUrl(source, sid) != ""
    ensures UrlId(source, DeriveUrl(source, sid)) == sid
  {
    if Show(source) == "pubmed_articles" {
      Framed(PubmedPrefix, sid, "/");
    } else {
      Framed(UniprotPrefix, sid, "/entry");
    }
  }

  lemma Framed(pre: string, mid: string, suf: string)
    ensures (pre + mid + suf)[|pre|..|pre + mid + suf| - |suf|] == mid
  {
  }

  // ---------------------------------------------------------- corpus mapping

  /** What `json.loads` makes of a line: a decoding error, an object, or a
      JSON value that is not an object (whose `.get` raises). */
  datatype Parsed = Malformed | Object(fields: map<string, Value>) | NonObject

  /** `{"text": ..., "metadata": {...}}` */
  datatype CorpusEntry = CorpusEntry(text: Value, metadata: map<string, Value>)

  type Mapping = map<string, CorpusEntry>

  /** `str(obj.get("id"))` */
  function IdOf(obj: map<string, Value>): string
  {
    Show(Get(obj, "id", Null))
  }

  /** The entry of one JSON object: its text, source, id, the `corpus` source
      type, and the explicit URL or else the derived one. */
  function EntryOf(obj: map<string, Value>): CorpusEntry
  {
    var id := IdOf(obj);
    var source := Get(obj, "source", Str(""));
    CorpusEntry(Get(obj, "text", Str("")),
      map["source" := source, "source_id" := Str(id), "source_type" := Str("corpus"),
          "url" := Or(Get(obj, "url", Null), Str(DeriveUrl(source, id)))])
  }

  /** The mapping after one raw line; `None` when the line raises. */
  function LineStep(m: Mapping, raw: string, parse: string -> Parsed): Option<Mapping>
  {
    var line := Strip(raw);
    if line == "" then Some(m)
    else match parse(line)
      case Malformed => Some(m)
      case NonObject => None
      case Object(obj) => Some(m[IdOf(obj) := EntryOf(obj)])
  }

  /** The mapping after the lines `lines`, starting from `m`. */
  function Fill(m: Mapping, lines: seq<string>, parse: string -> Parsed): Option<Mapping>
    decreases |lines|
  {
    if lines == [] then Some(m)
    else match LineStep(m, lines[0], parse)
      case None => None
      case Some(m') => Fill(m', lines[1..], parse)
  }

  /** The line loop of `load_corpus_map`. */
  method LoadLines(lines: seq<string>, parse: string -> Parsed) returns (r: Option<Mapping>)
    ensures r == Fill(map[], lines, parse)
  {
    var mapping: Mapping := map[];
    var i := 0;
    while i < |lines|
      invariant 0 <= i <= |lines|
      invariant Fill(mapping, lines[i..], parse) == Fill(map[], lines, parse)
    {
      var line := Strip(lines[i]);
      assert lines[i..][1..] == lines[i + 1..];
      if line != "" {
        var obj := parse(line);
        if obj.NonObject? {
          return None;
        }
        if obj.Object? {
          mapping := mapping[IdOf(obj.fields) := EntryOf(obj.fields)];
        }
      }
      i := i + 1;
    }
    return Some(mapping);
  }

  /** The ids of the lines that are JSON objects. */
  function Ids(lines: seq<string>, parse: string -> Parsed): set<string>
    decreases |lines|
  {
    if lines == [] then {}
    else
      var line := Strip(lines[0]);
      var rest := Ids(lines[1..], parse);
      if line != "" && parse(line).Object? then {IdOf(parse(line).fields)} + rest else rest
  }

  /** Every entry is shaped as the loader builds it. */
  ghost predicate WellFormed(m: Mapping)
  {
    forall id :: id in m ==> EntryShaped(id, m[id])
  }

  ghost predicate EntryShaped(id: string, e: CorpusEntry)
  {
    var md := e.metadata;
    && "source" in md && "source_id" in md && "source_type" in md && "url" in md
    && md["source_id"] == Str(id)
    && md["source_type"] == Str("corpus")
    && (Truthy(md["url"]) || md["url"] == Str(DeriveUrl(md["source"], id)))
  }

  lemma EntryOfShaped(obj: map<string, Value>)
    ensures EntryShaped(IdOf(obj), EntryOf(obj))
  {
  }

  /** One line keeps the mapping well formed. */
  lemma StepShape(m: Mapping, raw: string, parse: string -> Parsed)
    requires WellFormed(m) && LineStep(m, raw, parse).Some?
    ensures WellFormed(LineStep(m, raw, parse).value)
  {
    var line := Strip(raw);
    if line != "" && parse(line).Object? {
      var obj := parse(line).fields;
      EntryOfShaped(obj);
      var m' := m[IdOf(obj) := EntryOf(obj)];
      forall id | id in m' ensures EntryShaped(id, m'[id]) {
        if id != IdOf(obj) {
          assert m'[id] == m[id];
        }
      }
    }
  }

  /** Loading keeps every entry well formed. */
  lemma {:induction false} FillShape(m: Mapping, lines: seq<string>, parse: string -> Parsed)
    requires WellFormed(m)
    ensures Fill(m, lines, parse).Some? ==> WellFormed(Fill(m, lines, parse).value)
    decreases |lines|
  {
    if lines != [] && LineStep(m, lines[0], parse).Some? {
      StepShape(m, lines[0], parse);
      FillShape(LineStep(m, lines[0], parse).value, lines[1..], parse);
    }
  }

  /** The mapping holds exactly the ids of the object lines. */
  lemma {:induction false} FillKeys(m: Mapping, lines: seq<string>, parse: string -> Parsed)
    ensures Fill(m, lines, parse).Some? ==> Fill(m, lines, parse).value.Keys == m.Keys + Ids(lines, parse)
    decreases |lines|
  {
    if lines != [] && LineStep(m, lines[0], parse).Some? {
      FillKeys(LineStep(m, lines[0], parse).value, lines[1..], parse);
    }
  }

  /** Blank lines and lines that do not decode are skipped. */
  lemma SkippedLine(m: Mapping, raw: string, rest: seq<string>, parse: string -> Parsed)
    requires Strip(raw) == "" || parse(Strip(raw)) == Malformed
    ensures Fill(m, [raw] + rest, parse) == Fill(m, rest, parse)
  {
    assert ([raw] + rest)[1..] == rest;
  }

  /** A line that is valid JSON but not an object makes the load raise. */
  lemma {:induction false} NonObjectRaises(m: Mapping, pre: seq<string>, raw: string, post: seq<string>,
                                           parse: string -> Parsed)
    requires Strip(raw) != "" && parse(Strip(raw)) == NonObject
    ensures Fill(m, pre + [raw] + post, parse) == None
    decreases |pre|
  {
    if pre == [] {
      assert (pre + [raw] + post)[1..] == post;
    } else {
      assert (pre + [raw] + post)[1..] == pre[1..] + [raw] + post;
      var step := LineStep(m, pre[0], parse);
      if step.Some? {
        NonObjectRaises(step.value, pre[1..], raw, post, parse);
      }
    }
  }

  /** Loading `a + b` is loading `a`, then `b` from where `a` left off. */
  lemma {:induction false} FillAppend(m: Mapping, a: seq<string>, b: seq<string>, parse: string -> Parsed)
    ensures Fill(m, a + b, parse)
         == (if Fill(m, a, parse).Some? then Fill(Fill(m, a, parse).value, b, parse) else None)
    decreases |a|
  {
    if a == [] {
      assert a + b == b;
    } else {
      assert (a + b)[1..] == a[1..] + b;
      var step := LineStep(m, a[0], parse);
      if step.Some? {
        FillAppend(step.value, a[1..], b, parse);
      }
    }
  }

  /** Lines that do not carry the id `id` leave its entry alone. */
  lemma {:induction false} FillKeeps(m: Mapping, lines: seq<string>, parse: string -> Parsed, id: string)
    requires id in m && id !in Ids(lines, parse)
    ensures Fill(m, lines, parse).Some? ==>
      id in Fill(m, lines, parse).value && Fill(m, lines, parse).value[id] == m[id]
    decreases |lines|
  {
    if lines != [] {
      var step := LineStep(m, lines[0], parse);
      if step.Some? {
        FillKeeps(step.value, lines[1..], parse, id);
      }
    }
  }

  /** The last line with a given id wins: a later line overwrites an earlier
      entry. */
  lemma LastLineWins(pre: seq<string>, raw: string, post: seq<string>, parse: string -> Parsed)
    requires Strip(raw) != "" && parse(Strip(raw)).Object?
    requires IdOf(parse(Strip(raw)).fields) !in Ids(post, parse)
    requires Fill(map[], pre + [raw] + post, parse).Some?
    ensures var obj := parse(Strip(raw)).fields;
      && IdOf(obj) in Fill(map[], pre + [raw] + post, parse).value
      && Fill(map[], pre + [raw] + post, parse).value[IdOf(obj)] == EntryOf(obj)
  {
    var obj := parse(Strip(raw)).fields;
    FillAppend(map[], pre + [raw], post, parse);
    FillAppend(map[], pre, [raw], parse);
    var m := Fill(map[], pre, parse).value;
    assert Fill(m, [raw], parse) == Some(m[IdOf(obj) := EntryOf(obj)]);
    FillKeeps(m[IdOf(obj) := EntryOf(obj)], post, parse, IdOf(obj));
  }

  // ------------------------------------------------------------ the backend

  /** `(get_config("CORPUS_BACKEND", "") or "").lower()` */
  function Backend(env: Config.Env, p: Config.Parsers): string
  {
    Lower(Show(Or(Config.GetConfig("CORPUS_BACKEND", Str(""), env, p), Str(""))))
  }

  /** `bool(get_config("BQ_CORPUS_TABLE", ""))` */
  predicate HasBqTable(env: Config.Env, p: Config.Parsers)
  {
    Truthy(Config.GetConfig("BQ_CORPUS_TABLE", Str(""), env, p))
  }

  /** `use_bq` in `load_corpus_map` */
  predicate UseBq(env: Config.Env, p: Config.Parsers)
  {
    Backend(env, p) == "bq" || Backend(env, p) == "bigquery" || HasBqTable(env, p)
  }

  /** The `backend` that `corpus_stats` reports. */
  function StatsBackend(env: Config.Env, p: Config.Parsers): (b: string)
  {
    if Backend(env, p) != "" then Backend(env, p)
    else if HasBqTable(env, p) then "bq"
    else "gcs_jsonl"
  }

  /** The configured backend is read from the environment, lower-cased. */
  lemma BackendFromEnv(env: Config.Env, p: Config.Parsers)
    ensures "BIOMIND_CORPUS_BACKEND" in env ==> Backend(env, p) == Lower(env["BIOMIND_CORPUS_BACKEND"])
    ensures "BIOMIND_CORPUS_BACKEND" !in env && "CORPUS_BACKEND" in env ==> Backend(env, p) == Lower(env["CORPUS_BACKEND"])
    ensures "BIOMIND_CORPUS_BACKEND" !in env && "CORPUS_BACKEND" !in env ==> Backend(env, p) == ""
  {
    assert "BIOMIND_" + "CORPUS_BACKEND" == "BIOMIND_CORPUS_BACKEND";
  }

  /** The reported backend is the configured one when there is one, else
      `bq` or `gcs_jsonl` by whether a BigQuery table is configured; it is
      never empty, and a report of `bq` means the loader reads BigQuery. */
  lemma StatsBackendChoice(env: Config.Env, p: Config.Parsers)
    ensures StatsBackend(env, p) != ""
    ensures Backend(env, p) != "" ==> StatsBackend(env, p) == Backend(env, p)
    ensures Backend(env, p) == "" ==> (StatsBackend(env, p) == "bq" <==> HasBqTable(env, p))
    ensures StatsBackend(env, p) == "bq" ==> UseBq(env, p)
  {
  }

  /** A configured table makes the loader read BigQuery even when the
      configured backend names the JSONL one, which `corpus_stats` then
      still reports. */
  lemma TableOverridesBackend(env: Config.Env, p: Config.Parsers)
    requires Backend(env, p) == "gcs_jsonl" && HasBqTable(env, p)
    ensures UseBq(env, p) && StatsBackend(env, p) == "gcs_jsonl"
  {
  }

  // ------------------------------------------------------------- the cache

  const CacheTtl: real := 300.0

  /** The cache stamp of `now - t` seconds ago is still in force. */
  predicate Fresh(cache: Option<(real, Mapping)>, now: real)
  {
    cache.Some? && now - cache.value.0 < CacheTtl
  }

  /** The mapping a load builds when the cache is not used: BigQuery's
      (`None` when that raises) or the JSONL lines' (`None` when reading
      them raises). */
  function Build(env: Config.Env, p: Config.Parsers, lines: Option<seq<string>>, bq: Option<Mapping>,
                 parse: string -> Parsed): Option<Mapping>
  {
    if UseBq(env, p) then bq
    else if lines.None? then None
    else Fill(map[], lines.value, parse)
  }

  /** What `load_corpus_map` returns. */
  function Loaded(cache: Option<(real, Mapping)>, now: real, env: Config.Env, p: Config.Parsers,
                  lines: Option<seq<string>>, bq: Option<Mapping>, parse: string -> Parsed): Option<Mapping>
  {
    if Fresh(cache, now) then Some(cache.value.1) else Build(env, p, lines, bq, parse)
  }

  /** The cache after `load_corpus_map`: restamped when a mapping was built,
      unchanged on a hit or a raise. */
  function Recached(cache: Option<(real, Mapping)>, now: real, r: Option<Mapping>): Option<(real, Mapping)>
  {
    if Fresh(cache, now) || r.None? then cache else Some((now, r.value))
  }

  /** The `corpus_stats` dictionary. */
  datatype Stats = Stats(backend: string, uri: Value, bqDataset: Value, bqTable: Value,
                         strict: bool, cacheAge: Option<real>, cacheSize: Option<nat>)

  class CorpusCache {
    /** `_CACHE`: the time of the last build and the mapping built. */
    var cache: Option<(real, Mapping)>

    constructor()
      ensures cache == None
    {
      cache := None;
    }

    /** `clear_corpus_cache` */
    method Clear()
      modifies this
      ensures cache == None
    {
      cache := None;
    }

    /** `load_corpus_map` */
    method Load(now: real, env: Config.Env, p: Config.Parsers, lines: Option<seq<string>>, bq: Option<Mapping>,
                parse: string -> Parsed) returns (r: Option<Mapping>)
      modifies this
      ensures r == Loaded(old(cache), now, env, p, lines, bq, parse)
      ensures cache == Recached(old(cache), now, r)
    {
      if cache.Some? && now - cache.value.0 < CacheTtl {
        return Some(cache.value.1);
      }
      var mapping: Option<Mapping>;
      if UseBq(env, p) {
        mapping := bq;
      } else if lines.None? {
        mapping := None;
      } else {
        mapping := LoadLines(lines.value, parse);
      }
      if mapping.None? {
        return None;
      }
      cache := Some((now, mapping.value));
      return mapping;
    }

    /** `corpus_stats` */
    function CorpusStats(now: real, env: Config.Env, p: Config.Parsers): (s: Stats)
      reads this
    {
      Stats(StatsBackend(env, p), Config.GetConfig("CORPUS_URI", Str(""), env, p),
            Config.GetConfig("BQ_CORPUS_DATASET", Str(""), env, p), Config.GetConfig("BQ_CORPUS_TABLE", Str(""), env, p),
            Truthy(Config.GetConfig("STRICT_REMOTE_CORPUS", Bool(false), env, p)),
            if cache.Some? then Some(Max(0.0, now - cache.value.0)) else None,
            if cache.Some? then Some(|cache.value.1|) else None)
    }
  }

  /** Within 300 seconds of a build, a load returns the mapping built,
      whatever the sources now hold. */
  lemma CacheHit(built: Mapping, t: real, now: real, env: Config.Env, p: Config.Parsers, lines: Option<seq<string>>,
                 bq: Option<Mapping>, parse: string -> Parsed)
    requires now - t < CacheTtl
    ensures Loaded(Some((t, built)), now, env, p, lines, bq, parse) == Some(built)
    ensures Recached(Some((t, built)), now, Some(built)) == Some((t, built))
  {
  }

  /** A load that builds a mapping is answered from the cache for the next
      300 seconds; a cleared or stale cache makes the next load rebuild. */
  lemma BuildThenHit(cache: Option<(real, Mapping)>, t1: real, t2: real, env: Config.Env, p: Config.Parsers,
                     lines: Option<seq<string>>, bq: Option<Mapping>, parse: string -> Parsed,
                     env2: Config.Env, lines2: Option<seq<string>>, bq2: Option<Mapping>)
    requires !Fresh(cache, t1) && Build(env, p, lines, bq, parse).Some?
    requires t2 - t1 < CacheTtl
    ensures var r1 := Loaded(cache, t1, env, p, lines, bq, parse);
      Loaded(Recached(cache, t1, r1), t2, env2, p, lines2, bq2, parse) == r1
  {
  }

  lemma StaleRebuilds(cache: Option<(real, Mapping)>, now: real, env: Config.Env, p: Config.Parsers,
                      lines: Option<seq<string>>, bq: Option<Mapping>, parse: string -> Parsed)
    requires cache.None? || now - cache.value.0 >= CacheTtl
    ensures Loaded(cache, now, env, p, lines, bq, parse) == Build(env, p, lines, bq, parse)
    ensures Build(env, p, lines, bq, parse).Some? ==>
      Recached(cache, now, Loaded(cache, now, env, p, lines, bq, parse))
        == Some((now, Build(env, p, lines, bq, parse).value))
  {
  }
}
