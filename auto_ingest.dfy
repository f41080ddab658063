/**
 * The ingestion script that fetches PubMed articles, cuts them into
 * overlapping character windows, embeds them and writes Matching Engine
 * datapoints. The fetch, the embedding call, the file writes and the uploads
 * are inputs or left out; what remains is the windowing, the record ids and
 * the exit codes of the script's entry point.
 */
module AutoIngest {
  import opened Common

  // ------------------------------------------------------------- chunk_text

  /** A half-open character range `[lo, hi)` of the text. */
  datatype Span = Span(lo: nat, hi: nat)

  function ClampZero(i: int): nat { if i < 0 then 0 else i }

  /** `min(n, lo + size)`: where a window starting at `lo` ends. */
  function End(n: nat, size: int, lo: nat): (hi: nat)
    requires 0 < size
    ensures lo < n ==> lo < hi <= n && hi - lo <= size
  {
    if lo + size < n then lo + size else n
  }

  /** The windows `chunk_text` cuts, scanning from `start`: each ends at
      `min(n, start + size)`, the next starts `overlap` characters before that
      end (never before 0), and the scan stops once a window reaches `n`. */
  function Spans(n: nat, size: int, overlap: int, start: nat): (r: seq<Span>)
    requires 0 < size && overlap < size
    ensures start >= n <==> r == []
    ensures r != [] ==> r[0].lo == start
    ensures forall k :: 0 <= k < |r| ==> r[k].lo < n && r[k].hi == End(n, size, r[k].lo)
    decreases n - start
  {
    if start >= n then []
    else
      var hi := End(n, size, start);
      if hi == n then [Span(start, hi)]
      else
        var rest := Spans(n, size, overlap, ClampZero(hi - overlap));
        assert forall k :: 0 < k < |rest| + 1 ==> ([Span(start, hi)] + rest)[k] == rest[k - 1];
        [Span(start, hi)] + rest
  }

  /** Every window but the last is full and ends before `n`, and the next
      one starts `overlap` characters before its end. */
  lemma {:induction false} SpansLinked(n: nat, size: int, overlap: int, start: nat, k: nat)
    requires 0 < size && overlap < size
    requires k + 1 < |Spans(n, size, overlap, start)|
    ensures Spans(n, size, overlap, start)[k].hi == Spans(n, size, overlap, start)[k].lo + size < n
    ensures Spans(n, size, overlap, start)[k + 1].lo == ClampZero(Spans(n, size, overlap, start)[k].hi - overlap)
    decreases k
  {
    var r := Spans(n, size, overlap, start);
    var hi := End(n, size, start);
    var rest := Spans(n, size, overlap, ClampZero(hi - overlap));
    SpansShift(n, size, overlap, start, k);
    assert r[k + 1] == rest[k];
    if k == 0 {
      assert r[0] == Span(start, hi) && hi == start + size;
      assert rest[0].lo == ClampZero(hi - overlap);
    } else {
      SpansLinked(n, size, overlap, ClampZero(hi - overlap), k - 1);
      SpansShift(n, size, overlap, start, k - 1);
      assert r[k] == rest[k - 1];
    }
  }

  /** Past its first window, a scan continues as the scan from the next
      start. */
  lemma SpansShift(n: nat, size: int, overlap: int, start: nat, k: nat)
    requires 0 < size && overlap < size
    requires k + 1 < |Spans(n, size, overlap, start)|
    ensures var hi := End(n, size, start);
      var rest := Spans(n, size, overlap, ClampZero(hi - overlap));
      hi < n && k < |rest| && Spans(n, size, overlap, start)[k + 1] == rest[k]
  {
    var hi := End(n, size, start);
    var rest := Spans(n, size, overlap, ClampZero(hi - overlap));
    SpansStep(n, size, overlap, start);
    AppendIndex([Span(start, hi)], rest, k);
  }

  /** A scan with more than one window is its first window followed by the
      scan from the next start. */
  lemma SpansStep(n: nat, size: int, overlap: int, start: nat)
    requires 0 < size && overlap < size
    requires |Spans(n, size, overlap, start)| > 1
    ensures var hi := End(n, size, start);
      hi < n && Spans(n, size, overlap, start) == [Span(start, hi)] + Spans(n, size, overlap, ClampZero(hi - overlap))
  {
  }

  /** With a non-negative overlap the last window ends at `n`. */
  lemma {:induction false} SpansReachEnd(n: nat, size: int, overlap: int, start: nat)
    requires 0 < size && 0 <= overlap < size && start < n
    ensures var r := Spans(n, size, overlap, start); r[|r| - 1].hi == n
    decreases n - start
  {
    var r := Spans(n, size, overlap, start);
    var hi := if start + size < n then start + size else n;
    if hi < n {
      var next := ClampZero(hi - overlap);
      var rest := Spans(n, size, overlap, next);
      SpansReachEnd(n, size, overlap, next);
      assert r == [Span(start, hi)] + rest;
      assert r[|r| - 1] == rest[|rest| - 1];
    }
  }

  predicate Within(text: string, ss: seq<Span>)
  {
    forall k :: 0 <= k < |ss| ==> ss[k].lo <= ss[k].hi <= |text|
  }

  /** The text cut at the given spans. */
  function Slices(text: string, ss: seq<Span>): (r: seq<string>)
    requires Within(text, ss)
    ensures |r| == |ss|
    ensures forall k :: 0 <= k < |ss| ==> r[k] == text[ss[k].lo..ss[k].hi]
  {
    seq(|ss|, k requires 0 <= k < |ss| => text[ss[k].lo..ss[k].hi])
  }

  /** The chunks the scan cuts from `start` on. */
  function Cut(text: string, size: int, overlap: int, start: nat): seq<string>
    requires 0 < size && overlap < size
  {
    Slices(text, Spans(|text|, size, overlap, start))
  }

  /** What `chunk_text(text, size, overlap)` returns. */
  function Chunks(text: string, size: int, overlap: int): seq<string>
    requires 0 < size && overlap < size
  {
    Cut(text, size, overlap, 0)
  }

  /** `chunk_text`. The loop only makes progress when `overlap < size`, and a
      non-positive size would slice with Python's negative indices. */
  method ChunkText(text: string, size: int, overlap: int) returns (chunks: seq<string>)
    requires 0 < size && overlap < size
    ensures chunks == Chunks(text, size, overlap)
    ensures text == [] ==> chunks == []
  {
    chunks := [];
    if text == [] {
      return;
    }
    ghost var whole := Chunks(text, size, overlap);
    var start := 0;
    while start < |text|
      invariant 0 <= start
      invariant whole == chunks + Cut(text, size, overlap, start)
      decreases |text| - start
    {
      var end := if start + size < |text| then start + size else |text|;
      ghost var chunks0, start0 := chunks, start;
      chunks := chunks + [text[start..end]];
      start := end - overlap;
      if start < 0 {
        start := 0;
      }
      ChunkStep(text, size, overlap, start0, chunks0, whole, chunks, start);
      if end == |text| {
        return;
      }
    }
    assert Cut(text, size, overlap, start) == [];
  }

  /** One iteration of the `chunk_text` loop. */
  lemma ChunkStep(text: string, size: int, overlap: int, start: nat, chunks: seq<string>,
                  whole: seq<string>, chunks': seq<string>, start': nat)
    requires 0 < size && overlap < size && start < |text|
    requires whole == chunks + Cut(text, size, overlap, start)
    requires var hi := if start + size < |text| then start + size else |text|;
      chunks' == chunks + [text[start..hi]] && start' == ClampZero(hi - overlap)
    ensures var hi := if start + size < |text| then start + size else |text|;
      && (hi == |text| ==> whole == chunks')
      && (hi < |text| ==> whole == chunks' + Cut(text, size, overlap, start'))
  {
    var hi := if start + size < |text| then start + size else |text|;
    if hi == |text| {
      assert Slices(text, Spans(|text|, size, overlap, start)) == [text[start..hi]] by {
        assert Spans(|text|, size, overlap, start) == [Span(start, hi)];
      }
    } else {
      var rest := Spans(|text|, size, overlap, start');
      var tail := Slices(text, rest);
      assert Slices(text, Spans(|text|, size, overlap, start)) == [text[start..hi]] + tail by {
        assert Spans(|text|, size, overlap, start) == [Span(start, hi)] + rest;
        SlicesCons(text, Span(start, hi), rest);
      }
      ConcatAssoc(chunks, [text[start..hi]], tail);
    }
  }

  lemma SlicesCons(text: string, s: Span, ss: seq<Span>)
    requires s.lo <= s.hi <= |text| && Within(text, ss)
    ensures Within(text, [s] + ss)
    ensures Slices(text, [s] + ss) == [text[s.lo..s.hi]] + Slices(text, ss)
  {
    assert forall k :: 0 < k < |ss| + 1 ==> ([s] + ss)[k] == ss[k - 1];
  }

  /** Every chunk is a non-empty slice of at most `size` characters. */
  lemma ChunksBounded(text: string, size: int, overlap: int)
    requires 0 < size && overlap < size
    ensures var cs := Chunks(text, size, overlap);
      forall k :: 0 <= k < |cs| ==> 0 < |cs[k]| <= size
  {
  }

  /** With a non-negative overlap the chunks cover the text: the first is a
      prefix, the last a suffix. */
  lemma ChunksCoverText(text: string, size: int, overlap: int)
    requires 0 < size && 0 <= overlap < size && text != []
    ensures var cs := Chunks(text, size, overlap);
      cs != [] && text[..|cs[0]|] == cs[0] && text[|text| - |cs[|cs| - 1]|..] == cs[|cs| - 1]
  {
    var ss := Spans(|text|, size, overlap, 0);
    SpansReachEnd(|text|, size, overlap, 0);
    assert ss != [] && ss[0].lo == 0 && ss[|ss| - 1].hi == |text|;
  }

  /** Consecutive chunks share exactly `overlap` characters: the last
      `overlap` characters of one are the first of the next. */
  lemma ChunksOverlap(text: string, size: int, overlap: int, k: nat)
    requires 0 < size && 0 <= overlap < size
    requires k + 1 < |Chunks(text, size, overlap)|
    ensures var cs := Chunks(text, size, overlap);
      |cs[k]| == size && overlap <= |cs[k + 1]| && cs[k][size - overlap..] == cs[k + 1][..overlap]
  {
    var ss := Spans(|text|, size, overlap, 0);
    SpansLinked(|text|, size, overlap, 0, k);
    var a, b := ss[k], ss[k + 1];
    assert a.hi == a.lo + size < |text| && b.lo == a.hi - overlap && a.hi < b.hi;
    assert text[a.lo..a.hi][size - overlap..] == text[b.lo..a.hi];
    assert text[b.lo..b.hi][..overlap] == text[b.lo..a.hi];
  }

  // ----------------------------------------------------------- build_records

  /** A PubMed article as the connector returns it. */
  type Article = map<string, Value>

  datatype Record = Record(id: string, text: string, source: string)

  function Abs(i: int): nat { if i < 0 then -i else i }

  /** `a.get("title") or ""` */
  function TitleOf(a: Article): Value { Or(Get(a, "title", Null), Str("")) }

  /** `str(a.get("pmid")) or f"pmidless-{abs(hash(title))}"`, with Python's
      `hash` given as `hash`. */
  function BaseId(a: Article, hash: Value -> int): string
  {
    var pmid := Show(Get(a, "pmid", Null));
    if pmid != "" then pmid else "pmidless-" + NatToString(Abs(hash(TitleOf(a))))
  }

  /** `(title + "\n\n" + abstract).strip()`; None where the concatenation
      raises because a field is neither falsy nor a string. */
  function FullText(a: Article): Option<string>
  {
    var title := TitleOf(a);
    var abstr := Or(Get(a, "abstract", Null), Str(""));
    if title.Str? && abstr.Str? then Some(Strip(title.s + "\n\n" + abstr.s)) else None
  }

  /** The records of one article's chunks, numbered from 0. */
  function Numbered(base: string, chunks: seq<string>): (r: seq<Record>)
    ensures |r| == |chunks|
  {
    seq(|chunks|, i requires 0 <= i < |chunks| =>
      Record(base + "::c" + NatToString(i), chunks[i], "pubmed_articles"))
  }

  function ArticleRecords(a: Article, hash: Value -> int): Option<seq<Record>>
  {
    match FullText(a)
    case None => None
    case Some(t) => Some(Numbered(BaseId(a, hash), Chunks(t, 1000, 100)))
  }

  /** What `build_records(articles)` returns; None where it raises. */
  function AllRecords(articles: seq<Article>, hash: Value -> int): Option<seq<Record>>
  {
    if articles == [] then Some([])
    else
      match AllRecords(articles[..|articles| - 1], hash)
      case None => None
      case Some(before) =>
        match ArticleRecords(articles[|articles| - 1], hash)
        case None => None
        case Some(mine) => Some(before + mine)
  }

  /** `build_records` */
  method BuildRecords(articles: seq<Article>, hash: Value -> int) returns (r: Option<seq<Record>>)
    ensures r == AllRecords(articles, hash)
  {
    var records: seq<Record> := [];
    var n := 0;
    while n < |articles|
      invariant 0 <= n <= |articles|
      invariant AllRecords(articles[..n], hash) == Some(records)
    {
      var a := articles[n];
      var full := FullText(a);
      if full.None? {
        AllRecordsStep(articles, hash, n, records);
        AllRecordsNoneStays(articles, hash, n + 1);
        return None;
      }
      var chunks := ChunkText(full.value, 1000, 100);
      ghost var before := records;
      records := AppendNumbered(records, BaseId(a, hash), chunks);
      AllRecordsStep(articles, hash, n, before);
      n := n + 1;
    }
    assert articles[..|articles|] == articles;
    r := Some(records);
  }

  /** The inner loop of `build_records`: one record per chunk, in order. */
  method AppendNumbered(records: seq<Record>, base: string, chunks: seq<string>) returns (r: seq<Record>)
    ensures r == records + Numbered(base, chunks)
  {
    r := records;
    var i := 0;
    while i < |chunks|
      invariant 0 <= i <= |chunks|
      invariant r == records + Numbered(base, chunks)[..i]
    {
      r := r + [Record(base + "::c" + NatToString(i), chunks[i], "pubmed_articles")];
      i := i + 1;
    }
    assert Numbered(base, chunks)[..|chunks|] == Numbered(base, chunks);
  }

  /** One article of the outer loop of `build_records`. */
  lemma AllRecordsStep(articles: seq<Article>, hash: Value -> int, n: nat, records: seq<Record>)
    requires n < |articles| && AllRecords(articles[..n], hash) == Some(records)
    ensures match ArticleRecords(articles[n], hash)
      case None => AllRecords(articles[..n + 1], hash).None?
      case Some(mine) => AllRecords(articles[..n + 1], hash) == Some(records + mine)
  {
    assert articles[..n + 1][..n] == articles[..n];
  }

  /** Once an article raises, the whole call raises. */
  lemma {:induction false} AllRecordsNoneStays(articles: seq<Article>, hash: Value -> int, n: nat)
    requires n <= |articles| && AllRecords(articles[..n], hash).None?
    ensures AllRecords(articles, hash).None?
    decreases |articles| - n
  {
    if n < |articles| {
      assert articles[..n + 1][..n] == articles[..n];
      AllRecordsNoneStays(articles, hash, n + 1);
    } else {
      assert articles[..n] == articles;
    }
  }

  /** An article without a `pmid` key gets the base id "None": `str(None)` is
      truthy, so the `pmidless-` fallback does not apply to it. */
  lemma MissingPmidIsNone(a: Article, hash: Value -> int)
    requires "pmid" !in a
    ensures BaseId(a, hash) == "None"
  {
  }

  /** The `pmidless-` fallback is taken only for a pmid stored as "". */
  lemma FallbackOnlyForEmptyPmid(a: Article, hash: Value -> int)
    ensures BaseId(a, hash) != Show(Get(a, "pmid", Null)) ==> "pmid" in a && a["pmid"] == Str("")
  {
    var v := Get(a, "pmid", Null);
    if v.Int? {
      assert |IntToString(v.i)| >= 1;
    }
  }

  /** Record `k` of an article is its chunk `k`, with id `<base>::c<k>`. */
  lemma ArticleRecordShape(a: Article, hash: Value -> int, k: nat)
    requires FullText(a).Some?
    requires k < |Chunks(FullText(a).value, 1000, 100)|
    ensures var rs := ArticleRecords(a, hash).value;
      && |rs| == |Chunks(FullText(a).value, 1000, 100)|
      && rs[k].id == BaseId(a, hash) + "::c" + NatToString(k)
      && rs[k].text == Chunks(FullText(a).value, 1000, 100)[k]
      && rs[k].source == "pubmed_articles"
  {
  }

  // -------------------------------------------------------------------- main

  /** The validated command-line arguments; an unset option is "". */
  datatype Args = Args(project: string, indexName: string, gcsBucket: string, gcsPrefix: string,
                       skipUpsert: bool)

  /** The guards that make `main` return 2. */
  predicate BadArgs(args: Args)
  {
    || args.project == ""
    || args.indexName == ""
    || args.gcsBucket == ""
    || Contains(args.indexName, "YOUR_PROJECT") || Contains(args.indexName, "INDEX_ID")
    || Upper(args.gcsBucket) == "YOUR_BUCKET" || Contains(args.gcsBucket, "YOUR_BUCKET")
  }

  datatype Restrict = Restrict(namespace: string, allowTokens: seq<string>)
  datatype Datapoint = Datapoint(id: string, embedding: seq<real>, restricts: seq<Restrict>)

  function DatapointOf(r: Record, v: seq<real>): Datapoint
  {
    Datapoint(r.id, v, [Restrict("source", [if r.source != "" then r.source else "pubmed_articles"])])
  }

  /** The datapoint loop over `zip(records, vectors)`. */
  method BuildDatapoints(records: seq<Record>, vectors: seq<seq<real>>) returns (dps: seq<Datapoint>)
    ensures |dps| == if |records| <= |vectors| then |records| else |vectors|
    ensures forall i :: 0 <= i < |dps| ==>
      dps[i].id == records[i].id && dps[i].embedding == vectors[i]
      && |dps[i].restricts| == 1 && dps[i].restricts[0].namespace == "source"
      && dps[i].restricts[0].allowTokens == [if records[i].source != "" then records[i].source else "pubmed_articles"]
  {
    dps := [];
    var i := 0;
    while i < |records| && i < |vectors|
      invariant 0 <= i <= |records| && i <= |vectors| && |dps| == i
      invariant forall j :: 0 <= j < i ==> dps[j] == DatapointOf(records[j], vectors[j])
    {
      dps := dps + [DatapointOf(records[i], vectors[i])];
      i := i + 1;
    }
  }

  /** `prefix.rstrip('/')` */
  function RStripSlash(s: string): (r: string)
    ensures r == [] || r[|r| - 1] != '/'
    ensures r <= s && forall k :: |r| <= k < |s| ==> s[k] == '/'
  {
    if s != [] && s[|s| - 1] == '/' then RStripSlash(s[..|s| - 1]) else s
  }

  /** The object name the datapoints file is uploaded under. */
  function DatapointsObject(prefix: string): string
  {
    RStripSlash(prefix) + "/datapoints.jsonl"
  }

  /** The outcome of `main`: an exit code, or an exception escaping it. */
  datatype Exit = Code(code: int) | Raised

  /** `main`, with the fetched articles, the hash function and the embedding
      call given; the uploads and the index upsert are left out. */
  method Run(args: Args, articles: seq<Article>, hash: Value -> int, embed: seq<Record> -> seq<seq<real>>)
    returns (exit: Exit, datapoints: seq<Datapoint>)
    ensures exit == Code(2) <==> BadArgs(args)
    ensures exit == Code(3) <==> !BadArgs(args) && (articles == [] || AllRecords(articles, hash) == Some([]))
    ensures exit == Raised <==> !BadArgs(args) && articles != [] && AllRecords(articles, hash).None?
    ensures exit == Code(0) <==>
      !BadArgs(args) && articles != [] && AllRecords(articles, hash).Some? && AllRecords(articles, hash).value != []
    ensures exit == Code(0) ==> var rs := AllRecords(articles, hash).value;
      |datapoints| == (if |rs| <= |embed(rs)| then |rs| else |embed(rs)|)
      && forall i :: 0 <= i < |datapoints| ==> datapoints[i] == DatapointOf(rs[i], embed(rs)[i])
    ensures exit.Code? && exit.code != 0 ==> datapoints == []
  {
    datapoints := [];
    if BadArgs(args) {
      return Code(2), [];
    }
    if articles == [] {
      return Code(3), [];
    }
    var records := BuildRecords(articles, hash);
    if records.None? {
      return Raised, [];
    }
    if records.value == [] {
      return Code(3), [];
    }
    var vectors := embed(records.value);
    datapoints := BuildDatapoints(records.value, vectors);
    assert forall i :: 0 <= i < |datapoints| ==> datapoints[i] == DatapointOf(records.value[i], vectors[i]);
    exit := Code(0);
  }
}
