/**
 * The HTTP layer's own decisions: the CORS origins read from the
 * environment, the limits applied to the files of a multipart search, and
 * the 404 of the source lookup. The RAG call itself, text extraction from a
 * file, the persistence of uploads and the corpus loader's I/O are inputs or
 * left out; the search endpoint is modelled up to what it hands to `run_rag`.
 */
module ApiServer {
  import opened Common
  import CorpusLoader

  // ------------------------------------------------------------------- CORS

  const Localhost3000 := "http://localhost:3000"
  const Localhost3001 := "http://localhost:3001"

  /** A comma-separated piece that survives `p.strip()`. */
  predicate NonBlankPiece(p: string)
  {
    Strip(p) != ""
  }

  /** The stripped non-blank pieces of `ALLOWED_ORIGINS`. */
  function OriginParts(raw: string): seq<string>
  {
    FilterMap(SplitOn(raw, ','), NonBlankPiece, Strip)
  }

  /** `_parse_allowed_origins` with `raw` the value of `ALLOWED_ORIGINS` ("" when
      unset): the parts, or the two localhost origins when there are none. */
  function AllowedOrigins(raw: string): seq<string>
  {
    var parts := OriginParts(raw);
    if parts == [] then [Localhost3000, Localhost3001] else parts
  }

  /** Every origin taken from the variable is the stripped text of one of its
      comma-separated pieces: non-empty, without a comma, without whitespace
      at either end. */
  lemma OriginPartShape(raw: string, k: nat) returns (j: nat)
    requires k < |OriginParts(raw)|
    ensures j < |SplitOn(raw, ',')| && OriginParts(raw)[k] == Strip(SplitOn(raw, ',')[j])
    ensures var o := OriginParts(raw)[k];
      o != "" && ',' !in o && Strip(o) == o
  {
    j := FilterMapOrigin(SplitOn(raw, ','), NonBlankPiece, Strip, k);
    SplitOnPieces(raw, ',');
    StrippedPiece(SplitOn(raw, ',')[j]);
  }

  lemma StrippedPiece(piece: string)
    requires ',' !in piece
    ensures ',' !in Strip(piece) && Strip(Strip(piece)) == Strip(piece)
  {
    var lo, hi := StripIsSlice(piece);
    assert forall c :: c in piece[lo..hi] ==> c in piece;
    StripNoEdges(piece);
    StripOfStripped(Strip(piece));
  }

  /** Every non-blank piece of the variable is an allowed origin, once stripped. */
  lemma {:induction false} OriginPartKept(pieces: seq<string>, j: nat)
    requires j < |pieces| && NonBlankPiece(pieces[j])
    ensures Strip(pieces[j]) in FilterMap(pieces, NonBlankPiece, Strip)
  {
    var init := pieces[..|pieces| - 1];
    if j < |pieces| - 1 {
      assert pieces[j] == init[j];
      OriginPartKept(init, j);
    }
  }

  /** The localhost defaults apply exactly when no piece of the variable is
      non-blank. */
  lemma OriginsDefault(raw: string)
    ensures OriginParts(raw) == [] <==> forall p :: p in SplitOn(raw, ',') ==> IsBlank(p)
  {
    NoPartsIffBlank(SplitOn(raw, ','));
  }

  lemma NoPartsIffBlank(pieces: seq<string>)
    ensures FilterMap(pieces, NonBlankPiece, Strip) == [] <==> forall p :: p in pieces ==> IsBlank(p)
  {
    if FilterMap(pieces, NonBlankPiece, Strip) != [] {
      var j := FilterMapOrigin(pieces, NonBlankPiece, Strip, 0);
      assert NonBlankPiece(pieces[j]);
      StripEmptyIffBlank(pieces[j]);
    } else {
      forall p | p in pieces
        ensures IsBlank(p)
      {
        StripEmptyIffBlank(p);
        if !IsBlank(p) {
          var j :| 0 <= j < |pieces| && pieces[j] == p;
          OriginPartKept(pieces, j);
        }
      }
    }
  }

  /** The CORS middleware's settings. */
  datatype Cors = Cors(origins: seq<string>, credentials: bool)

  const DevFlagValues: set<string> := {"1", "true", "yes"}

  /** With `DEV_ALLOW_ALL_CORS` (default "false") one of `1`, `true`, `yes` in
      any letter case, every origin is allowed with credentials; otherwise the
      parsed origins are allowed without them. */
  function CorsPolicy(allowedRaw: string, devFlag: Option<string>): Cors
  {
    var flag := if devFlag.Some? then devFlag.value else "false";
    if Lower(flag) in DevFlagValues then Cors(["*"], true) else Cors(AllowedOrigins(allowedRaw), false)
  }

  /** Credentials are on exactly when the development flag is set to one of
      the three values, and then the wildcard is the only origin; an unset
      flag never allows them. */
  lemma CorsCases(allowedRaw: string, devFlag: Option<string>)
    ensures var c := CorsPolicy(allowedRaw, devFlag);
      && (c.credentials <==> devFlag.Some? && Lower(devFlag.value) in DevFlagValues)
      && (c.credentials ==> c.origins == ["*"])
      && (!c.credentials ==> c.origins == AllowedOrigins(allowedRaw))
      && (devFlag.None? ==> !c.credentials)
  {
    if devFlag.None? {
      var f := Lower("false");
      assert f[0] == 'f';
      assert f !in DevFlagValues by {
        assert |f| == 5;
      }
    }
  }

  // ---------------------------------------------------------------- uploads

  const DefaultMaxFiles := 5
  const DefaultMaxTotalMb: real := 10.0
  const AllowedExts: set<string> := {".pdf", ".docx", ".txt"}

  /** Some character of `s` is not a dot. */
  predicate HasNonDot(s: string)
  {
    exists k :: 0 <= k < |s| && s[k] != '.'
  }

  /** `os.path.splitext(p)[1]`: the text from the last dot of the last path
      component, unless only dots precede that dot in the component. */
  function Ext(p: string): string
  {
    var start := match LastIndex(p, '/') case Some(i) => i + 1 case None => 0;
    var dot := LastIndex(p, '.');
    if dot.Some? && start <= dot.value && HasNonDot(p[start..dot.value]) then p[dot.value..] else ""
  }

  /** An extension is empty or a dot followed by neither a dot nor a slash,
      and it ends the path. */
  lemma ExtShape(p: string)
    ensures var e := Ext(p);
      e == "" || (e[0] == '.' && |e| <= |p| && e == p[|p| - |e|..] && '.' !in e[1..] && '/' !in e)
  {
    var start := match LastIndex(p, '/') case Some(i) => i + 1 case None => 0;
    var dot := LastIndex(p, '.');
    if dot.Some? && start <= dot.value && HasNonDot(p[start..dot.value]) {
      var e := p[dot.value..];
      assert e[1..] == p[dot.value + 1..];
    }
  }

  /** A hidden file's name is not an extension, and the last dot wins. */
  lemma ExtExamples()
    ensures Ext(".txt") == ""
    ensures Ext("a.b.pdf") == ".pdf"
  {
    HiddenName();
    LastDotWins();
  }

  lemma HiddenName()
    ensures Ext(".txt") == ""
  {
    assert LastIndex(".txt", '/') == None;
    assert LastIndex(".txt", '.') == Some(0);
  }

  lemma LastDotWins()
    ensures Ext("a.b.pdf") == ".pdf"
  {
    var p := "a.b.pdf";
    assert LastIndex(p, '/') == None;
    assert LastIndex(p, '.') == Some(3);
    assert p[0] != '.';
  }

  /** A multipart file: its filename, `None` when absent, and its bytes. */
  datatype UploadFile = UploadFile(filename: Option<string>, content: seq<bv8>)

  /** `f.filename or ""` */
  function NameOf(f: UploadFile): string
  {
    if f.filename.Some? then f.filename.value else ""
  }

  /** The extension test; a file that fails it is skipped by the per-file
      handler, which swallows the 415. */
  predicate Supported(f: UploadFile)
  {
    Lower(Ext(NameOf(f))) in AllowedExts
  }

  /** The variables of the upload loop. */
  datatype Uploads = Uploads(total: nat, rawPairs: seq<(string, seq<bv8>)>, texts: seq<string>)

  /** One file of the loop, with `limit` the byte limit and `extract`
      standing for `extract_text_from_file` (`None` when it raises or returns
      nothing). The bytes are kept and counted before the size check, and a
      file past the limit contributes no text, its 413 being swallowed. */
  function UploadStep(u: Uploads, f: UploadFile, limit: real,
                      extract: (Option<string>, seq<bv8>) -> Option<string>): Uploads
  {
    if !Supported(f) then u
    else
      var total := u.total + |f.content|;
      var raw := u.rawPairs + [(NameOf(f), f.content)];
      if total as real > limit then Uploads(total, raw, u.texts)
      else
        var t := extract(f.filename, f.content);
        if t.Some? && Strip(t.value) != "" then Uploads(total, raw, u.texts + [Strip(t.value)])
        else Uploads(total, raw, u.texts)
  }

  /** The loop over `files`. */
  function Collected(files: seq<UploadFile>, limit: real,
                     extract: (Option<string>, seq<bv8>) -> Option<string>): Uploads
  {
    if files == [] then Uploads(0, [], [])
    else UploadStep(Collected(files[..|files| - 1], limit, extract), files[|files| - 1], limit, extract)
  }

  /** The upload loop of `api_rag_search_upload`. */
  method CollectUploads(files: seq<UploadFile>, limit: real,
                        extract: (Option<string>, seq<bv8>) -> Option<string>)
    returns (totalBytes: nat, rawPairs: seq<(string, seq<bv8>)>, extraTexts: seq<string>)
    ensures Uploads(totalBytes, rawPairs, extraTexts) == Collected(files, limit, extract)
  {
    totalBytes, rawPairs, extraTexts := 0, [], [];
    var i := 0;
    while i < |files|
      invariant 0 <= i <= |files|
      invariant Uploads(totalBytes, rawPairs, extraTexts) == Collected(files[..i], limit, extract)
    {
      CollectedSnoc(files, i, limit, extract);
      totalBytes, rawPairs, extraTexts := AddFile(totalBytes, rawPairs, extraTexts, files[i], limit, extract);
      i := i + 1;
    }
    TakeAll(files);
  }

  /** The body of the upload loop for one file. */
  method AddFile(totalBytes: nat, rawPairs: seq<(string, seq<bv8>)>, extraTexts: seq<string>, f: UploadFile,
                 limit: real, extract: (Option<string>, seq<bv8>) -> Option<string>)
    returns (totalBytes': nat, rawPairs': seq<(string, seq<bv8>)>, extraTexts': seq<string>)
    ensures Uploads(totalBytes', rawPairs', extraTexts')
         == UploadStep(Uploads(totalBytes, rawPairs, extraTexts), f, limit, extract)
  {
    if !Supported(f) {
      return totalBytes, rawPairs, extraTexts;
    }
    totalBytes' := totalBytes + |f.content|;
    rawPairs' := rawPairs + [(NameOf(f), f.content)];
    extraTexts' := extraTexts;
    if totalBytes' as real > limit {
      return;
    }
    var text := extract(f.filename, f.content);
    if text.Some? {
      var stripped := Strip(text.value);
      if stripped != "" {
        extraTexts' := extraTexts + [stripped];
      }
    }
  }

  lemma CollectedSnoc(files: seq<UploadFile>, i: nat, limit: real,
                      extract: (Option<string>, seq<bv8>) -> Option<string>)
    requires i < |files|
    ensures Collected(files[..i + 1], limit, extract) == UploadStep(Collected(files[..i], limit, extract), files[i], limit, extract)
  {
    assert files[..i + 1][..i] == files[..i];
  }

  /** One file adds its size to the count when it is supported, and adds a
      text only when it is supported, within the limit, and yields a
      non-blank text. */
  lemma StepTexts(u: Uploads, f: UploadFile, limit: real,
                  extract: (Option<string>, seq<bv8>) -> Option<string>)
    ensures var v := UploadStep(u, f, limit, extract);
      var t := extract(f.filename, f.content);
      && v.total == (if Supported(f) then u.total + |f.content| else u.total)
      && (v.texts == u.texts ||
          (Supported(f) && v.total as real <= limit && t.Some? && Strip(t.value) != ""
           && v.texts == u.texts + [Strip(t.value)]))
  {
  }

  /** The (name, bytes) pair kept for a file. */
  function Pair(f: UploadFile): (string, seq<bv8>)
  {
    (NameOf(f), f.content)
  }

  /** The sizes of the kept files, added up. */
  function Bytes(pairs: seq<(string, seq<bv8>)>): nat
  {
    if pairs == [] then 0 else Bytes(pairs[..|pairs| - 1]) + |pairs[|pairs| - 1].1|
  }

  /** Exactly the files with a supported extension are kept, in order, size
      limit or not, and the byte count is their total size. */
  lemma {:induction false} KeptFiles(files: seq<UploadFile>, limit: real,
                                     extract: (Option<string>, seq<bv8>) -> Option<string>)
    ensures Collected(files, limit, extract).rawPairs == FilterMap(files, Supported, Pair)
    ensures Collected(files, limit, extract).total == Bytes(Collected(files, limit, extract).rawPairs)
  {
    if files != [] {
      var init := files[..|files| - 1];
      KeptFiles(init, limit, extract);
      var u := Collected(init, limit, extract);
      var f := files[|files| - 1];
      if Supported(f) {
        assert (u.rawPairs + [Pair(f)])[..|u.rawPairs|] == u.rawPairs;
      }
    }
  }

  /** Every text handed on comes from a supported file whose extracted text
      it is, once stripped. */
  lemma {:induction false} TextOrigin(files: seq<UploadFile>, limit: real,
                                      extract: (Option<string>, seq<bv8>) -> Option<string>, k: nat)
    returns (j: nat)
    requires k < |Collected(files, limit, extract).texts|
    ensures j < |files| && Supported(files[j])
    ensures var t := extract(files[j].filename, files[j].content);
      t.Some? && Strip(t.value) != "" && Collected(files, limit, extract).texts[k] == Strip(t.value)
  {
    var init := files[..|files| - 1];
    var u := Collected(init, limit, extract);
    StepTextAt(u, files[|files| - 1], limit, extract, k);
    if k < |u.texts| {
      j := TextOrigin(init, limit, extract, k);
      assert files[j] == init[j];
    } else {
      j := |files| - 1;
    }
  }

  /** Text `k` after one file is the earlier text `k`, or that file's own
      stripped text. */
  lemma StepTextAt(u: Uploads, f: UploadFile, limit: real,
                   extract: (Option<string>, seq<bv8>) -> Option<string>, k: nat)
    requires k < |UploadStep(u, f, limit, extract).texts|
    ensures k < |u.texts| ==> UploadStep(u, f, limit, extract).texts[k] == u.texts[k]
    ensures k >= |u.texts| ==>
      var t := extract(f.filename, f.content);
      && Supported(f) && t.Some? && Strip(t.value) != ""
      && UploadStep(u, f, limit, extract).texts[k] == Strip(t.value)
  {
    StepTexts(u, f, limit, extract);
  }

  /** A file adds a text only when it is supported and the bytes of the
      supported files up to and including it stay within the limit. */
  lemma TextNeedsRoom(files: seq<UploadFile>, limit: real,
                      extract: (Option<string>, seq<bv8>) -> Option<string>, i: nat)
    requires i < |files|
    requires Collected(files[..i + 1], limit, extract).texts != Collected(files[..i], limit, extract).texts
    ensures Supported(files[i])
    ensures Collected(files[..i + 1], limit, extract).total as real <= limit
  {
    CollectedSnoc(files, i, limit, extract);
    StepTexts(Collected(files[..i], limit, extract), files[i], limit, extract);
  }

  lemma StrippedIsFixed(t: string)
    ensures Strip(Strip(t)) == Strip(t)
  {
    StripNoEdges(t);
    StripOfStripped(Strip(t));
  }

  /** Every text handed on is non-blank and has no whitespace at either end. */
  lemma TextsStripped(files: seq<UploadFile>, limit: real,
                      extract: (Option<string>, seq<bv8>) -> Option<string>, k: nat)
    requires k < |Collected(files, limit, extract).texts|
    ensures var x := Collected(files, limit, extract).texts[k];
      x != "" && Strip(x) == x
  {
    var j := TextOrigin(files, limit, extract, k);
    StrippedIsFixed(extract(files[j].filename, files[j].content).value);
  }

  /** The byte count never goes down. */
  lemma {:induction false} TotalGrows(files: seq<UploadFile>, limit: real,
                                      extract: (Option<string>, seq<bv8>) -> Option<string>, i: nat)
    requires i <= |files|
    ensures Collected(files[..i], limit, extract).total <= Collected(files, limit, extract).total
  {
    if i < |files| {
      var init := files[..|files| - 1];
      assert init[..i] == files[..i];
      TotalGrows(init, limit, extract, i);
    } else {
      assert files[..i] == files;
    }
  }

  /** Once the byte count is past the limit, no later file contributes text,
      though its bytes are still kept. */
  lemma {:induction false} PastLimitSilent(files: seq<UploadFile>, limit: real,
                                           extract: (Option<string>, seq<bv8>) -> Option<string>, i: nat)
    requires i <= |files| && Collected(files[..i], limit, extract).total as real > limit
    ensures Collected(files, limit, extract).texts == Collected(files[..i], limit, extract).texts
  {
    if i < |files| {
      var init := files[..|files| - 1];
      assert init[..i] == files[..i];
      PastLimitSilent(init, limit, extract, i);
      TotalGrows(init, limit, extract, i);
    } else {
      assert files[..i] == files;
    }
  }

  /** What the upload endpoint does: fail with status 500, or call `run_rag`
      with these extra texts (`None` for none) after handing the raw pairs to
      the persistence hook. */
  datatype Reply = Failed(status: int) | Handed(extraTexts: Option<seq<string>>, rawPairs: seq<(string, seq<bv8>)>)

  /** `api_rag_search_upload` up to the `run_rag` call, with the limits
      `UPLOAD_MAX_FILES` and `UPLOAD_MAX_TOTAL_MB`. Too many files raise a
      413 inside the endpoint's own `try`, which turns it into a 500. */
  function SearchUpload(files: Option<seq<UploadFile>>, maxFiles: int, maxTotalMb: real,
                        extract: (Option<string>, seq<bv8>) -> Option<string>): Reply
  {
    if files.None? || files.value == [] then Handed(None, [])
    else if |files.value| > maxFiles then Failed(500)
    else
      var u := Collected(files.value, maxTotalMb * 1024.0 * 1024.0, extract);
      Handed(if u.texts == [] then None else Some(u.texts), u.rawPairs)
  }

  /** The endpoint's outcomes: no files hand nothing on; too many files are
      reported as a server error, never as 413; otherwise the kept files'
      bytes are handed on, and `None` stands for no text. */
  lemma SearchUploadCases(files: Option<seq<UploadFile>>, maxFiles: int, maxTotalMb: real,
                          extract: (Option<string>, seq<bv8>) -> Option<string>)
    ensures var r := SearchUpload(files, maxFiles, maxTotalMb, extract);
      && (r.Failed? <==> files.Some? && |files.value| > maxFiles && files.value != [])
      && (r.Failed? ==> r.status == 500)
      && (r.Handed? && files.Some? ==> r.rawPairs == FilterMap(files.value, Supported, Pair))
      && (r.Handed? ==> r.extraTexts != Some([]))
  {
    if files.Some? {
      KeptFiles(files.value, maxTotalMb * 1024.0 * 1024.0, extract);
    }
  }

  // ---------------------------------------------------------------- sources

  /** The reply of `GET /api/sources/{source_id}`. */
  datatype SourceReply = NotFound | Found(entry: CorpusLoader.CorpusEntry)

  /** `api_get_source`: a corpus entry is a dictionary with `text` and
      `metadata`, never empty, so only a missing id gives the 404. */
  function GetSource(corpus: CorpusLoader.Mapping, sourceId: string): SourceReply
  {
    if sourceId in corpus then Found(corpus[sourceId]) else NotFound
  }

  /** Over a corpus the loader built from its lines, the 404 is returned
      exactly for the ids of no object line; a found entry is the id's own. */
  lemma SourceFound(lines: seq<string>, parse: string -> CorpusLoader.Parsed, sourceId: string)
    requires CorpusLoader.Fill(map[], lines, parse).Some?
    ensures var corpus := CorpusLoader.Fill(map[], lines, parse).value;
      && (GetSource(corpus, sourceId).NotFound? <==> sourceId !in CorpusLoader.Ids(lines, parse))
      && (GetSource(corpus, sourceId).Found? ==> GetSource(corpus, sourceId).entry == corpus[sourceId])
  {
    CorpusLoader.FillKeys(map[], lines, parse);
  }
}
