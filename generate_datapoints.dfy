/**
 * The datapoint generator script (`generate_vs_datapoints.py`): read
 * `{id, text, source}` records from a JSONL file (or three built-in samples),
 * pair each with its embedding, write one Matching Engine datapoint per pair,
 * and optionally upload the file under a `gs://bucket/prefix/` folder.
 * The JSON decoder, the embedding call, the clock and the storage client are
 * inputs or left out; the exit code of `main` is modelled.
 */
module GenerateDatapoints {
  import opened Common

  // ---------------------------------------------------------------- input

  /** What `json.loads` returns for one line, as far as `load_input` looks at
      it: an object, a string, an array, or any other scalar. */
  datatype Json =
    | Object(fields: map<string, Value>)
    | JString(s: string)
    | JArray(items: seq<Value>)
    | JScalar

  /** Python's `key in obj` on a decoded line: a key test for an object, a
      substring test for a string, an element test for an array; on a number,
      a boolean or null it raises, which `load_input` treats as a miss. */
  predicate HasKey(j: Json, key: string)
  {
    match j
    case Object(f) => key in f
    case JString(s) => Contains(s, key)
    case JArray(items) => Str(key) in items
    case JScalar => false
  }

  /** The fallback records used when no input path is given. */
  function Sample(id: string, text: string, source: string): Json
  {
    Object(map["id" := Str(id), "text" := Str(text), "source" := Str(source)])
  }

  const Samples: seq<Json> := [
    Sample("sample-1", "Alzheimer's disease amyloid-beta aggregation and tau pathology.", "pubmed"),
    Sample("sample-2", "UniProt entry for APP protein with roles in synapse formation.", "uniprot"),
    Sample("sample-3", "Drug repurposing candidates targeting amyloid aggregation pathways.", "drugbank")
  ]

  /** Whether `load_input` keeps a line: non-blank once stripped, decodable,
      and answering both `"id" in obj` and `"text" in obj`. */
  predicate Accepted(line: string, parse: string -> Option<Json>)
  {
    var t := Strip(line);
    t != "" && parse(t).Some? && HasKey(parse(t).value, "id") && HasKey(parse(t).value, "text")
  }

  /** The records `load_input` reads from the lines of a file, in order. */
  function Loaded(lines: seq<string>, parse: string -> Option<Json>): seq<Json>
  {
    if lines == [] then []
    else
      var last := lines[|lines| - 1];
      Loaded(lines[..|lines| - 1], parse) + LineRecord(last, parse)
  }

  /** The record one line contributes: its decoding if accepted, else none. */
  function LineRecord(line: string, parse: string -> Option<Json>): seq<Json>
  {
    if Accepted(line, parse) then [parse(Strip(line)).value] else []
  }

  /** `load_input(path)`, with `lines` the lines of the file at `path` and
      `parse` the decoder (`None` where it raises). */
  method LoadInput(path: Option<string>, lines: seq<string>, parse: string -> Option<Json>)
    returns (items: seq<Json>)
    ensures items == if path.None? || path.value == "" then Samples else Loaded(lines, parse)
  {
    if path.None? || path.value == "" {
      return Samples;
    }
    items := [];
    var i := 0;
    while i < |lines|
      invariant 0 <= i <= |lines|
      invariant items == Loaded(lines[..i], parse)
    {
      assert lines[..i + 1][..i] == lines[..i];
      var line := Strip(lines[i]);
      i := i + 1;
      if line == "" {
        continue;
      }
      var obj := parse(line);
      if obj.None? {
        continue;
      }
      if HasKey(obj.value, "id") && HasKey(obj.value, "text") {
        items := items + [obj.value];
      }
    }
    assert lines[..i] == lines;
  }

  /** Every record read from the file is the decoding of one accepted line,
      and the records keep the order of their lines. */
  lemma {:induction false} LoadedOrigin(lines: seq<string>, parse: string -> Option<Json>, k: nat) returns (j: nat)
    requires k < |Loaded(lines, parse)|
    ensures j < |lines| && Accepted(lines[j], parse)
    ensures Loaded(lines, parse)[k] == parse(Strip(lines[j])).value
    ensures |Loaded(lines[..j], parse)| == k
  {
    var init := lines[..|lines| - 1];
    var last := lines[|lines| - 1];
    assert Loaded(lines, parse) == Loaded(init, parse) + LineRecord(last, parse);
    if k < |Loaded(init, parse)| {
      j := LoadedOrigin(init, parse, k);
      assert init[..j] == lines[..j];
      assert init[j] == lines[j];
    } else {
      j := |lines| - 1;
      assert LineRecord(last, parse) != [];
      assert lines[..j] == init;
    }
  }

  /** Every accepted line is read. */
  lemma {:induction false} LoadedKeeps(lines: seq<string>, parse: string -> Option<Json>, j: nat)
    requires j < |lines| && Accepted(lines[j], parse)
    ensures parse(Strip(lines[j])).value in Loaded(lines, parse)
  {
    var init := lines[..|lines| - 1];
    if j < |lines| - 1 {
      assert init[j] == lines[j];
      LoadedKeeps(init, parse, j);
    }
  }

  /** Every record `load_input` returns, samples included, passes the `id` and
      `text` membership tests. */
  lemma InputHasKeys(path: Option<string>, lines: seq<string>, parse: string -> Option<Json>, k: nat)
    requires k < |if path.None? || path.value == "" then Samples else Loaded(lines, parse)|
    ensures var r := (if path.None? || path.value == "" then Samples else Loaded(lines, parse))[k];
      HasKey(r, "id") && HasKey(r, "text")
  {
    if !(path.None? || path.value == "") {
      var j := LoadedOrigin(lines, parse, k);
    }
  }

  /** The membership test lets a JSON string through when both words occur
      in it: such a record is read although it is not an object. */
  lemma StringRecordAccepted(parse: string -> Option<Json>)
    requires parse("\"id text\"") == Some(JString("id text"))
    ensures Loaded(["\"id text\""], parse) == [JString("id text")]
  {
    StringLineAccepted(parse);
    LoadedSingle("\"id text\"", parse);
  }

  lemma LoadedSingle(line: string, parse: string -> Option<Json>)
    requires Accepted(line, parse)
    ensures Loaded([line], parse) == [parse(Strip(line)).value]
  {
    assert [line][..0] == [];
  }

  lemma StringLineAccepted(parse: string -> Option<Json>)
    requires parse("\"id text\"") == Some(JString("id text"))
    ensures Strip("\"id text\"") == "\"id text\"" && Accepted("\"id text\"", parse)
  {
    StripUnpadded("\"id text\"");
    IdTextHasKeys();
  }

  lemma StripUnpadded(s: string)
    requires s != [] && !IsSpace(s[0]) && !IsSpace(s[|s| - 1])
    ensures Strip(s) == s
  {
  }

  lemma IdTextHasKeys()
    ensures HasKey(JString("id text"), "id") && HasKey(JString("id text"), "text")
  {
    ContainsConcat("", "id", " text");
    ContainsConcat("id ", "text", "");
    assert "" + "id" + " text" == "id text";
    assert "id " + "text" + "" == "id text";
  }

  // ---------------------------------------------------------------- output

  /** The `restricts` entry: namespace `source`, one allowed token. */
  datatype Restrict = Restrict(namespace: string, allowTokens: seq<string>)

  /** One line of the datapoints file. */
  datatype Datapoint = Datapoint(id: Value, embedding: seq<real>, restricts: seq<Restrict>)

  /** The datapoint of one record and its vector: the `restricts` key is
      present only when the record's `source` is truthy. */
  function DatapointOf(rec: map<string, Value>, vec: seq<real>): Datapoint
    requires "id" in rec
  {
    var src := Get(rec, "source", Null);
    Datapoint(rec["id"], vec, if Truthy(src) then [Restrict("source", [Show(src)])] else [])
  }

  /** The datapoints of `zip(records, embeddings)`. */
  function Zipped(records: seq<map<string, Value>>, embeddings: seq<seq<real>>): seq<Datapoint>
    requires forall r :: r in records ==> "id" in r
    decreases |records|
  {
    if records == [] || embeddings == [] then []
    else [DatapointOf(records[0], embeddings[0])] + Zipped(records[1..], embeddings[1..])
  }

  /** `write_datapoints_jsonl`, returning the lines written. Every record
      reaching it was read with an `id` key. */
  method WriteDatapoints(records: seq<map<string, Value>>, embeddings: seq<seq<real>>)
    returns (out: seq<Datapoint>)
    requires forall r :: r in records ==> "id" in r
    ensures out == Zipped(records, embeddings)
  {
    out := [];
    var i := 0;
    while i < |records| && i < |embeddings|
      invariant 0 <= i <= |records| && i <= |embeddings|
      invariant out + Zipped(records[i..], embeddings[i..]) == Zipped(records, embeddings)
    {
      assert records[i..][1..] == records[i + 1..] && embeddings[i..][1..] == embeddings[i + 1..];
      assert records[i] in records;
      out := out + [DatapointOf(records[i], embeddings[i])];
      i := i + 1;
    }
  }

  /** There is one datapoint per zipped pair, the shorter list deciding; the
      k-th carries the k-th record's id and the k-th vector, and it is
      restricted to the record's source exactly when that source is truthy. */
  lemma {:induction false} ZippedAt(records: seq<map<string, Value>>, embeddings: seq<seq<real>>, k: nat)
    requires forall r :: r in records ==> "id" in r
    ensures |Zipped(records, embeddings)| == if |records| < |embeddings| then |records| else |embeddings|
    ensures k < |Zipped(records, embeddings)| ==>
      var p := Zipped(records, embeddings)[k];
      var src := Get(records[k], "source", Null);
      && p.id == records[k]["id"] && p.embedding == embeddings[k]
      && (p.restricts != [] <==> Truthy(src))
      && (Truthy(src) ==> p.restricts == [Restrict("source", [Show(src)])])
    decreases |records|
  {
    if records != [] && embeddings != [] {
      assert forall r :: r in records[1..] ==> r in records;
      ZippedAt(records[1..], embeddings[1..], if k == 0 then 0 else k - 1);
    }
  }

  // ---------------------------------------------------------------- upload

  const GsScheme := "gs://"

  /** The outcome of `upload_to_gcs`. */
  datatype Upload = NoLibrary | BadFolder | Uploaded(bucket: string, blob: string, uri: string)

  /** The folder with a trailing `/`. */
  function Normalised(folder: string): (r: string)
    ensures |r| > 0 && r[|r| - 1] == '/'
  {
    if |folder| > 0 && folder[|folder| - 1] == '/' then folder else folder + "/"
  }

  /** The file name of the upload: the base name of the local path, or a
      name stamped with `ts` (the `%Y%m%d-%H%M%S` clock reading) when the
      path ends in `/`. */
  function UploadName(localPath: string, ts: string): string
  {
    var name := Basename(localPath);
    if name != "" then name else "datapoints-" + ts + ".jsonl"
  }

  /** `prefix + filename if prefix else filename`: the test changes nothing,
      the object name is always the prefix followed by the file name. */
  function BlobName(prefix: string, filename: string): (r: string)
    ensures r == prefix + filename
  {
    if prefix != "" then prefix + filename else filename
  }

  /** Where a file lands under a normalised folder `n`: the bucket is the
      text after `gs://` up to the next `/`, the prefix the rest. */
  function Destination(n: string, filename: string): Upload
    requires |n| >= |GsScheme|
  {
    var rest := n[|GsScheme|..];
    var cut := IndexOf(rest, '/');
    var bucket := rest[..cut];
    var prefix := if cut < |rest| then rest[cut + 1..] else "";
    var blob := BlobName(prefix, filename);
    Uploaded(bucket, blob, GsScheme + bucket + "/" + blob)
  }

  /** `upload_to_gcs(local_path, gcs_folder)`, `hasGcs` telling whether the
      storage library imported. The upload itself is left out. */
  function UploadToGcs(localPath: string, gcsFolder: string, hasGcs: bool, ts: string): Upload
  {
    if !hasGcs then NoLibrary
    else if !StartsWith(gcsFolder, GsScheme) then BadFolder
    else Destination(Normalised(gcsFolder), UploadName(localPath, ts))
  }

  /** Without the library the upload fails first, and a folder not starting
      with `gs://` is rejected; any other folder is uploaded to. */
  lemma UploadOutcomes(localPath: string, gcsFolder: string, hasGcs: bool, ts: string)
    ensures var u := UploadToGcs(localPath, gcsFolder, hasGcs, ts);
      && (u == NoLibrary <==> !hasGcs)
      && (u == BadFolder <==> hasGcs && !StartsWith(gcsFolder, GsScheme))
      && (u.Uploaded? <==> hasGcs && StartsWith(gcsFolder, GsScheme))
  {
  }

  /** Cutting a normalised `gs://` folder at its first `/` after the scheme
      gives a bucket without `/` and a prefix that together give the folder
      back. */
  lemma FolderParts(n: string)
    requires StartsWith(n, GsScheme) && |n| > |GsScheme| && n[|n| - 1] == '/'
    ensures var rest := n[|GsScheme|..];
      var cut := IndexOf(rest, '/');
      && cut < |rest| && '/' !in rest[..cut]
      && GsScheme + rest[..cut] + "/" + rest[cut + 1..] == n
  {
    var rest := n[|GsScheme|..];
    assert rest[|rest| - 1] == '/';
    var cut := IndexOf(rest, '/');
    CutAround(rest, cut);
    assert n == GsScheme + rest by {
      AppendSlices(n[..|GsScheme|], rest);
      assert n == n[..|GsScheme|] + rest;
    }
  }

  /** A string is the part before a `/`, the `/` and the part after it;
      the first `/` has none before it. */
  lemma CutAround(rest: string, cut: nat)
    requires cut < |rest| && rest[cut] == '/'
    requires forall k :: 0 <= k < cut ==> rest[k] != '/'
    ensures '/' !in rest[..cut]
    ensures rest == rest[..cut] + "/" + rest[cut + 1..]
  {
    assert rest == rest[..cut] + [rest[cut]] + rest[cut + 1..];
  }

  /** Under a normalised folder other than the bare `gs://`, the bucket has
      no `/`, the object name is the prefix followed by the file name, the
      bucket and the prefix give the folder back, and the URI is the folder
      followed by the file name. */
  lemma DestinationPath(n: string, name: string)
    requires StartsWith(n, GsScheme) && |n| > |GsScheme| && n[|n| - 1] == '/'
    ensures var u := Destination(n, name);
      && '/' !in u.bucket
      && |name| <= |u.blob| && u.blob[|u.blob| - |name|..] == name
      && GsScheme + u.bucket + "/" + u.blob[..|u.blob| - |name|] == n
      && u.uri == n + name
  {
    FolderParts(n);
    var rest := n[|GsScheme|..];
    var cut := IndexOf(rest, '/');
    var bucket := rest[..cut];
    var prefix := rest[cut + 1..];
    var blob := prefix + name;
    assert Destination(n, name) == Uploaded(bucket, blob, GsScheme + bucket + "/" + blob);
    AppendSlices(prefix, name);
    ConcatAssoc(GsScheme + bucket + "/", prefix, name);
  }

  /** An upload to a folder other than the bare `gs://` lands in the
      folder's bucket, under its prefix, with the upload name, and the URI
      returned is the normalised folder followed by that name. */
  lemma UploadPath(localPath: string, gcsFolder: string, hasGcs: bool, ts: string)
    requires UploadToGcs(localPath, gcsFolder, hasGcs, ts).Uploaded? && gcsFolder != GsScheme
    ensures var u := UploadToGcs(localPath, gcsFolder, hasGcs, ts);
      var name := UploadName(localPath, ts);
      && '/' !in u.bucket
      && |name| <= |u.blob| && u.blob[|u.blob| - |name|..] == name
      && GsScheme + u.bucket + "/" + u.blob[..|u.blob| - |name|] == Normalised(gcsFolder)
      && u.uri == Normalised(gcsFolder) + name
  {
    var n := Normalised(gcsFolder);
    assert |n| > |GsScheme| by {
      if |n| == |gcsFolder| {
        assert gcsFolder[..|GsScheme|] == GsScheme;
      }
    }
    assert StartsWith(n, GsScheme) by {
      assert n[..|GsScheme|] == gcsFolder[..|GsScheme|];
    }
    DestinationPath(n, UploadName(localPath, ts));
  }

  /** The bare folder `gs://` names no bucket: the object goes under the
      empty bucket name and the URI has three slashes. */
  lemma BareSchemeFolder(localPath: string, ts: string)
    ensures var u := UploadToGcs(localPath, GsScheme, true, ts);
      u.Uploaded? && u.bucket == "" && u.blob == UploadName(localPath, ts)
      && u.uri == GsScheme + "/" + UploadName(localPath, ts)
  {
    var name := UploadName(localPath, ts);
    assert StartsWith(GsScheme, GsScheme) by {
      assert GsScheme[..|GsScheme|] == GsScheme;
    }
    assert Normalised(GsScheme) == GsScheme;
    BareDestination(name);
  }

  lemma BareDestination(name: string)
    ensures Destination(GsScheme, name) == Uploaded("", name, GsScheme + "/" + name)
  {
    var rest := GsScheme[|GsScheme|..];
    assert rest == "";
    assert IndexOf(rest, '/') == 0;
    assert BlobName("", name) == name;
    assert GsScheme + "" == GsScheme;
  }

  // ---------------------------------------------------------------- main

  /** How `main` ends: an exit code, or an exception it does not catch. */
  datatype Exit = Code(n: int) | Raised

  /** `main()` with the parsed arguments, the records `load_input` returned,
      whether the storage library imported and the clock reading. Embedding
      and writing raise on a record that is not an object (`r["text"]`,
      `rec.get`). */
  function MainExit(project: Option<string>, records: seq<Json>, gcsFolder: Option<string>,
                    hasGcs: bool, out: string, ts: string): Exit
  {
    if project.None? || project.value == "" then Code(2)
    else if records == [] then Code(3)
    else if exists k :: 0 <= k < |records| && !records[k].Object? then Raised
    else if gcsFolder.None? || gcsFolder.value == "" then Code(0)
    else if !hasGcs then Code(4)
    else if UploadToGcs(out, gcsFolder.value, hasGcs, ts).Uploaded? then Code(0)
    else Raised
  }

  /** The exit codes: 2 exactly without a project, 3 exactly with a project
      but no record, 4 exactly when an upload is asked for without the
      storage library (and all records are objects); 0 means every record
      was an object and either no upload was asked for or it went to a
      `gs://` folder. */
  lemma ExitCodes(project: Option<string>, records: seq<Json>, gcsFolder: Option<string>,
                  hasGcs: bool, out: string, ts: string)
    ensures var e := MainExit(project, records, gcsFolder, hasGcs, out, ts);
      var noProject := project.None? || project.value == "";
      var allObjects := forall k :: 0 <= k < |records| ==> records[k].Object?;
      var upload := gcsFolder.Some? && gcsFolder.value != "";
      && (e == Code(2) <==> noProject)
      && (e == Code(3) <==> !noProject && records == [])
      && (e == Code(4) <==> !noProject && records != [] && allObjects && upload && !hasGcs)
      && (e == Code(0) ==>
            allObjects && records != [] && (upload ==> hasGcs && StartsWith(gcsFolder.value, GsScheme)))
      && (e.Code? ==> e.n in {0, 2, 3, 4})
  {
    if gcsFolder.Some? && gcsFolder.value != "" {
      UploadOutcomes(out, gcsFolder.value, hasGcs, ts);
    }
  }
}
