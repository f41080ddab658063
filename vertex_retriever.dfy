/**
 * The document handling of `VertexAIRetriever`: chunking documents (which
 * also stamps a source id into each input document's metadata), the date
 * filter applied after a search, the date restriction sent with a query, and
 * the datapoints upserted in batches of 100. The text splitter, Python's
 * `hash` and the embedding model are inputs.
 */
module VertexRetriever {
  import opened Common
  import Batching

  /** A LangChain document whose metadata dictionary is updated in place. */
  class SourceDoc {
    const content: string
    var metadata: map<string, Value>

    constructor (content: string, metadata: map<string, Value>)
      ensures this.content == content && this.metadata == metadata
    {
      this.content := content;
      this.metadata := metadata;
    }
  }

  /** The documents as values, in the current heap. */
  function Snapshot(docs: seq<SourceDoc>): (r: seq<Document>)
    reads set d | d in docs
    ensures |r| == |docs|
  {
    if docs == [] then [] else Snapshot(docs[..|docs| - 1]) + [Document(docs[|docs| - 1].content, docs[|docs| - 1].metadata)]
  }

  /** Entry `k` of the snapshot is document `k`'s content and metadata. */
  lemma {:induction false} SnapshotAt(docs: seq<SourceDoc>, k: nat)
    requires k < |docs|
    ensures Snapshot(docs)[k] == Document(docs[k].content, docs[k].metadata)
  {
    if k < |docs| - 1 {
      SnapshotAt(docs[..|docs| - 1], k);
    }
  }

  // ---------------------------------------------------------- chunking

  /** `f"doc_{hash(doc.page_content)}"` */
  const SourceIdKey := "source_id"

  function SourceId(content: string, hash: string -> int): Value
  {
    Str("doc_" + IntToString(hash(content)))
  }

  /** The metadata after the source id is stamped. `hasattr` on a dictionary
      never sees its keys, so the stamp always overwrites. */
  function Tagged(meta: map<string, Value>, content: string, hash: string -> int): map<string, Value>
  {
    meta[SourceIdKey := SourceId(content, hash)]
  }

  /** Chunk `i` of `pieces` as a document: the document's metadata, then
      `chunk_id` and `total_chunks`. */
  function ChunkDoc(pieces: seq<string>, meta: map<string, Value>, i: nat): Document
    requires i < |pieces|
  {
    Document(pieces[i], meta["chunk_id" := Int(i)]["total_chunks" := Int(|pieces|)])
  }

  /** The first `n` chunk documents. */
  function ChunkDocs(pieces: seq<string>, meta: map<string, Value>, n: nat): (r: seq<Document>)
    requires n <= |pieces|
    ensures |r| == n
  {
    if n == 0 then [] else ChunkDocs(pieces, meta, n - 1) + [ChunkDoc(pieces, meta, n - 1)]
  }

  lemma {:induction false} ChunkDocsAt(pieces: seq<string>, meta: map<string, Value>, n: nat, i: nat)
    requires i < n <= |pieces|
    ensures ChunkDocs(pieces, meta, n)[i] == ChunkDoc(pieces, meta, i)
  {
    if i < n - 1 {
      ChunkDocsAt(pieces, meta, n - 1, i);
    }
  }

  /** Chunk `i` has `chunk_id` `i`, the piece count as `total_chunks`, and
      every other entry of the metadata it was given. */
  lemma ChunkDocShape(pieces: seq<string>, meta: map<string, Value>, i: nat)
    requires i < |pieces|
    ensures var c := ChunkDoc(pieces, meta, i);
      && c.content == pieces[i]
      && "chunk_id" in c.metadata && c.metadata["chunk_id"] == Int(i)
      && "total_chunks" in c.metadata && c.metadata["total_chunks"] == Int(|pieces|)
      && (forall key :: key != "chunk_id" && key != "total_chunks" ==>
            (key in c.metadata <==> key in meta) && (key in meta ==> c.metadata[key] == meta[key]))
  {
  }

  /** The chunks of one document. */
  function DocChunks(d: Document, split: string -> seq<string>, hash: string -> int): seq<Document>
  {
    ChunkDocs(split(d.content), Tagged(d.metadata, d.content, hash), |split(d.content)|)
  }

  /** `process_documents(documents)`, on the documents as they were. */
  function Processed(docs: seq<Document>, split: string -> seq<string>, hash: string -> int): seq<Document>
  {
    if docs == [] then []
    else Processed(docs[..|docs| - 1], split, hash) + DocChunks(docs[|docs| - 1], split, hash)
  }

  /** Stamping twice is stamping once. */
  lemma TaggedIdempotent(meta: map<string, Value>, content: string, hash: string -> int)
    ensures Tagged(Tagged(meta, content, hash), content, hash) == Tagged(meta, content, hash)
  {
  }

  /** The chunk loop of one document. */
  method AppendChunks(out: seq<Document>, pieces: seq<string>, meta: map<string, Value>)
    returns (r: seq<Document>)
    ensures r == out + ChunkDocs(pieces, meta, |pieces|)
  {
    r := out;
    var i := 0;
    while i < |pieces|
      invariant 0 <= i <= |pieces|
      invariant r == out + ChunkDocs(pieces, meta, i)
    {
      r := r + [ChunkDoc(pieces, meta, i)];
      i := i + 1;
    }
  }

  /** `process_documents`: every input document ends up stamped, and the
      chunks are those of the documents as they were. A document listed
      twice is stamped twice with the same id. */
  method ProcessDocuments(docs: seq<SourceDoc>, split: string -> seq<string>, hash: string -> int)
    returns (chunks: seq<Document>)
    modifies set d | d in docs
    ensures forall j :: 0 <= j < |docs| ==> docs[j].metadata == Tagged(old(docs[j].metadata), docs[j].content, hash)
    ensures chunks == Processed(old(Snapshot(docs)), split, hash)
  {
    ghost var before := Snapshot(docs);
    ghost var orig := map d | d in docs :: d.metadata;
    forall j | 0 <= j < |docs|
      ensures before[j] == Document(docs[j].content, orig[docs[j]])
    {
      SnapshotAt(docs, j);
    }
    chunks := [];
    var i := 0;
    while i < |docs|
      invariant 0 <= i <= |docs|
      invariant StampedUpTo(docs, i, orig, hash)
      invariant chunks == Processed(before[..i], split, hash)
    {
      var d := docs[i];
      Stamp(docs, i, orig, hash);
      ProcessedSnoc(before, i, split, hash);
      assert DocChunks(before[i], split, hash) == ChunkDocs(split(d.content), d.metadata, |split(d.content)|);
      chunks := AppendChunks(chunks, split(d.content), d.metadata);
      i := i + 1;
    }
    TakeAll(before);
  }

  /** The first `i` documents carry the stamp over their original metadata
      `orig`, and every document has either its original metadata or the
      stamped one (the same document may occur twice). */
  ghost predicate StampedUpTo(docs: seq<SourceDoc>, i: nat, orig: map<SourceDoc, map<string, Value>>, hash: string -> int)
    reads set d | d in docs
  {
    && i <= |docs|
    && (forall d :: d in docs ==> d in orig && (d.metadata == orig[d] || d.metadata == Tagged(orig[d], d.content, hash)))
    && (forall j :: 0 <= j < i ==> docs[j].metadata == Tagged(orig[docs[j]], docs[j].content, hash))
  }

  /** The loop body's stamp of document `i`: `doc.metadata["source_id"] = ...`. */
  method Stamp(docs: seq<SourceDoc>, i: nat, ghost orig: map<SourceDoc, map<string, Value>>, hash: string -> int)
    requires i < |docs| && StampedUpTo(docs, i, orig, hash)
    modifies docs[i]
    ensures StampedUpTo(docs, i + 1, orig, hash)
    ensures docs[i].metadata == Tagged(orig[docs[i]], docs[i].content, hash)
  {
    var d := docs[i];
    TaggedIdempotent(orig[d], d.content, hash);
    d.metadata := Tagged(d.metadata, d.content, hash);
    forall e | e in docs
      ensures e in orig && (e.metadata == orig[e] || e.metadata == Tagged(orig[e], e.content, hash))
    {
      if e != d {
        assert e.metadata == old(e.metadata);
      }
    }
    forall j | 0 <= j < i + 1
      ensures docs[j].metadata == Tagged(orig[docs[j]], docs[j].content, hash)
    {
      if docs[j] != d {
        assert docs[j].metadata == old(docs[j].metadata);
      }
    }
  }

  lemma ProcessedSnoc(docs: seq<Document>, i: nat, split: string -> seq<string>, hash: string -> int)
    requires i < |docs|
    ensures Processed(docs[..i + 1], split, hash) == Processed(docs[..i], split, hash) + DocChunks(docs[i], split, hash)
  {
    assert docs[..i + 1][..i] == docs[..i];
  }

  /** Chunking runs document by document: the chunks of two lists are the
      chunks of the first followed by those of the second. */
  lemma {:induction false} ProcessedAppend(a: seq<Document>, b: seq<Document>, split: string -> seq<string>, hash: string -> int)
    ensures Processed(a + b, split, hash) == Processed(a, split, hash) + Processed(b, split, hash)
    decreases |b|
  {
    if b == [] {
      assert a + b == a;
    } else {
      var init, last := b[..|b| - 1], b[|b| - 1];
      var p, q := Processed(a, split, hash), Processed(init, split, hash);
      var c := DocChunks(last, split, hash);
      calc {
        Processed(a + b, split, hash);
        { assert (a + b)[..|a + b| - 1] == a + init && (a + b)[|a + b| - 1] == last; }
        Processed(a + init, split, hash) + c;
        { ProcessedAppend(a, init, split, hash); }
        p + q + c;
        { ConcatAssoc(p, q, c); }
        p + (q + c);
      }
    }
  }

  /** Every chunk is chunk `i` of some document `j`, built from that
      document's metadata after the stamp. */
  lemma {:induction false} ChunkOrigin(docs: seq<Document>, split: string -> seq<string>, hash: string -> int, k: nat)
    returns (j: nat, i: nat)
    requires k < |Processed(docs, split, hash)|
    ensures j < |docs| && i < |split(docs[j].content)|
    ensures Processed(docs, split, hash)[k] == ChunkDoc(split(docs[j].content), Tagged(docs[j].metadata, docs[j].content, hash), i)
  {
    var init := docs[..|docs| - 1];
    var last := docs[|docs| - 1];
    var p := Processed(init, split, hash);
    if k < |p| {
      j, i := ChunkOrigin(init, split, hash, k);
      assert docs[j] == init[j];
    } else {
      j := |docs| - 1;
      i := k - |p|;
      ChunkDocsAt(split(last.content), Tagged(last.metadata, last.content, hash), |split(last.content)|, i);
    }
  }

  /** Hence a chunk carries `chunk_id` `i`, its document's piece count as
      `total_chunks`, `doc_<hash>` as its source id whatever the document
      had, and every other metadata entry of the document unchanged. */
  lemma ChunkMetadata(docs: seq<Document>, split: string -> seq<string>, hash: string -> int, k: nat)
    returns (j: nat, i: nat)
    requires k < |Processed(docs, split, hash)|
    ensures j < |docs| && i < |split(docs[j].content)|
    ensures var c := Processed(docs, split, hash)[k];
      && c.content == split(docs[j].content)[i]
      && "chunk_id" in c.metadata && c.metadata["chunk_id"] == Int(i)
      && "total_chunks" in c.metadata && c.metadata["total_chunks"] == Int(|split(docs[j].content)|)
      && "source_id" in c.metadata && c.metadata["source_id"] == SourceId(docs[j].content, hash)
      && (forall key :: key != "chunk_id" && key != "total_chunks" && key != "source_id" ==>
            (key in c.metadata <==> key in docs[j].metadata) &&
            (key in c.metadata ==> c.metadata[key] == docs[j].metadata[key]))
  {
    j, i := ChunkOrigin(docs, split, hash, k);
    ChunkDocShape(split(docs[j].content), Tagged(docs[j].metadata, docs[j].content, hash), i);
  }

  /** The documents' piece counts added up. */
  function TotalPieces(docs: seq<Document>, split: string -> seq<string>): nat
  {
    if docs == [] then 0 else TotalPieces(docs[..|docs| - 1], split) + |split(docs[|docs| - 1].content)|
  }

  /** The number of chunks is the sum of the documents' piece counts. */
  lemma {:induction false} ChunkCount(docs: seq<Document>, split: string -> seq<string>, hash: string -> int)
    ensures |Processed(docs, split, hash)| == TotalPieces(docs, split)
  {
    if docs != [] {
      ChunkCount(docs[..|docs| - 1], split, hash);
    }
  }

  // ---------------------------------------------------------- date filter

  const SecondsPerDay := 86400

  /** The test of `filter_by_date` for one document, with timestamps in
      seconds: a falsy date keeps it; a date the subtraction from the naive
      `datetime.now()` rejects (any value that is not a datetime, and any
      aware datetime) raises inside the `try` and keeps it; otherwise its
      age in whole days, rounded down as `timedelta.days` does, must not
      exceed `maxAgeDays`. */
  predicate KeepByDate(d: Document, now: int, maxAgeDays: int)
  {
    var date := Get(d.metadata, "date", Null);
    !Truthy(date) || !date.Date? || date.aware || (now - date.t) / SecondsPerDay <= maxAgeDays
  }

  function Identity(d: Document): Document
  {
    d
  }

  /** `filter_by_date(documents, max_age_days)` at time `now`. */
  function FilterByDate(docs: seq<Document>, now: int, maxAgeDays: int): seq<Document>
  {
    FilterMap(docs, d => KeepByDate(d, now, maxAgeDays), Identity)
  }

  method FilterDocsByDate(docs: seq<Document>, now: int, maxAgeDays: int) returns (kept: seq<Document>)
    ensures kept == FilterByDate(docs, now, maxAgeDays)
  {
    kept := [];
    var i := 0;
    while i < |docs|
      invariant 0 <= i <= |docs|
      invariant kept == FilterByDate(docs[..i], now, maxAgeDays)
    {
      var d := docs[i];
      TakeSnoc(docs, i);
      FilterMapAppend(docs[..i], x => KeepByDate(x, now, maxAgeDays), Identity, d);
      var date := Get(d.metadata, "date", Null);
      if Truthy(date) {
        if date.Date? && !date.aware {
          if (now - date.t) / SecondsPerDay <= maxAgeDays {
            kept := kept + [d];
          }
        } else {
          kept := kept + [d];
        }
      } else {
        kept := kept + [d];
      }
      i := i + 1;
    }
    TakeAll(docs);
  }

  /** A document is kept exactly when it is one of the inputs that passes
      the test. */
  lemma {:induction false} FilterByDateExactly(docs: seq<Document>, now: int, maxAgeDays: int, d: Document)
    ensures d in FilterByDate(docs, now, maxAgeDays) <==> d in docs && KeepByDate(d, now, maxAgeDays)
  {
    if docs != [] {
      var init := docs[..|docs| - 1];
      FilterByDateExactly(init, now, maxAgeDays, d);
      assert docs == init + [docs[|docs| - 1]];
    }
  }

  /** The filter keeps the input order: two kept documents come from input
      positions in the same order. */
  lemma {:induction false} FilterByDateOrder(docs: seq<Document>, now: int, maxAgeDays: int, k1: nat, k2: nat)
    returns (j1: nat, j2: nat)
    requires k1 < k2 < |FilterByDate(docs, now, maxAgeDays)|
    ensures j1 < j2 < |docs|
    ensures FilterByDate(docs, now, maxAgeDays)[k1] == docs[j1]
    ensures FilterByDate(docs, now, maxAgeDays)[k2] == docs[j2]
  {
    var init := docs[..|docs| - 1];
    var keep := d => KeepByDate(d, now, maxAgeDays);
    if k2 < |FilterByDate(init, now, maxAgeDays)| {
      j1, j2 := FilterByDateOrder(init, now, maxAgeDays, k1, k2);
      assert docs[j1] == init[j1] && docs[j2] == init[j2];
    } else {
      j1 := FilterMapOrigin(init, keep, Identity, k1);
      assert docs[j1] == init[j1];
      j2 := |docs| - 1;
    }
  }

  /** A document without a date, with a date that is not a datetime, or with
      an aware datetime of any age, is always kept; a datetime in the future
      is kept for any non-negative limit; a naive datetime older than the
      limit is dropped. */
  lemma KeptWithoutDate(d: Document, now: int, maxAgeDays: int)
    ensures !("date" in d.metadata && Truthy(d.metadata["date"])) ==> KeepByDate(d, now, maxAgeDays)
    ensures "date" in d.metadata && !d.metadata["date"].Date? ==> KeepByDate(d, now, maxAgeDays)
    ensures "date" in d.metadata && d.metadata["date"].Date? && d.metadata["date"].aware
            ==> KeepByDate(d, now, maxAgeDays)
    ensures "date" in d.metadata && d.metadata["date"].Date? && d.metadata["date"].t > now && maxAgeDays >= 0
            ==> KeepByDate(d, now, maxAgeDays)
    ensures "date" in d.metadata && d.metadata["date"].Date? && !d.metadata["date"].aware &&
            (now - d.metadata["date"].t) / SecondsPerDay > maxAgeDays
            ==> !KeepByDate(d, now, maxAgeDays)
  {
  }

  // ---------------------------------------------------------- search query

  /** The earliest timestamp `similarity_search` asks for, if any: a
      restriction is sent only when `max_age_days` is truthy, so 0 and
      `None` both mean no restriction. */
  function DateRestriction(maxAgeDays: Option<int>, now: int): Option<int>
  {
    if maxAgeDays.Some? && maxAgeDays.value != 0 then Some(now - maxAgeDays.value * SecondsPerDay) else None
  }

  /** The restriction is present exactly for a non-zero limit, and every
      datetime it admits also passes `filter_by_date` with the same limit:
      the two filters agree on what they let through. */
  lemma RestrictionAgrees(maxAgeDays: Option<int>, now: int, d: Document)
    ensures DateRestriction(maxAgeDays, now).Some? <==> maxAgeDays.Some? && maxAgeDays.value != 0
    ensures DateRestriction(maxAgeDays, now).Some? && "date" in d.metadata && d.metadata["date"].Date? &&
            d.metadata["date"].t >= DateRestriction(maxAgeDays, now).value
            ==> KeepByDate(d, now, maxAgeDays.value)
  {
    if DateRestriction(maxAgeDays, now).Some? && "date" in d.metadata && d.metadata["date"].Date? {
      var t := d.metadata["date"].t;
      var m := maxAgeDays.value;
      if t >= now - m * SecondsPerDay {
        DivBound(now - t, m);
      }
    }
  }

  lemma DivBound(x: int, m: int)
    requires x <= m * SecondsPerDay
    ensures x / SecondsPerDay <= m
  {
    var q := x / SecondsPerDay;
    assert x == q * SecondsPerDay + x % SecondsPerDay;
  }

  // ---------------------------------------------------------- indexing

  /** An upserted datapoint. */
  datatype Datapoint = Datapoint(id: string, vector: seq<real>, metadata: map<string, Value>)

  /** Datapoint `i`: `{"content": chunk text, **chunk.metadata}`, so a
      `content` entry of the chunk's own metadata wins. */
  function DatapointOf(i: nat, chunk: Document, embedding: seq<real>): Datapoint
  {
    Datapoint("chunk_" + NatToString(i), embedding, map["content" := Str(chunk.content)] + chunk.metadata)
  }

  /** `enumerate(zip(chunks, embeddings))`: as many datapoints as the
      shorter list. */
  function Datapoints(chunks: seq<Document>, embeddings: seq<seq<real>>): (r: seq<Datapoint>)
    ensures |r| == (if |chunks| < |embeddings| then |chunks| else |embeddings|)
  {
    if chunks == [] || embeddings == [] then []
    else
      var n := (if |chunks| < |embeddings| then |chunks| else |embeddings|) - 1;
      Datapoints(chunks[..n], embeddings[..n]) + [DatapointOf(n, chunks[n], embeddings[n])]
  }

  const BatchSize := 100

  lemma {:induction false} DatapointsAt(chunks: seq<Document>, embeddings: seq<seq<real>>, i: nat)
    requires i < |Datapoints(chunks, embeddings)|
    ensures i < |chunks| && i < |embeddings|
    ensures Datapoints(chunks, embeddings)[i] == DatapointOf(i, chunks[i], embeddings[i])
  {
    var n := (if |chunks| < |embeddings| then |chunks| else |embeddings|) - 1;
    if i < n {
      DatapointsAt(chunks[..n], embeddings[..n], i);
    }
  }

  /** The datapoint loop over `enumerate(zip(chunks, embeddings))`. */
  method BuildDatapoints(chunks: seq<Document>, embeddings: seq<seq<real>>) returns (dps: seq<Datapoint>)
    ensures dps == Datapoints(chunks, embeddings)
  {
    dps := [];
    var n := if |chunks| < |embeddings| then |chunks| else |embeddings|;
    var i := 0;
    while i < n
      invariant 0 <= i <= n
      invariant dps == Datapoints(chunks[..i], embeddings[..i])
    {
      DatapointsSnoc(chunks, embeddings, i);
      dps := dps + [DatapointOf(i, chunks[i], embeddings[i])];
      i := i + 1;
    }
    ZipPrefix(chunks, embeddings, n);
  }

  /** The zip of the first `i + 1` items extends that of the first `i`. */
  lemma DatapointsSnoc(chunks: seq<Document>, embeddings: seq<seq<real>>, i: nat)
    requires i < |chunks| && i < |embeddings|
    ensures Datapoints(chunks[..i + 1], embeddings[..i + 1])
         == Datapoints(chunks[..i], embeddings[..i]) + [DatapointOf(i, chunks[i], embeddings[i])]
  {
    assert chunks[..i + 1][..i] == chunks[..i] && embeddings[..i + 1][..i] == embeddings[..i];
  }

  /** The `update_index` loop: one update per slice of 100 datapoints. */
  method UpsertBatches(dps: seq<Datapoint>) returns (updates: seq<seq<Datapoint>>)
    ensures updates == Batching.Batches(dps, BatchSize)
  {
    updates := [];
    var i := 0;
    while i < |dps|
      invariant 0 <= i <= |dps|
      invariant Batching.Batches(dps, BatchSize) == updates + Batching.Batches(dps[i..], BatchSize)
      decreases |dps| - i
    {
      var end := if i + BatchSize < |dps| then i + BatchSize else |dps|;
      BatchesStep(dps, i, end);
      updates := updates + [dps[i..end]];
      i := end;
    }
  }

  /** Cutting the next slice of 100 from position `i`. */
  lemma BatchesStep(dps: seq<Datapoint>, i: nat, end: nat)
    requires i < |dps| && end == (if i + BatchSize < |dps| then i + BatchSize else |dps|)
    ensures Batching.Batches(dps[i..], BatchSize) == [dps[i..end]] + Batching.Batches(dps[end..], BatchSize)
  {
    assert dps[i..][..end - i] == dps[i..end] && dps[i..][end - i..] == dps[end..];
  }

  /** `index_documents` past the chunking and the embedding call: the
      datapoints, then `update_index` once per slice of 100. */
  method IndexDocuments(chunks: seq<Document>, embeddings: seq<seq<real>>) returns (updates: seq<seq<Datapoint>>)
    ensures updates == Batching.Batches(Datapoints(chunks, embeddings), BatchSize)
  {
    var dps := BuildDatapoints(chunks, embeddings);
    updates := UpsertBatches(dps);
  }

  /** Zipping stops at the shorter list. */
  lemma ZipPrefix(chunks: seq<Document>, embeddings: seq<seq<real>>, n: nat)
    requires n == if |chunks| < |embeddings| then |chunks| else |embeddings|
    ensures Datapoints(chunks, embeddings) == Datapoints(chunks[..n], embeddings[..n])
  {
    if n > 0 {
      TakeTake(chunks, n, n - 1);
      TakeTake(embeddings, n, n - 1);
    }
  }

  /** Datapoint `i` is `chunk_<i>` over the global chunk index, so ids never
      repeat; it carries the chunk's embedding and its text unless the
      chunk's metadata has its own `content`. */
  lemma DatapointShape(chunks: seq<Document>, embeddings: seq<seq<real>>, i: nat, j: nat)
    requires i < |Datapoints(chunks, embeddings)| && j < |Datapoints(chunks, embeddings)|
    ensures var p := Datapoints(chunks, embeddings)[i];
      && p.id == "chunk_" + NatToString(i)
      && p.vector == embeddings[i]
      && "content" in p.metadata
      && p.metadata["content"] == (if "content" in chunks[i].metadata then chunks[i].metadata["content"] else Str(chunks[i].content))
      && (forall key :: key in chunks[i].metadata ==> key in p.metadata && p.metadata[key] == chunks[i].metadata[key])
    ensures i != j ==> Datapoints(chunks, embeddings)[i].id != Datapoints(chunks, embeddings)[j].id
  {
    DatapointsAt(chunks, embeddings, i);
    DatapointsAt(chunks, embeddings, j);
    if i != j && "chunk_" + NatToString(i) == "chunk_" + NatToString(j) {
      var pre := "chunk_";
      assert NatToString(i) == ("chunk_" + NatToString(i))[|pre|..];
      assert NatToString(j) == ("chunk_" + NatToString(j))[|pre|..];
      NatToStringInjective(i, j);
    }
  }

  /** Every datapoint is upserted exactly once, in order, at most 100 at a
      time, and only the last update holds fewer than 100. */
  lemma UpdatesCoverDatapoints(chunks: seq<Document>, embeddings: seq<seq<real>>)
    ensures Batching.Batched(Batching.Batches(Datapoints(chunks, embeddings), BatchSize), Datapoints(chunks, embeddings), BatchSize)
  {
    Batching.BatchesBatched(Datapoints(chunks, embeddings), BatchSize);
  }
}
