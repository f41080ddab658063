/**
 * The script that splits corpus documents into line-packed chunks and writes
 * them to the chunks table in batches. The table creation, the corpus query
 * and the inserts themselves are I/O: the corpus rows are an input, and
 * whether an insert reports errors is the function `failed`.
 */
module ChunkCorpus {
  import opened Common
  import opened TextUtils
  import opened Batching

  // ------------------------------------------------------------- chunk_text

  /** `[part[i:i+max] for i in range(0, len(part), max)]` */
  function Pieces(part: string, max: int): (r: seq<string>)
    requires 0 < max
    ensures Concat(r) == part
    ensures forall k :: 0 <= k < |r| ==> 0 < |r[k]| <= max
    decreases |part|
  {
    if part == [] then []
    else if |part| <= max then
      assert Concat([part]) == part + Concat([part][1..]);
      [part]
    else
      var rest := Pieces(part[max..], max);
      assert ([part[..max]] + rest)[1..] == rest;
      assert part == part[..max] + part[max..];
      [part[..max]] + rest
  }

  /** `[cur]` when `cur` is non-empty (the `if cur: out.append(cur)` steps). */
  function Flushed(cur: string): seq<string>
  {
    if cur != "" then [cur] else []
  }

  /** The chunks the loop of `chunk_text` emits for the remaining raw lines
      `parts`, with `cur` the chunk being packed. */
  function Pack(parts: seq<string>, max: int, cur: string): seq<string>
    requires 0 < max
    decreases |parts|
  {
    if parts == [] then Flushed(cur)
    else
      var part := Strip(parts[0]);
      if part == "" then Pack(parts[1..], max, cur)
      else if |cur| + |part| + 1 <= max then Pack(parts[1..], max, Strip(cur + " " + part))
      else if |part| <= max then Flushed(cur) + Pack(parts[1..], max, part)
      else Flushed(cur) + Pieces(part, max) + Pack(parts[1..], max, "")
  }

  /** What `chunk_text(text, max)` returns. A `max` below 1 makes the slicing
      `range` raise or drop every long line, and is not modelled. */
  function Chunks(text: string, max: int): seq<string>
    requires 0 < max
  {
    if text == "" then [] else Pack(SplitOn(text, '\n'), max, "")
  }

  /** The slicing loop for a line longer than `max`. */
  method AppendPieces(out: seq<string>, part: string, max: int) returns (r: seq<string>)
    requires 0 < max
    ensures r == out + Pieces(part, max)
  {
    r := out;
    var i := 0;
    while i < |part|
      invariant 0 <= i <= |part|
      invariant r + Pieces(part[i..], max) == out + Pieces(part, max)
      decreases |part| - i
    {
      var j := if i + max < |part| then i + max else |part|;
      assert Pieces(part[i..], max) == [part[i..j]] + Pieces(part[j..], max) by {
        if |part[i..]| > max {
          assert part[i..][..max] == part[i..j] && part[i..][max..] == part[j..];
        } else {
          assert part[i..] == part[i..j] && part[j..] == [];
        }
      }
      ConcatAssoc(r, [part[i..j]], Pieces(part[j..], max));
      r := r + [part[i..j]];
      i := j;
    }
    assert r + [] == r;
  }

  /** `chunk_text` */
  method ChunkText(text: string, max: int) returns (out: seq<string>)
    requires 0 < max
    ensures out == Chunks(text, max)
  {
    out := [];
    if text == "" {
      return;
    }
    var parts := SplitOn(text, '\n');
    ghost var whole := Pack(parts, max, "");
    var cur := "";
    var i := 0;
    while i < |parts|
      invariant 0 <= i <= |parts|
      invariant whole == out + Pack(parts[i..], max, cur)
    {
      ghost var out0, cur0 := out, cur;
      out, cur := PackLine(out, cur, Strip(parts[i]), max);
      PackStep(parts, i, max, cur0, out0, whole, out, cur);
      assert whole == out + Pack(parts[i + 1..], max, cur);
      i := i + 1;
    }
    assert out + Flushed(cur) == whole;
    if cur != "" {
      out := out + [cur];
    } else {
      assert out + [] == out;
    }
  }

  /** The effect of one stripped line `part` on the emitted chunks and the
      chunk being packed. */
  predicate Stepped(part: string, max: int, out: seq<string>, cur: string,
                    out': seq<string>, cur': string)
    requires 0 < max
  {
    if part == "" then out' == out && cur' == cur
    else if |cur| + |part| + 1 <= max then out' == out && cur' == Strip(cur + " " + part)
    else if |part| <= max then out' == out + Flushed(cur) && cur' == part
    else out' == out + Flushed(cur) + Pieces(part, max) && cur' == ""
  }

  /** The body of the `chunk_text` loop for one stripped line: skip it when
      blank, append it to the current chunk when it fits, otherwise flush the
      current chunk and start a new one from the line, or cut the line into
      `max`-character slices when it is longer than `max`. */
  method PackLine(out: seq<string>, cur: string, part: string, max: int)
    returns (out': seq<string>, cur': string)
    requires 0 < max
    ensures Stepped(part, max, out, cur, out', cur')
  {
    out', cur' := out, cur;
    if part == "" {
    } else if |cur| + |part| + 1 <= max {
      cur' := Strip(cur + " " + part);
    } else {
      if cur != "" {
        out' := out' + [cur];
      } else {
        assert out' + [] == out';
      }
      if |part| <= max {
        cur' := part;
      } else {
        out' := AppendPieces(out', part, max);
        cur' := "";
      }
    }
  }

  /** One line of the `chunk_text` loop. */
  lemma PackStep(parts: seq<string>, i: nat, max: int, cur: string, out: seq<string>,
                 whole: seq<string>, out': seq<string>, cur': string)
    requires 0 < max && i < |parts|
    requires whole == out + Pack(parts[i..], max, cur)
    requires Stepped(Strip(parts[i]), max, out, cur, out', cur')
    ensures whole == out' + Pack(parts[i + 1..], max, cur')
  {
    assert parts[i..][0] == parts[i] && parts[i..][1..] == parts[i + 1..];
    var part := Strip(parts[i]);
    var rest := Pack(parts[i + 1..], max, cur');
    if part != "" && |cur| + |part| + 1 > max {
      if |part| <= max {
        ConcatAssoc(out, Flushed(cur), rest);
      } else {
        ConcatAssoc(out, Flushed(cur), Pieces(part, max));
        ConcatAssoc(out + Flushed(cur), Pieces(part, max), rest);
        ConcatAssoc(out, Flushed(cur) + Pieces(part, max), rest);
      }
    }
  }

  /** Every chunk is non-empty and at most `max` characters long. */
  lemma {:induction false} PackBounded(parts: seq<string>, max: int, cur: string)
    requires 0 < max && |cur| <= max
    ensures forall k :: 0 <= k < |Pack(parts, max, cur)| ==> 0 < |Pack(parts, max, cur)[k]| <= max
    decreases |parts|
  {
    if parts == [] {
      return;
    }
    var part, rest := Strip(parts[0]), parts[1..];
    var _, _ := StripIsSlice(parts[0]);
    if part == "" {
      PackBounded(rest, max, cur);
    } else if |cur| + |part| + 1 <= max {
      var _, _ := StripIsSlice(cur + " " + part);
      PackBounded(rest, max, Strip(cur + " " + part));
    } else if |part| <= max {
      PackBounded(rest, max, part);
      BoundedAppend(Flushed(cur), Pack(rest, max, part), max);
    } else {
      PackBounded(rest, max, "");
      BoundedAppend(Pieces(part, max), Pack(rest, max, ""), max);
      BoundedAppend(Flushed(cur), Pieces(part, max) + Pack(rest, max, ""), max);
      ConcatAssoc(Flushed(cur), Pieces(part, max), Pack(rest, max, ""));
    }
  }

  lemma BoundedAppend(a: seq<string>, b: seq<string>, max: int)
    requires forall k :: 0 <= k < |a| ==> 0 < |a[k]| <= max
    requires forall k :: 0 <= k < |b| ==> 0 < |b[k]| <= max
    ensures forall k :: 0 <= k < |a + b| ==> 0 < |(a + b)[k]| <= max
  {
  }

  lemma ChunksBounded(text: string, max: int)
    requires 0 < max
    ensures forall k :: 0 <= k < |Chunks(text, max)| ==> 0 < |Chunks(text, max)[k]| <= max
  {
    if text != "" {
      PackBounded(SplitOn(text, '\n'), max, "");
    }
  }

  /** Packing keeps every non-space character of the lines, in order. */
  lemma {:induction false} PackKeepsText(parts: seq<string>, max: int, cur: string)
    requires 0 < max
    ensures NonSpace(Concat(Pack(parts, max, cur))) == NonSpace(cur) + NonSpace(Concat(parts))
    decreases |parts|
  {
    if parts == [] {
      FlushedText(cur);
      assert NonSpace(cur) + [] == NonSpace(cur);
    } else {
      var part := Strip(parts[0]);
      var rest := parts[1..];
      var tail := NonSpace(Concat(rest));
      assert NonSpace(Concat(parts)) == NonSpace(part) + tail by {
        NonSpaceStrip(parts[0]);
        assert Concat(parts) == parts[0] + Concat(rest);
        NonSpaceConcat(parts[0], Concat(rest));
      }
      if part == "" {
        PackKeepsText(rest, max, cur);
        assert NonSpace(part) + tail == tail;
      } else if |cur| + |part| + 1 <= max {
        PackKeepsText(rest, max, Strip(cur + " " + part));
        MergedText(cur, part);
        Assoc(NonSpace(cur), NonSpace(part), tail);
      } else if |part| <= max {
        PackKeepsText(rest, max, part);
        FlushedThenText(cur, Pack(rest, max, part));
        Assoc(NonSpace(cur), NonSpace(part), tail);
      } else {
        PackKeepsText(rest, max, "");
        PiecesThenText(part, max, Pack(rest, max, ""));
        FlushedThenText(cur, Pieces(part, max) + Pack(rest, max, ""));
        ConcatAssoc(Flushed(cur), Pieces(part, max), Pack(rest, max, ""));
        Assoc(NonSpace(cur), NonSpace(part), tail);
      }
    }
  }

  /** Joining the current chunk and a line with a space and stripping keeps
      both texts' non-space characters. */
  lemma MergedText(cur: string, part: string)
    ensures NonSpace(Strip(cur + " " + part)) == NonSpace(cur) + NonSpace(part)
  {
    NonSpaceStrip(cur + " " + part);
    NonSpaceConcat(cur + " ", part);
    NonSpaceConcat(cur, " ");
    assert NonSpace(" ") == [];
    assert NonSpace(cur) + [] == NonSpace(cur);
  }

  lemma FlushedThenText(cur: string, cs: seq<string>)
    ensures NonSpace(Concat(Flushed(cur) + cs)) == NonSpace(cur) + NonSpace(Concat(cs))
  {
    ConcatSplit(Flushed(cur), cs);
    FlushedText(cur);
    NonSpaceConcat(cur, Concat(cs));
  }

  lemma PiecesThenText(part: string, max: int, cs: seq<string>)
    requires 0 < max
    ensures NonSpace(Concat(Pieces(part, max) + cs)) == NonSpace(part) + NonSpace(Concat(cs))
  {
    ConcatSplit(Pieces(part, max), cs);
    NonSpaceConcat(part, Concat(cs));
  }

  lemma FlushedText(cur: string)
    ensures Concat(Flushed(cur)) == cur
  {
    if cur != "" {
      assert Concat([cur]) == cur + Concat([cur][1..]);
    }
  }

  /** The chunks, read in order, hold exactly the non-whitespace characters
      of the text, in order: lines are only stripped, joined with spaces or
      cut into slices. */
  lemma ChunksKeepText(text: string, max: int)
    requires 0 < max
    ensures NonSpace(Concat(Chunks(text, max))) == NonSpace(text)
  {
    if text != "" {
      var parts := SplitOn(text, '\n');
      PackKeepsText(parts, max, "");
      SplitOnPieces(text, '\n');
      assert NonSpace("\n") == [];
      NonSpaceJoin("\n", parts);
      assert NonSpace("") + NonSpace(Concat(parts)) == NonSpace(Concat(parts));
    }
  }

  // ------------------------------------------------------------------- main

  /** A row of the corpus table: `id`, `text` and `url` (NULL is None). */
  datatype CorpusRow = CorpusRow(id: Value, text: Option<string>, url: Option<string>)

  datatype ChunkRow = ChunkRow(id: string, paperId: string, section: string, position: nat,
                               text: string, tokenCount: nat, url: string)

  function ChunkRowOf(docId: string, url: string, pos: nat, c: string): ChunkRow
  {
    ChunkRow(docId + "::chunk::" + NatToString(pos), docId, "body", pos, c, WordCount(c), url)
  }

  /** The chunk rows of one corpus row, positions counted from 0. */
  function RowsOf(r: CorpusRow, max: int): (rows: seq<ChunkRow>)
    requires 0 < max
    ensures |rows| == |Chunks(OrEmpty(r.text), max)|
  {
    var cs := Chunks(OrEmpty(r.text), max);
    seq(|cs|, pos requires 0 <= pos < |cs| => ChunkRowOf(Show(r.id), OrEmpty(r.url), pos, cs[pos]))
  }

  /** Every chunk row of the corpus, in stream order. */
  function AllRows(docs: seq<CorpusRow>, max: int): seq<ChunkRow>
    requires 0 < max
  {
    if docs == [] then [] else AllRows(docs[..|docs| - 1], max) + RowsOf(docs[|docs| - 1], max)
  }

  /** `insert_chunk_batch`: 0 for no rows or when the insert reports errors,
      otherwise the number of rows. */
  function InsertChunkBatch(rows: seq<ChunkRow>, failed: seq<ChunkRow> -> bool): (n: nat)
    ensures n == |rows| || n == 0
    ensures n == |rows| <==> rows == [] || !failed(rows)
  {
    if rows == [] then 0 else if failed(rows) then 0 else |rows|
  }

  /** The total `main` adds up over its inserts. */
  function TotalInserted(batches: seq<seq<ChunkRow>>, failed: seq<ChunkRow> -> bool): nat
  {
    if batches == [] then 0
    else TotalInserted(batches[..|batches| - 1], failed) + InsertChunkBatch(batches[|batches| - 1], failed)
  }

  /** `main`, returning the batches handed to the insert call, in order, and
      `total_chunks`. */
  method ChunkCorpus(docs: seq<CorpusRow>, batchSize: int, maxChars: int, failed: seq<ChunkRow> -> bool)
    returns (total: nat, batches: seq<seq<ChunkRow>>)
    requires 0 < maxChars
    ensures Batched(batches, AllRows(docs, maxChars), batchSize)
    ensures total == TotalInserted(batches, failed)
  {
    total := 0;
    batches := [];
    var batch: seq<ChunkRow> := [];
    var d := 0;
    while d < |docs|
      invariant 0 <= d <= |docs|
      invariant Pending(batches, batch, AllRows(docs[..d], maxChars), batchSize)
      invariant total == TotalInserted(batches, failed)
    {
      var r := docs[d];
      var docId := Show(r.id);
      var url := OrEmpty(r.url);
      var chunks := ChunkText(OrEmpty(r.text), maxChars);
      ghost var before := AllRows(docs[..d], maxChars);
      var pos := 0;
      while pos < |chunks|
        invariant 0 <= pos <= |chunks|
        invariant Pending(batches, batch, before + RowsOf(r, maxChars)[..pos], batchSize)
        invariant total == TotalInserted(batches, failed)
      {
        var row := ChunkRowOf(docId, url, pos, chunks[pos]);
        assert row == RowsOf(r, maxChars)[pos];
        TakeNext(before, RowsOf(r, maxChars), pos);
        batches, batch, total := AddRow(batches, batch, total, row, batchSize, failed,
                                        before + RowsOf(r, maxChars)[..pos]);
        pos := pos + 1;
      }
      TakeAll(RowsOf(r, maxChars));
      TakeNext([], docs, d);
      d := d + 1;
    }
    TakeAll(docs);
    PendingDone(batches, batch, AllRows(docs, maxChars), batchSize);
    if batch != [] {
      var inserted := InsertChunkBatch(batch, failed);
      total := total + inserted;
      AppendLast(batches, batch);
      batches := batches + [batch];
    }
  }

  /** One row of the `main` loop: append it to the open batch and insert the
      batch once it holds `batch_size` rows. */
  method AddRow(batches: seq<seq<ChunkRow>>, batch: seq<ChunkRow>, total: nat, row: ChunkRow,
                batchSize: int, failed: seq<ChunkRow> -> bool, ghost seen: seq<ChunkRow>)
    returns (batches': seq<seq<ChunkRow>>, batch': seq<ChunkRow>, total': nat)
    requires Pending(batches, batch, seen, batchSize) && total == TotalInserted(batches, failed)
    ensures Pending(batches', batch', seen + [row], batchSize)
    ensures total' == TotalInserted(batches', failed)
  {
    PendingAdd(batches, batch, seen, batchSize, row);
    batches', batch', total' := batches, batch + [row], total;
    if |batch'| >= batchSize {
      var inserted := InsertChunkBatch(batch', failed);
      total' := total' + inserted;
      AppendLast(batches', batch');
      batches' := batches' + [batch'];
      batch' := [];
    }
  }

  /** Chunk row ids are `<doc_id>::chunk::<pos>` with `pos` the 0-based chunk
      index, and `token_count` is the whitespace word count of the text. */
  lemma RowShape(r: CorpusRow, max: int, pos: nat)
    requires 0 < max && pos < |RowsOf(r, max)|
    ensures var row := RowsOf(r, max)[pos];
      && row.id == Show(r.id) + "::chunk::" + NatToString(pos)
      && row.position == pos && row.paperId == Show(r.id) && row.section == "body"
      && row.text == Chunks(OrEmpty(r.text), max)[pos]
      && row.tokenCount == |Words(row.text)|
  {
    WordCountIsWords(RowsOf(r, max)[pos].text);
  }

  /** A corpus row without text gives no chunk rows. */
  lemma NoTextNoRows(r: CorpusRow, max: int)
    requires 0 < max && (r.text.None? || r.text == Some(""))
    ensures RowsOf(r, max) == []
  {
  }
}
