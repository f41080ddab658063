/**
 * The Document AI ingestion step: the OCR text of a paper is cut into blocks
 * of at most `max_tokens` whitespace words, each block becomes a `Chunk`, and
 * the chunks are written to BigQuery. The OCR call and the insert itself are
 * I/O and are not modelled; the OCR text is an input.
 */
module ParseChunks {
  import opened Common
  import opened TextUtils
  import opened Batching
  import opened Schemas

  /** The word groups of `chunk_blocks`: the words of `text`, `max_tokens` at
      a time (a `max_tokens` below 1 gives one word per block). */
  function WordGroups(text: string, maxTokens: int): seq<seq<string>>
  {
    Batches(Words(text), maxTokens)
  }

  function JoinGroups(gs: seq<seq<string>>): (r: seq<string>)
    ensures |r| == |gs|
  {
    seq(|gs|, k requires 0 <= k < |gs| => Join(" ", gs[k]))
  }

  lemma JoinGroupsAppend(gs: seq<seq<string>>, g: seq<string>)
    ensures JoinGroups(gs + [g]) == JoinGroups(gs) + [Join(" ", g)]
  {
    assert forall k :: 0 <= k < |gs| ==> (gs + [g])[k] == gs[k];
  }

  /** What `chunk_blocks(text, max_tokens)` returns. */
  function Blocks(text: string, maxTokens: int): seq<string>
  {
    JoinGroups(WordGroups(text, maxTokens))
  }

  /** `chunk_blocks` */
  method ChunkBlocks(text: string, maxTokens: int) returns (out: seq<string>)
    ensures out == Blocks(text, maxTokens)
  {
    var words := Words(text);
    out := [];
    ghost var groups: seq<seq<string>> := [];
    var cur: seq<string> := [];
    var i := 0;
    while i < |words|
      invariant 0 <= i <= |words|
      invariant Pending(groups, cur, words[..i], maxTokens)
      invariant out == JoinGroups(groups)
    {
      TakeNext([], words, i);
      out, cur, groups := AddWord(out, cur, words[i], maxTokens, groups, words[..i]);
      i := i + 1;
    }
    TakeAll(words);
    PendingDone(groups, cur, words, maxTokens);
    if cur != [] {
      JoinGroupsAppend(groups, cur);
      out := out + [Join(" ", cur)];
      groups := groups + [cur];
    }
    BatchedIsBatches(groups, words, maxTokens);
  }

  /** One word of the `chunk_blocks` loop: append it to the current block and
      flush the block once it holds `max_tokens` words. */
  method AddWord(out: seq<string>, cur: seq<string>, w: string, maxTokens: int,
                 ghost groups: seq<seq<string>>, ghost seen: seq<string>)
    returns (out': seq<string>, cur': seq<string>, ghost groups': seq<seq<string>>)
    requires Pending(groups, cur, seen, maxTokens) && out == JoinGroups(groups)
    ensures Pending(groups', cur', seen + [w], maxTokens) && out' == JoinGroups(groups')
  {
    PendingAdd(groups, cur, seen, maxTokens, w);
    out', cur', groups' := out, cur + [w], groups;
    if |cur'| >= maxTokens {
      JoinGroupsAppend(groups', cur');
      out' := out' + [Join(" ", cur')];
      groups' := groups' + [cur'];
      cur' := [];
    }
  }

  /** Blank text (including the empty string) gives no blocks. */
  lemma BlocksOfBlank(text: string)
    requires IsBlank(text)
    ensures forall m :: Blocks(text, m) == []
  {
    WordsOfBlank(text);
  }

  /** The words of block `k` are word group `k`. */
  lemma BlockWords(text: string, maxTokens: int, k: nat)
    requires k < |Blocks(text, maxTokens)|
    ensures Words(Blocks(text, maxTokens)[k]) == WordGroups(text, maxTokens)[k]
  {
    var ws := Words(text);
    var g := WordGroups(text, maxTokens)[k];
    forall j | 0 <= j < |g|
      ensures g[j] != [] && NoSpace(g[j])
    {
      BatchesHoldItems(ws, maxTokens, k, j);
    }
    WordsOfJoin(g);
  }

  /** Every block but the last holds exactly `max_tokens` words (one when
      `max_tokens` is below 1), and the last between one and that many. */
  lemma BlockSizes(text: string, maxTokens: int, k: nat)
    requires k < |Blocks(text, maxTokens)|
    ensures 0 < |Words(Blocks(text, maxTokens)[k])| <= Cap(maxTokens)
    ensures k < |Blocks(text, maxTokens)| - 1 ==> |Words(Blocks(text, maxTokens)[k])| == Cap(maxTokens)
  {
    BlockWords(text, maxTokens, k);
    BatchesBatched(Words(text), maxTokens);
  }

  /** Joining the blocks with single spaces gives the whitespace-normalised
      text `" ".join(text.split())`. */
  lemma BlocksJoin(text: string, maxTokens: int)
    ensures Join(" ", Blocks(text, maxTokens)) == CleanText(text)
  {
    var gs := WordGroups(text, maxTokens);
    BatchesBatched(Words(text), maxTokens);
    JoinOfJoins(gs);
    CleanTextIsJoinOfWords(text);
  }

  /** There are `ceil(word count / max_tokens)` blocks. */
  lemma BlockCount(text: string, maxTokens: int)
    ensures WordCount(text) <= |Blocks(text, maxTokens)| * Cap(maxTokens)
    ensures Blocks(text, maxTokens) != [] ==> (|Blocks(text, maxTokens)| - 1) * Cap(maxTokens) < WordCount(text)
  {
    WordCountIsWords(text);
    BatchesBatched(Words(text), maxTokens);
    BatchCount(WordGroups(text, maxTokens), Words(text), maxTokens);
  }

  /** The chunk the CLI builds for block `i`: id `<paper_id>-c<i+1>`, 1-based
      position, section `body`, token count the block's word count. */
  function BlockChunk(paperId: string, url: string, i: nat, t: string): Chunk
  {
    Chunk(paperId + "-c" + NatToString(i + 1), paperId, "body", i + 1, t, |Words(t)|, Some(url))
  }

  /** The chunks the CLI builds for `blocks`, in order. */
  function BlockChunks(paperId: string, url: string, blocks: seq<string>): (cs: seq<Chunk>)
    ensures |cs| == |blocks|
  {
    if blocks == [] then []
    else BlockChunks(paperId, url, blocks[..|blocks| - 1])
         + [BlockChunk(paperId, url, |blocks| - 1, blocks[|blocks| - 1])]
  }

  lemma {:induction false} BlockChunksAt(paperId: string, url: string, blocks: seq<string>, i: nat)
    requires i < |blocks|
    ensures BlockChunks(paperId, url, blocks)[i] == BlockChunk(paperId, url, i, blocks[i])
  {
    if i < |blocks| - 1 {
      BlockChunksAt(paperId, url, blocks[..|blocks| - 1], i);
    }
  }

  /** The chunk construction loop of the CLI. */
  method BuildChunks(paperId: string, url: string, blocks: seq<string>) returns (chunks: seq<Chunk>)
    ensures chunks == BlockChunks(paperId, url, blocks)
  {
    chunks := [];
    var i := 0;
    while i < |blocks|
      invariant 0 <= i <= |blocks|
      invariant chunks == BlockChunks(paperId, url, blocks[..i])
    {
      TakeNext([], blocks, i);
      chunks := chunks + [BlockChunk(paperId, url, i, blocks[i])];
      i := i + 1;
    }
    TakeAll(blocks);
  }

  /** The CLI chunks of a paper carry positions 1, 2, ... in block order and
      token counts equal to the block sizes, so all but the last hold 200
      words. */
  lemma CliChunks(paperId: string, url: string, text: string, i: nat)
    requires i < |Blocks(text, 200)|
    ensures var c := BlockChunks(paperId, url, Blocks(text, 200))[i];
      && c.id == paperId + "-c" + NatToString(i + 1) && c.position == i + 1
      && 0 < c.tokenCount <= 200
      && (i < |Blocks(text, 200)| - 1 ==> c.tokenCount == 200)
  {
    BlockChunksAt(paperId, url, Blocks(text, 200), i);
    BlockSizes(text, 200, i);
  }

  /** `upsert_chunks_bq`: the number of rows handed to the insert. What the
      insert reports (`failed`) is only printed, so the count is the number
      of rows whatever it says. */
  function UpsertChunksBq(chunks: seq<Chunk>, failed: seq<ChunkRow> -> bool): (n: nat)
  {
    |Map(ChunkToBq, chunks)|
  }

  lemma UpsertCountsAll(chunks: seq<Chunk>, failed: seq<ChunkRow> -> bool)
    ensures UpsertChunksBq(chunks, failed) == |chunks|
    ensures chunks == [] <==> UpsertChunksBq(chunks, failed) == 0
  {
  }
}
