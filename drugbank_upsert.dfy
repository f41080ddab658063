/**
 * The DrugBank loader script (`upsert_drugbank_to_bq.py`): `<drug>` elements
 * of the DrugBank XML become corpus records, the ids already present are
 * fetched once, and the records not yet present are inserted in batches.
 * The XML reader, the random uuid and the BigQuery calls are inputs: the
 * elements as they are streamed, a function from stream position to uuid
 * text, the rows of the id query (`None` when it raised) and a predicate
 * saying which inserts report errors.
 */
module DrugbankUpsert {
  import opened Common
  import opened Batching

  /** `{http://www.drugbank.ca}drug`, the tag of a drug element. */
  const DrugTag := "{http://www.drugbank.ca}drug"

  const UrlPrefix := "https://go.drugbank.com/drugs/"

  const SourceName := "drugbank_local"

  /** An element of the stream with the texts of its first `drugbank-id`,
      `name` and `description` children (`None` for a missing child). */
  datatype Element = Element(tag: string, drugbankId: Option<string>, name: Option<string>,
                             description: Option<string>)

  /** A corpus record: `id`, `text`, `source`, `url`. */
  datatype DrugRecord = DrugRecord(id: string, text: string, source: string, url: string)

  /** `el.findtext(...) or ''`. The second look-up of `drugbank-id` reads the
      same first child again, so it never changes the outcome. */
  function TextOf(o: Option<string>): string
  {
    if o.Some? then o.value else ""
  }

  /** The record of one drug element, `drawn` being the uuid drawn for it. */
  function RecordOf(e: Element, drawn: string): DrugRecord
  {
    var dbid := TextOf(e.drugbankId);
    DrugRecord(if dbid != "" then dbid else drawn,
               Strip(TextOf(e.name) + "\n\n" + TextOf(e.description)),
               SourceName,
               if dbid != "" then UrlPrefix + dbid else "")
  }

  /** `stream_drugs`: one record per drug element, in document order; the
      element at position `i` draws `uuid(i)`. */
  function Stream(elements: seq<Element>, uuid: nat -> string): seq<DrugRecord>
  {
    if elements == [] then []
    else
      var i := |elements| - 1;
      Stream(elements[..i], uuid) + (if elements[i].tag == DrugTag then [RecordOf(elements[i], uuid(i))] else [])
  }

  /** Every streamed record is the record of a drug element, and the records
      keep the order of their elements. */
  lemma {:induction false} StreamOrigin(elements: seq<Element>, uuid: nat -> string, k: nat) returns (j: nat)
    requires k < |Stream(elements, uuid)|
    ensures j < |elements| && elements[j].tag == DrugTag
    ensures Stream(elements, uuid)[k] == RecordOf(elements[j], uuid(j))
    ensures |Stream(elements[..j], uuid)| == k
  {
    var i := |elements| - 1;
    var init := elements[..i];
    if k < |Stream(init, uuid)| {
      j := StreamOrigin(init, uuid, k);
      assert init[..j] == elements[..j];
    } else {
      j := i;
    }
  }

  /** Every drug element yields a record. */
  lemma {:induction false} StreamKeeps(elements: seq<Element>, uuid: nat -> string, j: nat)
    requires j < |elements| && elements[j].tag == DrugTag
    ensures RecordOf(elements[j], uuid(j)) in Stream(elements, uuid)
  {
    var i := |elements| - 1;
    var init := elements[..i];
    var last := if elements[i].tag == DrugTag then [RecordOf(elements[i], uuid(i))] else [];
    assert Stream(elements, uuid) == Stream(init, uuid) + last;
    if j < i {
      assert init[j] == elements[j];
      StreamKeeps(init, uuid, j);
    } else {
      assert last[0] == RecordOf(elements[j], uuid(j));
    }
  }

  /** A record comes from the `drugbank-id` when the element has a non-empty
      one, and then its url is the DrugBank page of that id; without one the
      id is the drawn uuid and the url is empty. The text is the name and the
      description separated by a blank line, with no whitespace at either
      end, and it is empty when both are missing. */
  lemma RecordShape(e: Element, drawn: string)
    ensures var r := RecordOf(e, drawn);
      && r.source == SourceName
      && (r.url == "" <==> TextOf(e.drugbankId) == "")
      && (r.url != "" ==> r.id == TextOf(e.drugbankId) && r.url == UrlPrefix + r.id)
      && (r.url == "" ==> r.id == drawn)
      && (r.text == [] || (!IsSpace(r.text[0]) && !IsSpace(r.text[|r.text| - 1])))
      && (e.name.None? && e.description.None? ==> r.text == "")
  {
    StripNoEdges(TextOf(e.name) + "\n\n" + TextOf(e.description));
    if e.name.None? && e.description.None? {
      assert IsBlank("\n\n");
      StripEmptyIffBlank("\n\n");
      assert TextOf(e.name) + "\n\n" + TextOf(e.description) == "\n\n";
    }
  }

  /** The ids `fetch_existing_ids` returns: those of the query rows, or none
      when the query raised. */
  function FetchedIds(rows: Option<seq<string>>): set<string>
  {
    if rows.None? then {} else set x | x in rows.value
  }

  /** `fetch_existing_ids`, with `rows` the ids the query answered. */
  method FetchExistingIds(rows: Option<seq<string>>) returns (ids: set<string>)
    ensures forall x :: x in ids <==> rows.Some? && x in rows.value
    ensures ids == FetchedIds(rows)
  {
    ids := {};
    if rows.None? {
      return;
    }
    var i := 0;
    while i < |rows.value|
      invariant 0 <= i <= |rows.value|
      invariant forall x :: x in ids <==> x in rows.value[..i]
    {
      assert rows.value[..i + 1] == rows.value[..i] + [rows.value[i]];
      ids := ids + {rows.value[i]};
      i := i + 1;
    }
    assert rows.value[..i] == rows.value;
  }

  /** `batch_insert`: 0 for no rows or when the insert reports errors,
      otherwise the number of rows. */
  function BatchInsert(rows: seq<DrugRecord>, failed: seq<DrugRecord> -> bool): (n: nat)
    ensures n == |rows| || n == 0
    ensures n == |rows| <==> rows == [] || !failed(rows)
  {
    if rows == [] then 0 else if failed(rows) then 0 else |rows|
  }

  /** The total `ingest_all` adds up over its inserts. */
  function TotalInserted(batches: seq<seq<DrugRecord>>, failed: seq<DrugRecord> -> bool): nat
  {
    if batches == [] then 0
    else TotalInserted(batches[..|batches| - 1], failed) + BatchInsert(batches[|batches| - 1], failed)
  }

  /** Whether `ingest_all` skips a record. */
  predicate Skipped(d: DrugRecord, existing: set<string>, skipExisting: bool)
  {
    skipExisting && d.id in existing
  }

  /** The records `ingest_all` batches, in stream order. */
  function Kept(docs: seq<DrugRecord>, existing: set<string>, skipExisting: bool): seq<DrugRecord>
  {
    if docs == [] then []
    else
      var last := docs[|docs| - 1];
      Kept(docs[..|docs| - 1], existing, skipExisting) + (if Skipped(last, existing, skipExisting) then [] else [last])
  }

  /** A record is batched exactly when it is streamed and not skipped. */
  lemma {:induction false} KeptExactly(docs: seq<DrugRecord>, existing: set<string>, skipExisting: bool, d: DrugRecord)
    ensures d in Kept(docs, existing, skipExisting) <==> d in docs && !Skipped(d, existing, skipExisting)
  {
    if docs != [] {
      var init := docs[..|docs| - 1];
      KeptExactly(init, existing, skipExisting, d);
      assert docs == init + [docs[|docs| - 1]];
    }
  }

  /** `ingest_all`, with the XML stream, the id query and the insert
      outcome given. It returns `total_parsed`, `total_inserted` and the
      batches handed to `batch_insert`, in order. */
  method IngestAll(elements: seq<Element>, uuid: nat -> string, existingRows: Option<seq<string>>,
                   batchSize: int, skipExisting: bool, failed: seq<DrugRecord> -> bool)
    returns (totalParsed: nat, totalInserted: nat, batches: seq<seq<DrugRecord>>)
    ensures totalParsed == |Stream(elements, uuid)|
    ensures Batched(batches, Kept(Stream(elements, uuid), FetchedIds(existingRows), skipExisting), batchSize)
    ensures totalInserted == TotalInserted(batches, failed)
  {
    var existing: set<string> := {};
    if skipExisting {
      existing := FetchExistingIds(existingRows);
    }
    assert skipExisting ==> existing == FetchedIds(existingRows);
    var docs := Stream(elements, uuid);
    totalParsed, totalInserted, batches := 0, 0, [];
    var batch: seq<DrugRecord> := [];
    while totalParsed < |docs|
      invariant totalParsed <= |docs|
      invariant Pending(batches, batch, Kept(docs[..totalParsed], FetchedIds(existingRows), skipExisting), batchSize)
      invariant totalInserted == TotalInserted(batches, failed)
    {
      batches, batch, totalInserted := Consume(batches, batch, totalInserted, docs, totalParsed, existing,
                                               FetchedIds(existingRows), skipExisting, batchSize, failed);
      totalParsed := totalParsed + 1;
    }
    assert docs[..totalParsed] == docs;
    batches, totalInserted := FinalBatch(batches, batch, totalInserted, Kept(docs, FetchedIds(existingRows), skipExisting),
                                         batchSize, failed);
  }

  /** One pass of the loop: record `n` is skipped when its id exists, and
      batched otherwise. */
  method Consume(batches: seq<seq<DrugRecord>>, batch: seq<DrugRecord>, total: nat, docs: seq<DrugRecord>, n: nat,
                 existing: set<string>, ghost fetched: set<string>, skipExisting: bool, batchSize: int,
                 failed: seq<DrugRecord> -> bool)
    returns (batches': seq<seq<DrugRecord>>, batch': seq<DrugRecord>, total': nat)
    requires n < |docs| && (skipExisting ==> existing == fetched)
    requires Pending(batches, batch, Kept(docs[..n], fetched, skipExisting), batchSize)
    requires total == TotalInserted(batches, failed)
    ensures Pending(batches', batch', Kept(docs[..n + 1], fetched, skipExisting), batchSize)
    ensures total' == TotalInserted(batches', failed)
  {
    var doc := docs[n];
    assert docs[..n + 1][..n] == docs[..n];
    batches', batch', total' := batches, batch, total;
    if !(skipExisting && doc.id in existing) {
      batches', batch', total' := AddDoc(batches, batch, total, doc, batchSize, failed, Kept(docs[..n], fetched, skipExisting));
    }
  }

  /** The final batch: inserted when it is not empty. */
  method FinalBatch(batches: seq<seq<DrugRecord>>, batch: seq<DrugRecord>, total: nat, ghost kept: seq<DrugRecord>,
                    batchSize: int, failed: seq<DrugRecord> -> bool)
    returns (batches': seq<seq<DrugRecord>>, total': nat)
    requires Pending(batches, batch, kept, batchSize) && total == TotalInserted(batches, failed)
    ensures Batched(batches', kept, batchSize)
    ensures total' == TotalInserted(batches', failed)
  {
    PendingDone(batches, batch, kept, batchSize);
    batches', total' := batches, total;
    if batch != [] {
      var inserted := BatchInsert(batch, failed);
      total' := total' + inserted;
      AppendLast(batches', batch);
      batches' := batches' + [batch];
    }
  }

  /** One kept record of the loop: append it to the open batch and insert the
      batch once it holds `batch_size` records. */
  method AddDoc(batches: seq<seq<DrugRecord>>, batch: seq<DrugRecord>, total: nat, doc: DrugRecord,
                batchSize: int, failed: seq<DrugRecord> -> bool, ghost seen: seq<DrugRecord>)
    returns (batches': seq<seq<DrugRecord>>, batch': seq<DrugRecord>, total': nat)
    requires Pending(batches, batch, seen, batchSize) && total == TotalInserted(batches, failed)
    ensures Pending(batches', batch', seen + [doc], batchSize)
    ensures total' == TotalInserted(batches', failed)
  {
    PendingAdd(batches, batch, seen, batchSize, doc);
    batches', batch', total' := batches, batch + [doc], total;
    if |batch'| >= batchSize {
      var inserted := BatchInsert(batch', failed);
      total' := total' + inserted;
      AppendLast(batches', batch');
      batches' := batches' + [batch'];
      batch' := [];
    }
  }

  /** With `skip_existing`, a record whose id the query returned is in no
      batch; every other streamed record is in one. */
  lemma SkippedNeverBatched(bs: seq<seq<DrugRecord>>, docs: seq<DrugRecord>, existing: set<string>,
                            skipExisting: bool, batchSize: int, d: DrugRecord)
    requires Batched(bs, Kept(docs, existing, skipExisting), batchSize)
    ensures Skipped(d, existing, skipExisting) ==> forall k :: 0 <= k < |bs| ==> d !in bs[k]
    ensures d in docs && !Skipped(d, existing, skipExisting) ==> exists k :: 0 <= k < |bs| && d in bs[k]
  {
    KeptExactly(docs, existing, skipExisting, d);
    forall k | 0 <= k < |bs| && d in bs[k]
      ensures d in Kept(docs, existing, skipExisting)
    {
      ConcatHolds(bs, k, d);
    }
    if d in Kept(docs, existing, skipExisting) {
      var k := ConcatOrigin(bs, d);
    }
  }

  /** Nothing is counted as inserted beyond the records handed over. */
  lemma {:induction false} InsertedAtMostBatched(bs: seq<seq<DrugRecord>>, failed: seq<DrugRecord> -> bool)
    ensures TotalInserted(bs, failed) <= |Concat(bs)|
  {
    if bs != [] {
      var init := bs[..|bs| - 1];
      InsertedAtMostBatched(init, failed);
      ConcatAppend(init, bs[|bs| - 1]);
      assert bs == init + [bs[|bs| - 1]];
    }
  }
}
