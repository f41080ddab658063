/**
 * The two records the ingestion pipeline writes to BigQuery, and their
 * `to_bq` row dictionaries. A row replaces every optional field except
 * `published` by its empty value (`x or ""`, `x or []`), so a row never
 * holds NULL there; `published` is passed through and may be NULL.
 */
module Schemas {
  import opened Common

  datatype Paper = Paper(
    id: string, title: string, summary: string, doi: Option<string>, source: string,
    url: Option<string>, published: Option<string>, journal: Option<string>,
    authors: Option<seq<string>>, pdfGcsUri: Option<string>)

  /** The `papers` row of `Paper.to_bq`. */
  datatype PaperRow = PaperRow(
    id: string, title: string, summary: string, doi: string, source: string,
    url: string, published: Option<string>, journal: string,
    authors: seq<string>, pdfGcsUri: string)

  datatype Chunk = Chunk(
    id: string, paperId: string, section: string, position: int,
    text: string, tokenCount: int, url: Option<string>)

  /** The `chunks` row of `Chunk.to_bq`. */
  datatype ChunkRow = ChunkRow(
    id: string, paperId: string, section: string, position: int,
    text: string, tokenCount: int, url: string)

  function PaperToBq(p: Paper): PaperRow
  {
    PaperRow(p.id, p.title, p.summary, OrEmpty(p.doi), p.source, OrEmpty(p.url),
             p.published, OrEmpty(p.journal), OrEmpty(p.authors), OrEmpty(p.pdfGcsUri))
  }

  function ChunkToBq(c: Chunk): ChunkRow
  {
    ChunkRow(c.id, c.paperId, c.section, c.position, c.text, c.tokenCount, OrEmpty(c.url))
  }

  /** The reading of an empty value as absent. */
  function Absent<T>(s: seq<T>): Option<seq<T>>
  {
    if s == [] then None else Some(s)
  }

  /** The paper a row reads back as, taking every empty optional field as
      absent. */
  function PaperOfRow(r: PaperRow): Paper
  {
    Paper(r.id, r.title, r.summary, Absent(r.doi), r.source, Absent(r.url),
          r.published, Absent(r.journal), Absent(r.authors), Absent(r.pdfGcsUri))
  }

  function ChunkOfRow(r: ChunkRow): Chunk
  {
    Chunk(r.id, r.paperId, r.section, r.position, r.text, r.tokenCount, Absent(r.url))
  }

  /** No optional field holds an empty value: `None` is used instead. */
  predicate Canonical<T>(o: Option<seq<T>>)
  {
    o != Some([])
  }

  predicate CanonicalPaper(p: Paper)
  {
    Canonical(p.doi) && Canonical(p.url) && Canonical(p.journal) && Canonical(p.authors)
      && Canonical(p.pdfGcsUri)
  }

  lemma AbsentOrEmpty<T>(o: Option<seq<T>>)
    ensures OrEmpty(Absent(OrEmpty(o))) == OrEmpty(o)
    ensures Absent(OrEmpty(o)) == o <==> Canonical(o)
  {
  }

  /** Every row is the row of the paper it reads back as. */
  lemma PaperRowRoundTrip(r: PaperRow)
    ensures PaperToBq(PaperOfRow(r)) == r
  {
    AbsentOrEmpty(Absent(r.doi));
    AbsentOrEmpty(Absent(r.authors));
  }

  /** A paper reads back from its row exactly when it uses `None`, never an
      empty value, for its optional fields. */
  lemma PaperRoundTrip(p: Paper)
    ensures PaperOfRow(PaperToBq(p)) == p <==> CanonicalPaper(p)
  {
    AbsentOrEmpty(p.doi);
    AbsentOrEmpty(p.url);
    AbsentOrEmpty(p.journal);
    AbsentOrEmpty(p.authors);
    AbsentOrEmpty(p.pdfGcsUri);
  }

  /** Two papers give the same row exactly when they agree once `None` and
      empty values are identified. */
  lemma PaperToBqCollapses(p: Paper, q: Paper)
    ensures PaperToBq(p) == PaperToBq(q) <==> PaperOfRow(PaperToBq(p)) == PaperOfRow(PaperToBq(q))
  {
    PaperRowRoundTrip(PaperToBq(p));
    PaperRowRoundTrip(PaperToBq(q));
  }

  lemma ChunkRowRoundTrip(r: ChunkRow)
    ensures ChunkToBq(ChunkOfRow(r)) == r
  {
    AbsentOrEmpty(Absent(r.url));
  }

  lemma ChunkRoundTrip(c: Chunk)
    ensures ChunkOfRow(ChunkToBq(c)) == c <==> Canonical(c.url)
  {
    AbsentOrEmpty(c.url);
  }
}
