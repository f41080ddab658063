# BioMind core, modelled in Dafny

BioMind is a biomedical retrieval-augmented generation (RAG) system. A question is answered in these steps:
- passages are retrieved from a vector index, from a BigQuery corpus and from live connectors (PubMed, UniProt, DrugBank);
- the passages are ranked and cut to a token budget;
- a grounded prompt goes to a chat model;
- the answer's citations are validated;
- a hypothesis's confidence is scored.

Ingestion scripts chunk text and write it to BigQuery and to Matching Engine datapoints. An HTTP API and a connector switchboard sit around this.

This project models the deterministic logic of that core. Every external service is an input of the model:
- models and embeddings;
- BigQuery, Cloud Storage, Entrez and HTTP;
- the clock, hashing and uuids.

Each source file has one Dafny module:

| module | source |
|---|---|
| `ContextManager` | passage recency/quality scoring, weighted final score, stable sort, greedy token-budgeted selection with provenance |
| `Confidence` | evidence support, cross-agent consistency, novelty and the weighted confidence percentage |
| `ResponseGenerator` | grounded prompt, reply text extraction, citation validation, enhanced summary |
| `TextUtils` | `clean_text` |
| `AutoIngest` | overlapping character windows, datapoint records and the exit codes of the ingest script |
| `ChunkCorpus` | line-packing chunker, chunk rows and batched inserts |
| `ParseChunks` | word-block chunker and chunk construction |
| `Cache` | the TTL response cache, a class whose dictionary the methods update |
| `HybridSearch` | the merge of lexical and vector hits, scoring, sort and cut |
| `CorpusLoader` | URL derivation, JSONL-to-mapping loading, the corpus cache, the backend report |
| `RagService` | model-name normalisation and the `run_rag` flow up to generation |
| `Config` | typed configuration lookup |
| `PubmedConnector`, `UniprotConnector`, `Keywords` | fallback query keywords and record shaping of the live connectors |
| `HypothesisSynthesizer` | evidence and instruction prompts, text extraction, error returns |
| `Coordinator` | no-evidence exit, source partitions, title/abstract capture, evidence, confidence normalisation |
| `VertexRetriever` | document chunking with source-id stamping, date filter, datapoint ids and batches |
| `Schemas` | `Paper.to_bq`, `Chunk.to_bq` |
| `ApiServer` | CORS origins, upload limits of the multipart search, the source 404 |
| `DrugbankUpsert` | DrugBank record shaping, existing-id skip and batched inserts |
| `GenerateDatapoints` | input filtering, datapoint shape, upload paths, exit codes |
| `ManageConnectors` | connector status and toggle |
| `Common`, `Sorting`, `Batching` | Python string and value operations, stable descending sort, the flush-on-full batching loop |

Loops of the source are `method`s proved against specification functions. The properties of those functions are proved as lemmas. Objects that the source updates in place are classes:
- the response cache;
- the corpus cache;
- the `.env` file;
- the documents whose metadata the retriever stamps.

Scores are `real`. `exp`, `log1p`, cosine similarity and NLI verdicts are parameters, and only their stated laws are assumed.

## Model

| member | source | states |
|---|---|---|
| TextUtils.CleanTextIsJoinOfWords | BioMind/utils/text_utils.py:3-6 | cleaning a text gives its whitespace-separated words joined by single spaces |
| TextUtils.CollapseShape | BioMind/utils/text_utils.py:5 | the whitespace-run substitution leaves at most one space before and after the single-space join of the words, and none before when the text starts with a non-space |
| TextUtils.CleanTextNoEdges | BioMind/utils/text_utils.py:5 | the cleaned text has no whitespace at either end |
| TextUtils.CleanTextSingleSpaces | BioMind/utils/text_utils.py:5 | every whitespace character left is one plain space between two non-whitespace characters |
| TextUtils.CleanTextKeepsNonSpace | BioMind/utils/text_utils.py:3-6 | the non-whitespace characters survive, all of them and in order |
| TextUtils.CleanTextIdempotent | BioMind/utils/text_utils.py:3-6 | cleaning a cleaned text changes nothing |
| TextUtils.CleanTextOfBlank | BioMind/utils/text_utils.py:5 | an empty or all-whitespace text cleans to the empty text |
| Cache.SimpleCache.constructor | BioMind/utils/cache_utils.py:10-12 | a new cache is empty and keeps the given time-to-live |
| Cache.SimpleCache.Get | BioMind/utils/cache_utils.py:18-30 | `get` returns what the lookup rule gives and deletes the entry under its key when that entry has expired |
| Cache.SimpleCache.Set | BioMind/utils/cache_utils.py:32-38 | `set` stores the data stamped with the current time under the key and changes no other key |
| Cache.SimpleCache.Clear | BioMind/utils/cache_utils.py:40-42 | `clear` empties the cache |
| Cache.SimpleCache.CleanupExpired | BioMind/utils/cache_utils.py:44-52 | `cleanup_expired` keeps exactly the entries that are still valid |
| Cache.LookupSome | BioMind/utils/cache_utils.py:22-25 | `get` returns data exactly when an entry exists under the key and is younger than the time-to-live, and then it returns that entry's data |
| Cache.LookupTouchesOnlyKey | BioMind/utils/cache_utils.py:22-28 | `get` deletes the entry under its key when it has expired, keeps it otherwise, and leaves every other entry as it was |
| Cache.SetThenLookup | BioMind/utils/cache_utils.py:32-38 | a `get` within the time-to-live of a `set` returns the data just stored, and a `set` changes no other key's `get` |
| Cache.ClearedMisses | BioMind/utils/cache_utils.py:40-42 | after `clear` every `get` misses |
| Cache.UnexpiredExactly | BioMind/utils/cache_utils.py:46-52 | the cleanup removes exactly the entries aged the time-to-live or more and keeps the others untouched |
| Cache.CleanupInvisible | BioMind/utils/cache_utils.py:44-52 | a cleanup changes no `get` made at the same moment |
| Cache.KeysOfSameJoinCollide | BioMind/utils/cache_utils.py:14-16 | two different query and source pairs that join to the same string share one key |
| Schemas.AbsentOrEmpty | BioMind/pipeline/schemas.py:32-38 | the `x or ""` and `x or []` defaults lose exactly the difference between a missing and an empty optional value |
| Schemas.PaperRowRoundTrip | BioMind/pipeline/schemas.py:27-39 | every paper row is the `to_bq` row of the paper it reads back as |
| Schemas.PaperRoundTrip | BioMind/pipeline/schemas.py:27-39 | a paper reads back from its `to_bq` row exactly when it uses `None`, never an empty value, for its optional fields |
| Schemas.PaperToBqCollapses | BioMind/pipeline/schemas.py:27-39 | two papers give the same row exactly when they agree once `None` and empty values are identified |
| Schemas.ChunkRowRoundTrip | BioMind/pipeline/schemas.py:51-60 | every chunk row is the `to_bq` row of the chunk it reads back as |
| Schemas.ChunkRoundTrip | BioMind/pipeline/schemas.py:51-60 | a chunk reads back from its row exactly when its url is `None` or non-empty |
| HybridSearch.FirstSeen | BioMind/pipeline/hybrid_search.py:57-63 | the key order of the merged dictionary holds every id of the hits, each once, in order of first appearance |
| HybridSearch.FirstSeenSnoc | BioMind/pipeline/hybrid_search.py:59-63 | assigning an existing key keeps its place; a new key goes last |
| HybridSearch.Head | BioMind/pipeline/hybrid_search.py:71 | `results[:k]` is a prefix of length `min(k, n)`, and a negative `k` drops `-k` results from the end |
| HybridSearch.LexicalStep | BioMind/pipeline/hybrid_search.py:58-59 | one lexical hit overwrites the entry of its id with its score and distance 0.0, keeping the invariant of the lexical loop |
| HybridSearch.VectorStep | BioMind/pipeline/hybrid_search.py:60-63 | one vector hit sets the distance of the existing entry, or of a new entry with lexical score 0.0, keeping the invariant of the vector loop |
| HybridSearch.MergeLexical | BioMind/pipeline/hybrid_search.py:58-59 | after the lexical loop every lexical id has one entry holding the score of its last hit |
| HybridSearch.MergeVector | BioMind/pipeline/hybrid_search.py:60-63 | after the vector loop every id of either search has one entry holding the score of its last lexical hit and the distance of its last vector hit |
| HybridSearch.Merge | BioMind/pipeline/hybrid_search.py:57-66 | the merged values are the entries of all ids in first-appearance order |
| HybridSearch.HybridMerge | BioMind/pipeline/hybrid_search.py:56-71 | the merge, scoring, stable descending sort and cut to `k` give the specified results |
| HybridSearch.LastLexicalIn | BioMind/pipeline/hybrid_search.py:58-59 | an id has a lexical score exactly when some lexical hit has that id |
| HybridSearch.LastVectorIn | BioMind/pipeline/hybrid_search.py:60-62 | an id has a distance exactly when some vector hit has that id |
| HybridSearch.LastLexicalIndex | BioMind/pipeline/hybrid_search.py:58-59 | a lexical score comes from a hit with that id and no later hit has the same id |
| HybridSearch.LastLexicalAt | BioMind/pipeline/hybrid_search.py:58-59 | the last hit with an id gives that id's lexical score |
| HybridSearch.HitIsEntry | BioMind/pipeline/hybrid_search.py:66-69 | every result is the scored entry of one of the merged ids |
| HybridSearch.HybridIds | BioMind/pipeline/hybrid_search.py:57-71 | each id appears at most once, and it comes from one of the two searches |
| HybridSearch.HybridScores | BioMind/pipeline/hybrid_search.py:58-69 | an id found only lexically has distance 0.0, one found only by vector search has lexical score 0.0, each kept score is that of the last hit with the id, and the score is `0.6 * (1 - distance) + 0.4 * lexical score` |
| HybridSearch.HybridOrder | BioMind/pipeline/hybrid_search.py:70-71 | the results are in non-increasing score order, at most `k` of them, and with `k` at least the number of ids they are a permutation of all scored entries |
| HybridSearch.HybridStable | BioMind/pipeline/hybrid_search.py:70-71 | for every `k`, the results of one score are the first results of that score in merge order, and all of them when `k` covers every distinct id |
| ParseChunks.JoinGroups | BioMind/pipeline/parse_chunks.py:25-28 | one space-joined block per word group |
| ParseChunks.ChunkBlocks | BioMind/pipeline/parse_chunks.py:17-29 | the loop returns the specified blocks |
| ParseChunks.AddWord | BioMind/pipeline/parse_chunks.py:22-26 | one word of the loop keeps the invariant: the flushed blocks are the full groups so far and the current block the rest |
| ParseChunks.BlocksOfBlank | BioMind/pipeline/parse_chunks.py:19-29 | blank text gives no blocks, for every `max_tokens` |
| ParseChunks.BlockWords | BioMind/pipeline/parse_chunks.py:19-28 | the words of block `k` are the `k`-th group of the text's words |
| ParseChunks.BlockSizes | BioMind/pipeline/parse_chunks.py:22-28 | every block holds between one and `max_tokens` words (one when `max_tokens` is below 1), and all but the last exactly `max_tokens` |
| ParseChunks.BlocksJoin | BioMind/pipeline/parse_chunks.py:17-29 | the blocks joined with spaces are the text's words joined with spaces: no word is lost, duplicated or reordered |
| ParseChunks.BlockCount | BioMind/pipeline/parse_chunks.py:17-29 | the number of blocks is the word count divided by `max_tokens`, rounded up |
| ParseChunks.BlockChunks | BioMind/pipeline/parse_chunks.py:73-75 | one chunk per block |
| ParseChunks.BlockChunksAt | BioMind/pipeline/parse_chunks.py:73-75 | chunk `i` is built from block `i` with number `i + 1` |
| ParseChunks.BuildChunks | BioMind/pipeline/parse_chunks.py:72-75 | the loop builds the specified chunks |
| ParseChunks.CliChunks | BioMind/pipeline/parse_chunks.py:71-75 | chunk `i` has id `<paper_id>-c<i+1>`, position `i + 1` and between 1 and 200 tokens, exactly 200 unless it is the last |
| ParseChunks.UpsertCountsAll | BioMind/pipeline/parse_chunks.py:49-58 | the count is the number of chunks whatever the insert reports, and 0 exactly for no chunks |
| Sorting.Insert | BioMind/pipeline/hybrid_search.py:70 | inserting adds exactly the one element to the multiset of the list |
| Sorting.InsertSorted | BioMind/pipeline/hybrid_search.py:70 | inserting into a list in non-increasing key order keeps that order |
| Sorting.SortDescSorted | BioMind/pipeline/hybrid_search.py:70 | `sort(key=..., reverse=True)` leaves the list in non-increasing key order |
| Sorting.SortDescPermutation | BioMind/rag/context_manager.py:157 | the sorted list is a permutation of the input |
| Sorting.SortDescStable | BioMind/rag/context_manager.py:157 | elements with equal keys keep their relative order, as Python's stable sort does with `reverse=True` |
| Sorting.SortDescDistinctBy | BioMind/pipeline/hybrid_search.py:70 | sorting keeps elements that differ in some field distinct |
| Batching.Cap | BioMind/scripts/upsert_drugbank_to_bq.py:88 | a batch size below 1 flushes after every item, since the length test already holds after one append |
| Batching.PendingAdd | BioMind/scripts/upsert_drugbank_to_bq.py:87-92 | appending one item and flushing the batch once its length reaches the batch size keeps the loop invariant: full batches flushed, the rest pending |
| Batching.PendingDone | BioMind/scripts/upsert_drugbank_to_bq.py:94-96 | flushing the non-empty remainder after the loop gives the batching of all the items |
| Batching.FirstBatch | BioMind/scripts/chunk_corpus_to_bq.py:109-113 | the first batch holds the first `min(batch size, n)` items and the rest are batched the same way |
| Batching.BatchedUnique | BioMind/scripts/chunk_corpus_to_bq.py:109-117 | the batches are determined by the items and the batch size |
| Batching.BatchCount | BioMind/scripts/chunk_corpus_to_bq.py:109-117 | there are `ceil(n / batch size)` batches |
| Batching.BatchesBatched | BioMind/rag/vertex_retriever.py:136-138 | cutting the list `batch_size` items at a time, as `datapoints[i:i + batch_size]` does, is a batching of it |
| Batching.BatchedIsBatches | BioMind/scripts/upsert_drugbank_to_bq.py:87-96 | the flush-on-full loop and slicing by `batch_size` give the same batches |
| Batching.BatchesHoldItems | BioMind/rag/vertex_retriever.py:137-138 | every batched item is one of the items |
| Keywords.RunLength | BioMind/connectors/pubmed/connector.py:35 | the greedy `[a-z0-9\-]+` run is the longest prefix in the continuation class: every character of it is in the class and the next one is not |
| Keywords.StepLength | BioMind/connectors/pubmed/connector.py:35 | each step of the `re.findall` scan advances by at least one character and stays within the text |
| Keywords.TokensStep | BioMind/connectors/pubmed/connector.py:35 | one step of the scan finds at most one match, at the current position, and the scan resumes after it |
| Keywords.TokensShape | BioMind/connectors/pubmed/connector.py:35 | every token `re.findall` returns is a slice of the text of at least two characters, opening with a start character, holding only continuation characters and not extendable to the right |
| Keywords.TokenShift | BioMind/connectors/pubmed/connector.py:35 | a match in the rest of the text after the scan position is a match in the whole text |
| Keywords.FirstToken | BioMind/connectors/pubmed/connector.py:35 | a start character followed by a continuation character opens a match that runs to the end of the continuation run |
| Keywords.UniprotClassIsPubmedClass | connectors/uniprot/connector.py:22 | the `A-Z` of the UniProt pattern never matters, since it runs on lower-cased text: it finds the tokens the PubMed pattern finds |
| Keywords.Unstopped | BioMind/connectors/pubmed/connector.py:39 | removing stop words never lengthens the list |
| Keywords.UnstoppedExactly | BioMind/connectors/pubmed/connector.py:39 | a token survives exactly when it is a token and not a stop word |
| Keywords.KeywordsShape | BioMind/connectors/pubmed/connector.py:33-39 | at most `limit` keywords, none a stop word, each a token of the lower-cased query, and exactly `limit` when there are that many non-stop tokens |
| Keywords.KeywordIsToken | BioMind/connectors/pubmed/connector.py:33-39 | each keyword is a lower-case match of the pattern in the query |
| PubmedConnector.TaTermRoundTrip | BioMind/connectors/pubmed/connector.py:44 | the title/abstract term gives back its keyword, and it is quoted exactly when the keyword holds a hyphen |
| PubmedConnector.FallbackTermHolds | BioMind/connectors/pubmed/connector.py:44-45 | every keyword's term occurs in the `OR`-joined fallback term |
| PubmedConnector.FallbackKeywordsRoundTrip | BioMind/connectors/pubmed/connector.py:33-44 | every fallback keyword can be read back from its term |
| PubmedConnector.Records | BioMind/connectors/pubmed/connector.py:58-78 | at most one record per PMID |
| PubmedConnector.FetchRecords | BioMind/connectors/pubmed/connector.py:58-78 | the article loop returns the specified records |
| PubmedConnector.FetchRealtime | BioMind/connectors/pubmed/connector.py:7-80 | the connector makes the specified searches and returns the specified records |
| PubmedConnector.RecordOrigin | BioMind/connectors/pubmed/connector.py:59-74 | each record comes from a PMID whose fetch succeeded, marked `pubmed_articles` with score 1.0 |
| PubmedConnector.AllFetched | BioMind/connectors/pubmed/connector.py:59-77 | a failed fetch skips only its own article: with every fetch succeeding there is one record per PMID, in order |
| PubmedConnector.Flow | BioMind/connectors/pubmed/connector.py:12-56 | disabled, nothing is searched; the fallback search runs exactly when the first search succeeded with no PMIDs and the query has keywords; records come from the last search |
| UniprotConnector.SmartQueryShape | connectors/uniprot/connector.py:48-49 | the retry query starts with the reviewed-human restriction and mentions every keyword |
| UniprotConnector.KeywordizeLowerClass | connectors/uniprot/connector.py:20-25 | `_keywordize` finds the keywords of the lower-case pattern `[a-z0-9][a-z0-9\-]+`, at most six, stop words removed |
| UniprotConnector.ReadRecords | connectors/uniprot/connector.py:69-83 | the row loop returns one record per row, in order |
| UniprotConnector.FetchRealtime | connectors/uniprot/connector.py:9-83 | the connector makes exactly the requests and returns exactly the records that `Flow` characterises |
| UniprotConnector.RetryWhenEmpty | connectors/uniprot/connector.py:44-63 | the keyword retry is sent exactly when the first answer has no data row and the query has keywords; its stripped answer replaces the text, and a raised retry gives none |
| UniprotConnector.RecordsShape | connectors/uniprot/connector.py:72-80 | each record has id and accession both the row's Entry column, the other columns or "", source `uniprot_records` and score 1.0 |
| UniprotConnector.Flow | connectors/uniprot/connector.py:14-67 | disabled, nothing is requested; the retry runs exactly when the first answer has no data row and the query has keywords; a raised request or a text without data rows gives no records, otherwise one per TSV row |
| Confidence.CountPresent | confidence_evaluator.py:21 | each pattern counts at most once, and the count is 0 exactly when no pattern occurs |
| Confidence.TextQuality | confidence_evaluator.py:20-22 | the quality of one text lies in [0, 1] |
| Confidence.QualitySumBounds | confidence_evaluator.py:18-22 | the summed quality lies between 0 and the number of texts |
| Confidence.EvidenceScoreBounds | confidence_evaluator.py:24-27 | the evidence score lies in [0, 1] |
| Confidence.EvidenceSupport | confidence_evaluator.py:7-28 | the loop computes the evidence score, which lies in [0, 1] |
| Confidence.Row | confidence_evaluator.py:59-65 | the inner loop yields one similarity per later embedding |
| Confidence.Similarities | confidence_evaluator.py:58-65 | the double loop collects exactly the similarities of all pairs `i < j`, row by row |
| Confidence.PairsCount | confidence_evaluator.py:58-65 | there is one similarity per unordered pair of embeddings |
| Confidence.EmbedAll | confidence_evaluator.py:48-54 | a successful embedding pass gives one vector per text |
| Confidence.Clamp01 | confidence_evaluator.py:69 | `min(max(x, 0), 1)` lies in [0, 1] |
| Confidence.ConsistencyScoreBounds | confidence_evaluator.py:36-77 | the consistency lies in [0.25, 1], and is 0.5 for fewer than two texts |
| Confidence.Consistency | confidence_evaluator.py:30-77 | the nested loops compute the consistency score, within [0.25, 1] and 0.5 for fewer than two texts |
| Confidence.EmbedAllFails | confidence_evaluator.py:47-54 | one failed embedding fails the whole pass, so the score falls back to the NLI term |
| Confidence.Novelty | confidence_evaluator.py:79-103 | the novelty lies in [0, 1] |
| Confidence.NoveltyOfNeutral | confidence_evaluator.py:95-101 | with no known-relationship pattern present the novelty is exactly 1 |
| Confidence.NoveltyPenalty | confidence_evaluator.py:95-101 | with no novelty indicator, each present pattern costs 0.2, floored at 0 |
| Confidence.CleanEvidence | confidence_evaluator.py:116 | cleaning never adds texts |
| Confidence.CleanEvidenceOfBlanks | confidence_evaluator.py:116 | empty texts are dropped, so all-empty evidence leaves none |
| Confidence.WithoutEvidence | confidence_evaluator.py:120-129 | without evidence the percentage lies in [17.5, 42.5] |
| Confidence.ConfidenceOfNoEvidence | confidence_evaluator.py:120-129 | without evidence only the novelty varies the percentage |
| Confidence.EvaluateConfidence | confidence_evaluator.py:105-136 | the percentage is the 40/35/25 weighting of the three scores of the cleaned texts, times 100, and lies in [0, 100] |
| ContextManager.RecencyScore | BioMind/rag/context_manager.py:60-71 | 0.5 without a date or for a future date; otherwise in (0, 1] |
| ContextManager.AgeDaysMonotone | BioMind/rag/context_manager.py:65 | an older date is at least as many whole days old, and a past date is never negative in age |
| ContextManager.RecencyMonotone | BioMind/rag/context_manager.py:65-71 | an older document never scores higher than a newer one |
| ContextManager.RecencyOfSameDay | BioMind/rag/context_manager.py:65-71 | a document less than a day old scores exactly 1 |
| ContextManager.LiveBonus | BioMind/rag/context_manager.py:77-84 | the boost is 0.3 exactly when both fields read without raising and the priority is `live` or the source is PubMed or UniProt, else 0 |
| ContextManager.SourceTypeBonus | BioMind/rag/context_manager.py:87-93 | the source-type boost lies in [0, 0.3] and is 0 for any other type |
| ContextManager.CitationBonus | BioMind/rag/context_manager.py:96-100 | the citation boost is at most 0.2, 0 for no citations, and never negative |
| ContextManager.ImpactBonus | BioMind/rag/context_manager.py:103-106 | the impact boost lies in [0, 0.1] and is 0.1 exactly from impact factor 5 |
| ContextManager.QualityScore | BioMind/rag/context_manager.py:73-108 | the score raises exactly for a non-string source type or a non-numeric citation count or impact factor; otherwise it lies in [0.5, 1] |
| ContextManager.QualityOfPlainMetadata | BioMind/rag/context_manager.py:75-108 | metadata with no quality signal scores the 0.5 baseline |
| ContextManager.ScoreOne | BioMind/rag/context_manager.py:123-154 | a scored passage keeps content, metadata and semantic score, its final score is the weighted sum, recency in (0, 1] and quality in [0.5, 1] |
| ContextManager.DateAwareness | BioMind/rag/context_manager.py:127-133 | an offset-aware date, given as a datetime or parsed from an ISO string, makes the pair raise at `datetime.now() - doc_date`; with a naive date the pair raises exactly when the quality score raises |
| ContextManager.AwareDateRaises | BioMind/rag/context_manager.py:123-133 | one zipped passage with an offset-aware date makes `score_passages` raise |
| ContextManager.ScoredUpToNext | BioMind/rag/context_manager.py:123-154 | one iteration of the scoring loop keeps its invariant |
| ContextManager.ScoreAllOf | BioMind/rag/context_manager.py:123-154 | a loop that got through every zipped pair produced the specified scores |
| ContextManager.ScorePassages | BioMind/rag/context_manager.py:110-158 | raises exactly when a pair raises (a source type, citation count or impact factor the quality score cannot use, a truthy `date` that is neither a string nor a datetime, or an offset-aware date); otherwise the scores of the `min(len)` zipped pairs, sorted by final score in non-increasing order, a permutation of the unsorted scores |
| ContextManager.ScorePassagesStable | BioMind/rag/context_manager.py:157 | passages whose final scores tie keep their input order |
| ContextManager.Above | BioMind/rag/context_manager.py:184-185 | every passage left after the threshold filter is at or above the threshold |
| ContextManager.ToDocumentKeepsMetadata | BioMind/rag/context_manager.py:193-202 | a selected document keeps the content and every metadata key, and the four scores override same-named keys |
| ContextManager.SourceInfoRules | BioMind/rag/context_manager.py:206-216 | ids default to `unknown`, the entry's metadata is the passage's without the two id keys, and `url` is copied up exactly when truthy |
| ContextManager.SelectPassages | BioMind/rag/context_manager.py:160-230 | the documents and sources are those of the passages the greedy scan keeps, the token total is theirs and within the budget, and the criteria echo the inputs |
| ContextManager.SelectSkip | BioMind/rag/context_manager.py:184-185 | a passage below the threshold is skipped |
| ContextManager.SelectStop | BioMind/rag/context_manager.py:188-190 | the first passage that would overflow the budget ends the scan |
| ContextManager.SelectTake | BioMind/rag/context_manager.py:203-219 | a passage that fits is taken and its length added |
| ContextManager.TokenSumAppend | BioMind/rag/context_manager.py:219 | the running length grows by each taken passage's word count |
| ContextManager.SelectIsPrefixOfAbove | BioMind/rag/context_manager.py:183-190 | the kept passages are a prefix of the passages at or above the threshold |
| ContextManager.SelectWithinBudget | BioMind/rag/context_manager.py:188-219 | the kept passages' tokens never exceed the budget |
| ContextManager.SelectIsMaximal | BioMind/rag/context_manager.py:189-190 | the scan stops only where it must: adding the next passage above the threshold would overflow the budget |
| ResponseGenerator.Instructions | BioMind/rag/response_generator.py:64-76 | the prompt opens with the thirteen fixed instruction lines |
| ResponseGenerator.IndexLines | BioMind/rag/response_generator.py:56-60 | one index line per context document |
| ResponseGenerator.SourcesIndex | BioMind/rag/response_generator.py:55-60 | the index loop gives the header line and then one numbered line per document, in order |
| ResponseGenerator.IndexLinesAppend | BioMind/rag/response_generator.py:56-60 | each iteration appends the line of the next document, numbered from 1 |
| ResponseGenerator.AppendContextBlocks | BioMind/rag/response_generator.py:84-86 | the context loop appends one tagged block per document, in order |
| ResponseGenerator.ConstructPrompt | BioMind/rag/response_generator.py:47-96 | the prompt is the specified lines joined with newlines |
| ResponseGenerator.PromptLinesAt | BioMind/rag/response_generator.py:63-89 | the query line, the context blocks and the sources index sit at fixed positions among the prompt lines |
| ResponseGenerator.PromptMentionsQuery | BioMind/rag/response_generator.py:78-96 | the prompt carries `Query: <query>` |
| ResponseGenerator.PromptCitesEverySource | BioMind/rag/response_generator.py:84-96 | the prompt carries the `[Source ID: ...]` tag of every context document, the id defaulting to `unknown` |
| ResponseGenerator.ContextBlockHasTag | BioMind/rag/response_generator.py:85-86 | a context block carries its document's citation tag |
| ResponseGenerator.PromptIndexesEverySource | BioMind/rag/response_generator.py:56-89 | the prompt carries the numbered index line of every context document |
| ResponseGenerator.PartText | BioMind/rag/response_generator.py:148-159 | a content part contributes at most one string |
| ResponseGenerator.NonEmpty | BioMind/rag/response_generator.py:160 | the joined parts are all non-empty |
| ResponseGenerator.ExtractIgnoresEmptyPart | BioMind/rag/response_generator.py:160 | a trailing empty text part does not change the extracted text |
| ResponseGenerator.ExtractOfStringParts | BioMind/rag/response_generator.py:145-160 | a list of plain string parts is the non-empty ones joined with newlines |
| ResponseGenerator.StringPartsText | BioMind/rag/response_generator.py:148-150 | each plain string part contributes itself |
| ResponseGenerator.Captures | BioMind/rag/response_generator.py:215-216 | every captured id is non-empty and holds no `]` |
| ResponseGenerator.CapturesOfTag | BioMind/rag/response_generator.py:215-216 | a citation tag at the front is captured whole and the scan resumes after it |
| ResponseGenerator.CapturesOfMultiIdTag | BioMind/rag/response_generator.py:214-215 | the multi-id tag the prompt suggests, `[Source ID: 1, 2]`, is captured as the single id `1, 2` |
| ResponseGenerator.SpeculationWarnings | BioMind/rag/response_generator.py:258-262 | at most one warning per marker |
| ResponseGenerator.CollectCitations | BioMind/rag/response_generator.py:214-216 | the loop collects the set of captured ids |
| ResponseGenerator.ScanMarkers | BioMind/rag/response_generator.py:258-262 | the marker loop gives the specified warnings, in marker order |
| ResponseGenerator.ValidateResponse | BioMind/rag/response_generator.py:197-264 | coverage is cited over available; validation fails exactly when more than 70% of sources are uncited and none mentions DrugBank; the warnings are the uncited one, the short one under 15 words and the speculation ones, in that order |
| ResponseGenerator.FirstPersonMarkersNeverFire | BioMind/rag/response_generator.py:250-259 | `I believe` and `I think` are matched against lower-cased text, so they are never reported |
| ResponseGenerator.SpeculationOnlyFound | BioMind/rag/response_generator.py:258-262 | every speculation warning names a marker found in the lower-cased text |
| ResponseGenerator.FailureNeedsManyUncited | BioMind/rag/response_generator.py:228-242 | a failure carries the one many-uncited warning; a DrugBank source never fails; citing every source passes with no citation warning |
| ResponseGenerator.CitedSetMembers | BioMind/rag/response_generator.py:214-216 | a value is cited exactly when it is one of the captured strings |
| ResponseGenerator.CoverageCanExceedOne | BioMind/rag/response_generator.py:224-225 | ids cited but not available still count, so one source and two cited ids give coverage 2 |
| ResponseGenerator.CapturesOfTwoTags | BioMind/rag/response_generator.py:215-216 | two adjacent tags give their two ids, in order |
| ResponseGenerator.FormatResponse | BioMind/rag/response_generator.py:97-113 | the query, text and provenance are passed through, and the metadata carries the formatting time, the model name and the temperature |
| ResponseGenerator.GenerateResponse | BioMind/rag/response_generator.py:116-187 | the model is asked with the constructed prompt and the reply text is extracted into the formatted response with the provenance unchanged and the metadata of the current time and the generator's settings |
| ResponseGenerator.SummarizeSources | BioMind/rag/response_generator.py:287-295 | one summary per provenance source, in order |
| ResponseGenerator.EnhanceResponse | BioMind/rag/response_generator.py:266-316 | the response and validation are kept, the source summaries and average score are computed, and since provenance entries carry no `text` the detailed confidence is that of empty evidence |
| RagService.ModelNameChoice | BioMind/rag/service.py:50-67 | no choice gives the default; a choice holding `/` or starting with `gemini` after trimming and lower-casing is kept as given; one mentioning `claude` gives the Claude path; anything else the default |
| RagService.ClaudeModelKept | BioMind/rag/service.py:61-65 | the Claude path, chosen again, is kept as it is |
| RagService.ClaudeModelTrimmed | BioMind/rag/service.py:59-65 | the Claude path has no edge whitespace |
| RagService.ClaudeModelHasSlash | BioMind/rag/service.py:61-65 | the lower-cased Claude path holds `/` |
| RagService.ModelNameStable | BioMind/rag/service.py:50-67 | a name chosen over the default normalises to itself |
| RagService.EndpointRequired | BioMind/rag/service.py:86-94 | with no endpoint in the environment and an empty class default, the configuration guard refuses to run |
| RagService.NeighborIdsExactly | BioMind/rag/service.py:105 | a value is a neighbour id exactly when it is the truthy `datapoint_id` of some neighbour |
| RagService.ListOf | BioMind/rag/service.py:111 | `list` of a set holds its elements, each once |
| RagService.LookupIds | BioMind/rag/service.py:105-125 | the lookup ids are the neighbour ids as strings, or in hybrid mode when the lexical search answers exactly the union of both lists, each once |
| RagService.AddLive | BioMind/rag/service.py:138-195 | one connector's loop appends a document and a persist row for each record with a text, in order |
| RagService.GatherLive | BioMind/rag/service.py:133-212 | the live fallback gives the PubMed, then UniProt, then DrugBank documents and their rows; a connector that raised contributes nothing |
| RagService.ProteinTextNonEmpty | BioMind/rag/service.py:176-177 | a UniProt record always has a text, since it starts with `Protein:` |
| RagService.ProteinDocsAll | BioMind/rag/service.py:169-189 | every UniProt record becomes a live document, in order |
| RagService.ArticleDocsShape | BioMind/rag/service.py:138-155 | every PubMed document comes from a record with a non-empty text, is marked live, and links to PubMed exactly when the PMID is all digits |
| RagService.ArticleRowId | BioMind/rag/service.py:156-157 | a persisted PubMed row always has a non-empty id: the PMID, or the hash-based one |
| RagService.KeepSources | BioMind/rag/service.py:229-232 | filtering never lengthens the list |
| RagService.KeepSourcesExactly | BioMind/rag/service.py:225-232 | an entry is kept exactly when its source is allowed |
| RagService.KeepSourcesTwice | BioMind/rag/service.py:228-232 | filtering by mode and then by source filters is filtering once by both sets |
| RagService.KeepSourcesAll | BioMind/rag/service.py:229-232 | when every source is allowed the filter keeps everything |
| RagService.FilterEntriesExactly | BioMind/rag/service.py:228-232 | an entry survives exactly when Scholar mode allows its source and a non-empty filter list names it |
| RagService.Uploads | BioMind/rag/service.py:241-256 | never more upload documents than texts |
| RagService.AppendUploads | BioMind/rag/service.py:241-256 | the upload loop appends the specified documents |
| RagService.UploadOrigin | BioMind/rag/service.py:242-256 | each upload document comes from a non-blank text and is numbered by that text's position among all the texts |
| RagService.UploadDocShape | BioMind/rag/service.py:245-255 | an upload document has a non-empty stripped text and id `upload-<n>` |
| RagService.BlankUploadKeepsNumbering | BioMind/rag/service.py:242-250 | a blank text is skipped but still uses up its number |
| RagService.RunRag | BioMind/rag/service.py:74-298 | an incomplete configuration raises with no lookup and no persistence; otherwise the lookup ids, the persisted rows and the outcome are the specified ones |
| RagService.CollectDocs | BioMind/rag/service.py:129-256 | the scored documents are the live ones (only when no corpus entry was found), then the filtered entries, then the uploads; rows are persisted only for live documents |
| RagService.DocsOrder | BioMind/rag/service.py:234-256 | live documents come first, unfiltered; then the filtered corpus entries; uploads come last, unfiltered |
| RagService.NoPassagesReply | BioMind/rag/service.py:279-281 | the fixed no-passages reply with no sources is given exactly when selection keeps nothing |
| RagService.ScholarKeepsLiveAndUploads | BioMind/rag/service.py:228-256 | in Scholar mode every corpus entry is PubMed or UniProt, while live documents and uploads are kept |
| Config.GetAll | BioMind/utils/config_utils.py:99-105 | `get_all` returns the specified dictionary, or raises when some lookup raises |
| Config.GetEach | BioMind/utils/config_utils.py:102-105 | the loop looks up each key in order and stops at the first that raises |
| Config.Precedence | BioMind/utils/config_utils.py:87 | `BIOMIND_<key>` wins over `<key>`, which wins over the default |
| Config.CallerDefaultWins | BioMind/utils/config_utils.py:84 | a caller default other than `None`, even `False` or `0`, replaces the class default; `None` selects the class default |
| Config.BoolCoercion | BioMind/utils/config_utils.py:90-91 | with a bool default a string is true exactly when it reads `true` in any case, and any other value is read by its truthiness |
| Config.CoercionByType | BioMind/utils/config_utils.py:89-97 | integer and float defaults coerce the value, raising when that fails, with a float truncated toward zero; other defaults pass the value through |
| Config.TruncateTowardZero | BioMind/utils/config_utils.py:93 | `int` of a float truncates toward zero |
| Config.GetConfigFallback | BioMind/utils/config_utils.py:107-122 | when the lookup raises, `get_config` returns the caller's default, which may be `None`; otherwise the lookup's value |
| Config.BadIntegerFallsBackToNone | BioMind/utils/config_utils.py:84-122 | an environment string that is not an integer makes an integer setting read as `None` |
| Config.StringSettingIsString | BioMind/utils/config_utils.py:84-97 | a lookup with a string default always gives a string |
| Config.DefaultKeysHaveDefaults | BioMind/utils/config_utils.py:15-69 | every listed key has a class default |
| Config.DefaultsAreListed | BioMind/utils/config_utils.py:15-69 | every key with a class default is listed |
| Config.GetAllKeys | BioMind/utils/config_utils.py:99-105 | `get_all` has exactly one entry per class default, each that key's `get` |
| CorpusLoader.DeriveUrlNeedsBoth | BioMind/utils/corpus_loader.py:63-64 | no URL without a source and an id |
| CorpusLoader.DeriveUrlCases | BioMind/utils/corpus_loader.py:61-72 | a PubMed link exactly for a PubMed article with an all-digit id, a UniProt link exactly for a UniProt record, nothing otherwise |
| CorpusLoader.DeriveUrlRoundTrip | BioMind/utils/corpus_loader.py:68-71 | the id can be read back from any derived URL |
| CorpusLoader.LoadLines | BioMind/utils/corpus_loader.py:176-197 | the line loop builds the specified mapping, or raises |
| CorpusLoader.EntryOfShaped | BioMind/utils/corpus_loader.py:185-197 | an entry has the object's id as `source_id`, source type `corpus`, and the explicit URL or else the derived one |
| CorpusLoader.StepShape | BioMind/utils/corpus_loader.py:178-197 | one line keeps every entry well formed |
| CorpusLoader.FillShape | BioMind/utils/corpus_loader.py:177-197 | loading keeps every entry well formed |
| CorpusLoader.FillKeys | BioMind/utils/corpus_loader.py:177-197 | the mapping holds exactly the ids of the object lines |
| CorpusLoader.SkippedLine | BioMind/utils/corpus_loader.py:178-184 | blank lines and lines that do not decode are skipped |
| CorpusLoader.NonObjectRaises | BioMind/utils/corpus_loader.py:182-185 | a line that decodes to JSON other than an object makes the load raise, at `obj.get` |
| CorpusLoader.FillAppend | BioMind/utils/corpus_loader.py:177 | loading two runs of lines is loading the first and then the second from where it left off |
| CorpusLoader.FillKeeps | BioMind/utils/corpus_loader.py:189 | lines without a given id leave its entry alone |
| CorpusLoader.LastLineWins | BioMind/utils/corpus_loader.py:189 | the last line with an id gives its entry |
| CorpusLoader.BackendFromEnv | BioMind/utils/corpus_loader.py:171 | the backend is read from the environment with the usual precedence, lower-cased, empty when unset |
| CorpusLoader.StatsBackendChoice | BioMind/utils/corpus_loader.py:49-51 | the reported backend is the configured one, else `bq` exactly when a table is configured; it is never empty, and `bq` means the loader reads BigQuery |
| CorpusLoader.TableOverridesBackend | BioMind/utils/corpus_loader.py:171-172 | a configured table makes the loader read BigQuery even when the backend names the JSONL one, which the stats still report |
| CorpusLoader.CorpusCache.constructor | BioMind/utils/corpus_loader.py:32 | the cache starts empty |
| CorpusLoader.CorpusCache.Clear | BioMind/utils/corpus_loader.py:36-39 | clearing empties the cache |
| CorpusLoader.CorpusCache.Load | BioMind/utils/corpus_loader.py:161-199 | the load returns the specified mapping; the cache is restamped when a mapping was built and unchanged on a hit or a raise |
| CorpusLoader.CacheHit | BioMind/utils/corpus_loader.py:168-169 | within 300 seconds of a build the cached mapping is returned, whatever the sources now hold |
| CorpusLoader.BuildThenHit | BioMind/utils/corpus_loader.py:168-198 | a load that builds is answered from the cache for the next 300 seconds |
| CorpusLoader.StaleRebuilds | BioMind/utils/corpus_loader.py:167-198 | an empty or stale cache makes the load rebuild and restamp |
| AutoIngest.End | BioMind/scripts/auto_ingest_to_vertex.py:46 | a window starting inside the text ends after its start, within the text, at most `chunk_size` on |
| AutoIngest.Spans | BioMind/scripts/auto_ingest_to_vertex.py:44-52 | the scan yields windows exactly when it starts inside the text; the first starts at the start and every window ends at `min(n, lo + chunk_size)` |
| AutoIngest.SpansLinked | BioMind/scripts/auto_ingest_to_vertex.py:46-52 | every window but the last is full and ends before the text does, and the next starts `overlap` before its end, never before 0 |
| AutoIngest.SpansReachEnd | BioMind/scripts/auto_ingest_to_vertex.py:51-52 | with a non-negative overlap the last window ends at the end of the text |
| AutoIngest.Slices | BioMind/scripts/auto_ingest_to_vertex.py:47 | each chunk is the text cut at its window |
| AutoIngest.ChunkText | BioMind/scripts/auto_ingest_to_vertex.py:39-53 | the loop returns the specified chunks, none for empty text |
| AutoIngest.ChunkStep | BioMind/scripts/auto_ingest_to_vertex.py:45-52 | one iteration appends the next window and either stops at the end of the text or moves back by the overlap |
| AutoIngest.SlicesCons | BioMind/scripts/auto_ingest_to_vertex.py:47 | cutting a window and then the rest is cutting all of them |
| AutoIngest.ChunksBounded | BioMind/scripts/auto_ingest_to_vertex.py:46-47 | every chunk is non-empty and at most `chunk_size` characters |
| AutoIngest.ChunksCoverText | BioMind/scripts/auto_ingest_to_vertex.py:44-52 | the first chunk is a prefix of the text and the last a suffix |
| AutoIngest.ChunksOverlap | BioMind/scripts/auto_ingest_to_vertex.py:46-48 | consecutive chunks share exactly `overlap` characters |
| AutoIngest.Numbered | BioMind/scripts/auto_ingest_to_vertex.py:64-70 | one record per chunk |
| AutoIngest.BuildRecords | BioMind/scripts/auto_ingest_to_vertex.py:56-71 | the loop returns the specified records, or raises |
| AutoIngest.AppendNumbered | BioMind/scripts/auto_ingest_to_vertex.py:64-70 | the inner loop appends one record per chunk, in order |
| AutoIngest.AllRecordsStep | BioMind/scripts/auto_ingest_to_vertex.py:58-70 | one article appends its records, or makes the call raise |
| AutoIngest.AllRecordsNoneStays | BioMind/scripts/auto_ingest_to_vertex.py:58-63 | once an article raises the whole call raises |
| AutoIngest.MissingPmidIsNone | BioMind/scripts/auto_ingest_to_vertex.py:59-62 | an article without a `pmid` key gets the base id `None`, since `str(None)` is truthy |
| AutoIngest.FallbackOnlyForEmptyPmid | BioMind/scripts/auto_ingest_to_vertex.py:59-62 | the `pmidless-` fallback is taken only for a pmid stored as the empty string |
| AutoIngest.ArticleRecordShape | BioMind/scripts/auto_ingest_to_vertex.py:63-70 | record `k` of an article is its chunk `k` of 1000 characters with overlap 100, id `<base>::c<k>`, source `pubmed_articles` |
| AutoIngest.BuildDatapoints | BioMind/scripts/auto_ingest_to_vertex.py:149-156 | one datapoint per zipped pair, with the record's id, the vector, and the single `source` restrict holding the source or `pubmed_articles` |
| AutoIngest.RStripSlash | BioMind/scripts/auto_ingest_to_vertex.py:161 | `rstrip('/')` leaves a prefix of the input that does not end in `/`, and only slashes are removed |
| AutoIngest.Run | BioMind/scripts/auto_ingest_to_vertex.py:101-180 | exit 2 exactly on a missing or placeholder argument, 3 exactly when no article or no record results, a raise when building records raises, and otherwise the datapoints of the zipped records and vectors |
| ChunkCorpus.Pieces | BioMind/scripts/chunk_corpus_to_bq.py:61-62 | the slices of a long line concatenate back to the line, each non-empty and at most `max_chars` long |
| ChunkCorpus.AppendPieces | BioMind/scripts/chunk_corpus_to_bq.py:61-62 | the slicing loop appends the specified slices |
| ChunkCorpus.ChunkText | BioMind/scripts/chunk_corpus_to_bq.py:42-66 | the loop returns the specified chunks |
| ChunkCorpus.PackLine | BioMind/scripts/chunk_corpus_to_bq.py:49-63 | one stripped line is skipped when blank, appended when it fits, and otherwise flushes the current chunk and starts a new one or is sliced |
| ChunkCorpus.PackStep | BioMind/scripts/chunk_corpus_to_bq.py:48-63 | one line of the loop keeps its invariant |
| ChunkCorpus.PackBounded | BioMind/scripts/chunk_corpus_to_bq.py:52-65 | packing emits only non-empty chunks of at most `max_chars` |
| ChunkCorpus.ChunksBounded | BioMind/scripts/chunk_corpus_to_bq.py:42-66 | every chunk is non-empty and at most `max_chars` characters long |
| ChunkCorpus.PackKeepsText | BioMind/scripts/chunk_corpus_to_bq.py:48-65 | packing keeps every non-space character of the lines, in order |
| ChunkCorpus.MergedText | BioMind/scripts/chunk_corpus_to_bq.py:53 | joining with a space and stripping keeps both texts' non-space characters |
| ChunkCorpus.FlushedText | BioMind/scripts/chunk_corpus_to_bq.py:55-65 | flushing emits the current chunk when it is non-empty, and nothing is lost when it is empty |
| ChunkCorpus.ChunksKeepText | BioMind/scripts/chunk_corpus_to_bq.py:42-66 | the chunks in order hold exactly the non-whitespace characters of the text, in order |
| ChunkCorpus.RowsOf | BioMind/scripts/chunk_corpus_to_bq.py:94-108 | one chunk row per chunk of the row's text |
| ChunkCorpus.InsertChunkBatch | BioMind/scripts/chunk_corpus_to_bq.py:76-84 | the count is the number of rows, or 0 for no rows or when the insert reports errors |
| ChunkCorpus.ChunkCorpus | BioMind/scripts/chunk_corpus_to_bq.py:87-117 | every chunk row of the corpus, in stream order, is handed to the insert in batches of `batch_size`, and the total adds up the inserted counts |
| ChunkCorpus.AddRow | BioMind/scripts/chunk_corpus_to_bq.py:100-113 | one row appended and the batch inserted once full keeps the loop invariant |
| ChunkCorpus.RowShape | BioMind/scripts/chunk_corpus_to_bq.py:98-108 | row ids are `<doc_id>::chunk::<pos>` with 0-based positions, section `body`, and token count the word count of the chunk |
| ChunkCorpus.NoTextNoRows | BioMind/scripts/chunk_corpus_to_bq.py:43-44 | a corpus row without text gives no chunk rows |
| HypothesisSynthesizer.BuildEvidence | BioMind/agents/hypothesis_synthesizer.py:9-51 | the evidence is the specified section lines joined with newlines |
| HypothesisSynthesizer.AddSection | BioMind/agents/hypothesis_synthesizer.py:19-37 | a section appends its header, then one bullet per item or the placeholder |
| HypothesisSynthesizer.AddImaging | BioMind/agents/hypothesis_synthesizer.py:40-49 | the imaging section is appended only for a non-empty payload, one line per entry in order |
| HypothesisSynthesizer.SectionShape | BioMind/agents/hypothesis_synthesizer.py:19-23 | a section is its header followed by exactly one bullet per item, or by the placeholder alone |
| HypothesisSynthesizer.EvidenceOrder | BioMind/agents/hypothesis_synthesizer.py:16-51 | the sections come as literature, protein, drug, imaging; imaging exactly when the payload is non-empty |
| HypothesisSynthesizer.FindingInEvidence | BioMind/agents/hypothesis_synthesizer.py:20-51 | every literature finding appears in the evidence as a bullet |
| HypothesisSynthesizer.PromptEmbeds | BioMind/agents/hypothesis_synthesizer.py:54-77 | the prompt holds the query and the evidence verbatim at positions fixed by the query's length |
| HypothesisSynthesizer.Texts | BioMind/agents/hypothesis_synthesizer.py:93-98 | only non-blank string texts are collected |
| HypothesisSynthesizer.ExtractText | BioMind/agents/hypothesis_synthesizer.py:80-103 | the candidate loop returns the specified text |
| HypothesisSynthesizer.CollectTexts | BioMind/agents/hypothesis_synthesizer.py:93-98 | the part loop collects the non-blank texts in order |
| HypothesisSynthesizer.JoinNonBlank | BioMind/agents/hypothesis_synthesizer.py:99-100 | joining non-blank texts gives a non-blank text |
| HypothesisSynthesizer.ExtractFirst | BioMind/agents/hypothesis_synthesizer.py:85-103 | the text is empty exactly when no candidate with a non-blank text part comes before the first broken one; otherwise it is the stripped join of the first such candidate's texts |
| HypothesisSynthesizer.SynthesizeOutcome | BioMind/agents/hypothesis_synthesizer.py:106-145 | the result is never empty: the extracted text, the fixed no-text error, or the error prefix and message when the call raises |
| Coordinator.Partition | BioMind/agents/coordinator_agent.py:34-38 | a partition never holds more documents than were retrieved |
| Coordinator.PartitionExactly | BioMind/agents/coordinator_agent.py:34-38 | a document lands in a partition exactly when its source is that one and its content is truthy |
| Coordinator.PartitionsDisjoint | BioMind/agents/coordinator_agent.py:34-38 | partitions of different sources share no document |
| Coordinator.MarkedLineFound | BioMind/agents/coordinator_agent.py:55-56 | the line `^Label:` finds starts with the label |
| Coordinator.MarkedLineStart | BioMind/agents/coordinator_agent.py:55-56 | in multi-line mode the line found starts the content or follows a line break |
| Coordinator.LabelMatchFound | BioMind/agents/coordinator_agent.py:55-56 | a match means the label occurs in the content |
| Coordinator.LabelHead | BioMind/agents/coordinator_agent.py:55-60 | for content opening with the label the capture is the rest after leading whitespace, up to the line break, stripped |
| Coordinator.LabelOnFirstLine | BioMind/agents/coordinator_agent.py:55-60 | on a first line `Title: x` the title is `x` stripped |
| Coordinator.BlankLabelTakesNextLine | BioMind/agents/coordinator_agent.py:55-60 | `\s*` runs over a blank remainder and its line break, so the next line is captured |
| Coordinator.Collect | BioMind/agents/coordinator_agent.py:44-106 | each input loop keeps the documents that qualify and maps them, in order |
| Coordinator.PaperFromMetadata | BioMind/agents/coordinator_agent.py:46-65 | a truthy metadata title and abstract are used as they are, and the paper is handed on |
| Coordinator.TitleFromContent | BioMind/agents/coordinator_agent.py:50-65 | a missing title is taken from the content's `Title:` line and the paper is handed on |
| Coordinator.AgentInputs | BioMind/agents/coordinator_agent.py:33-106 | the loops build the specified agent inputs |
| Coordinator.RunAnalysis | BioMind/agents/coordinator_agent.py:66-126 | the analysis calls, synthesis and confidence give the specified run |
| Coordinator.RunPipeline | BioMind/agents/coordinator_agent.py:18-126 | `run_pipeline` gives the specified run |
| Coordinator.PipelineShape | BioMind/agents/coordinator_agent.py:25-115 | with no documents the guidance and 0.0 come back and no agent runs; otherwise the hypothesis is non-empty and each analysis agent is called, with its list, exactly when that list is non-empty |
| Coordinator.EntriesPerDocument | BioMind/agents/coordinator_agent.py:35-94 | one protein input per UniProt document with content and one drug input per DrugBank document with content, in order, and each list is empty exactly when there is no such document |
| Coordinator.PaperOrigin | BioMind/agents/coordinator_agent.py:34-65 | every paper comes from a PubMed document with content and has a title or an abstract |
| Coordinator.PostOrigin | BioMind/agents/coordinator_agent.py:38-106 | every post comes from a Google Health document with content and has a title or an abstract |
| Coordinator.ConfidenceCases | BioMind/agents/coordinator_agent.py:120-125 | the confidence is the dictionary's percentage, the number as a float, or 0.0 |
| VertexRetriever.SourceDoc.constructor | BioMind/rag/vertex_retriever.py:98-105 | a LangChain document holds the given page content and metadata |
| VertexRetriever.ChunkDocShape | BioMind/rag/vertex_retriever.py:97-105 | chunk `i` holds piece `i`, `chunk_id` `i`, the piece count as `total_chunks`, and every other metadata entry of its document |
| VertexRetriever.TaggedIdempotent | BioMind/rag/vertex_retriever.py:90-91 | stamping the source id twice is the same as stamping it once |
| VertexRetriever.AppendChunks | BioMind/rag/vertex_retriever.py:97-106 | the inner loop appends exactly the chunk documents of one document, in piece order |
| VertexRetriever.ProcessDocuments | BioMind/rag/vertex_retriever.py:85-108 | every input document is stamped in place with `doc_<hash>` over its old metadata, and the chunks are those of the documents as they were, document after document |
| VertexRetriever.Stamp | BioMind/rag/vertex_retriever.py:90-91 | the stamp changes only the metadata of the document in hand and keeps the other documents stamped or original |
| VertexRetriever.ProcessedAppend | BioMind/rag/vertex_retriever.py:88-106 | the chunks of two document lists are the chunks of the first followed by those of the second |
| VertexRetriever.ChunkOrigin | BioMind/rag/vertex_retriever.py:88-106 | every chunk is chunk `i` of some document `j`, built from that document's stamped metadata |
| VertexRetriever.ChunkMetadata | BioMind/rag/vertex_retriever.py:90-105 | a chunk carries its text, `chunk_id`, `total_chunks`, `doc_<hash>` as source id whatever the document had, and the document's other entries unchanged |
| VertexRetriever.ChunkCount | BioMind/rag/vertex_retriever.py:94-106 | the number of chunks is the sum of the documents' piece counts |
| VertexRetriever.FilterDocsByDate | BioMind/rag/vertex_retriever.py:203-220 | the loop keeps exactly the documents `filter_by_date` keeps, in order |
| VertexRetriever.FilterByDateExactly | BioMind/rag/vertex_retriever.py:208-218 | a document is kept exactly when it is an input with no date, a date the subtraction rejects (a non-datetime or an offset-aware datetime), or an age in whole days within the limit |
| VertexRetriever.FilterByDateOrder | BioMind/rag/vertex_retriever.py:208-218 | the filter keeps the input order |
| VertexRetriever.KeptWithoutDate | BioMind/rag/vertex_retriever.py:209-218 | a document without a date, with a non-datetime date or with an offset-aware datetime is always kept; a future date is kept for any non-negative limit; a naive date older than the limit is dropped |
| VertexRetriever.RestrictionAgrees | BioMind/rag/vertex_retriever.py:172-179 | a date restriction is sent exactly for a non-zero limit, and every date it admits also passes `filter_by_date` with that limit |
| VertexRetriever.Datapoints | BioMind/rag/vertex_retriever.py:123-133 | `zip` yields as many datapoints as the shorter of the chunk and embedding lists |
| VertexRetriever.BuildDatapoints | BioMind/rag/vertex_retriever.py:123-133 | the datapoint loop builds the zipped datapoints in order |
| VertexRetriever.UpsertBatches | BioMind/rag/vertex_retriever.py:136-143 | one update per consecutive slice of 100 datapoints |
| VertexRetriever.IndexDocuments | BioMind/rag/vertex_retriever.py:122-143 | the updates are the 100-slices of the zipped datapoints |
| VertexRetriever.ZipPrefix | BioMind/rag/vertex_retriever.py:124 | the zip only reads the common prefix of the two lists |
| VertexRetriever.DatapointShape | BioMind/rag/vertex_retriever.py:124-132 | datapoint ids `chunk_<i>` are distinct; each carries its embedding, the chunk's metadata, and the chunk text as `content` unless the metadata has its own |
| VertexRetriever.UpdatesCoverDatapoints | BioMind/rag/vertex_retriever.py:136-143 | every datapoint is sent exactly once, in order, in slices of at most 100 where only the last may be shorter |
| ApiServer.OriginPartShape | BioMind/api/server.py:22-24 | every allowed origin is the stripped text of one comma-separated piece of `ALLOWED_ORIGINS`: non-empty, comma-free, without whitespace at either end |
| ApiServer.OriginPartKept | BioMind/api/server.py:24 | every non-blank piece of the variable becomes an allowed origin once stripped |
| ApiServer.OriginsDefault | BioMind/api/server.py:24-26 | the two localhost origins are used exactly when every piece of the variable is blank |
| ApiServer.NoPartsIffBlank | BioMind/api/server.py:24 | the comprehension yields nothing exactly when every piece is blank |
| ApiServer.CorsCases | BioMind/api/server.py:28-42 | credentials are allowed exactly when `DEV_ALLOW_ALL_CORS` lower-cased is `1`, `true` or `yes`, and then the wildcard is the only origin; otherwise the parsed origins are used; an unset flag never allows credentials |
| ApiServer.ExtShape | BioMind/api/server.py:191 | an extension from `os.path.splitext` is empty or ends the path with one dot and no slash |
| ApiServer.ExtExamples | BioMind/api/server.py:191 | a hidden file's leading dot is no extension, and the last dot wins |
| ApiServer.CollectUploads | BioMind/api/server.py:187-204 | the upload loop computes the byte total, the kept (name, bytes) pairs and the extra texts of the loop's specification |
| ApiServer.AddFile | BioMind/api/server.py:189-204 | one file: unsupported extensions are skipped, bytes are kept and counted before the size check, and a text is added only within the limit |
| ApiServer.StepTexts | BioMind/api/server.py:189-204 | a file adds its size only when supported, and a text only when supported, within the limit and non-blank once stripped |
| ApiServer.KeptFiles | BioMind/api/server.py:190-196 | exactly the files with a supported extension are kept, in order, and the byte total is their sizes added up |
| ApiServer.TextOrigin | BioMind/api/server.py:199-201 | every extra text is the stripped, non-blank extracted text of some supported file |
| ApiServer.TextNeedsRoom | BioMind/api/server.py:196-201 | a file contributes a text only when supported and the running byte total is within the limit |
| ApiServer.TextsStripped | BioMind/api/server.py:200-201 | every extra text is non-empty and already stripped |
| ApiServer.TotalGrows | BioMind/api/server.py:196 | the running byte total never decreases |
| ApiServer.PastLimitSilent | BioMind/api/server.py:196-204 | once the byte total exceeds the limit no later file contributes text, though its bytes are still kept |
| ApiServer.SearchUploadCases | BioMind/api/server.py:181-221 | no files hand nothing on; more than `UPLOAD_MAX_FILES` files fail with 500 (the 413 is caught by the endpoint's own handler); otherwise the supported files' bytes are handed on and an empty text list is passed as `None` |
| ApiServer.SourceFound | BioMind/api/server.py:224-230 | over a loaded corpus, 404 is returned exactly for ids no object line carried, and a found entry is that id's entry |
| DrugbankUpsert.StreamOrigin | BioMind/scripts/upsert_drugbank_to_bq.py:18-39 | every streamed record is the record of a `<drug>` element, and records keep their elements' order |
| DrugbankUpsert.StreamKeeps | BioMind/scripts/upsert_drugbank_to_bq.py:21-39 | every `<drug>` element yields its record |
| DrugbankUpsert.RecordShape | BioMind/scripts/upsert_drugbank_to_bq.py:23-38 | a non-empty `drugbank-id` gives the id and the DrugBank page as url; otherwise the id is a fresh uuid and the url empty; the text is name and description joined by a blank line and stripped, empty when both are missing; the source is `drugbank_local` |
| DrugbankUpsert.FetchExistingIds | BioMind/scripts/upsert_drugbank_to_bq.py:43-53 | the ids are exactly those the query answered, and none when it raised |
| DrugbankUpsert.BatchInsert | BioMind/scripts/upsert_drugbank_to_bq.py:56-66 | the count is the number of rows, or 0 for no rows or when the insert reports errors |
| DrugbankUpsert.KeptExactly | BioMind/scripts/upsert_drugbank_to_bq.py:81-87 | a record is batched exactly when it was streamed and not skipped as existing |
| DrugbankUpsert.IngestAll | BioMind/scripts/upsert_drugbank_to_bq.py:69-97 | `total_parsed` counts every streamed record; the batches handed to `batch_insert` are the kept records in order, cut at `batch_size` with a shorter final batch; `total_inserted` adds up the insert counts |
| DrugbankUpsert.AddDoc | BioMind/scripts/upsert_drugbank_to_bq.py:87-92 | appending a kept record and flushing a full batch keeps the batching invariant and the insert total |
| DrugbankUpsert.SkippedNeverBatched | BioMind/scripts/upsert_drugbank_to_bq.py:83-92 | with `skip_existing`, a record whose id exists is in no batch, and every other streamed record is in one |
| DrugbankUpsert.InsertedAtMostBatched | BioMind/scripts/upsert_drugbank_to_bq.py:89-96 | the inserted total never exceeds the number of records handed to the inserts |
| DrugbankUpsert.Consume | BioMind/scripts/upsert_drugbank_to_bq.py:81-92 | one pass of the stream loop skips an existing id or batches the record, keeping the batching invariant over the records kept so far and the insert total |
| DrugbankUpsert.FinalBatch | BioMind/scripts/upsert_drugbank_to_bq.py:93-96 | flushing the short final batch, when there is one, completes the batching of all kept records and adds its insert count to the total |
| GenerateDatapoints.LoadInput | BioMind/scripts/generate_vs_datapoints.py:34-54 | without a path the three sample records are returned; otherwise the accepted lines of the file, decoded, in order |
| GenerateDatapoints.LoadedOrigin | BioMind/scripts/generate_vs_datapoints.py:44-53 | every record read is the decoding of one accepted line (non-blank, decodable, with `id` and `text`), in line order |
| GenerateDatapoints.LoadedKeeps | BioMind/scripts/generate_vs_datapoints.py:44-53 | every accepted line is read |
| GenerateDatapoints.InputHasKeys | BioMind/scripts/generate_vs_datapoints.py:35-53 | every record returned, samples included, passes the `id` and `text` membership tests |
| GenerateDatapoints.StringRecordAccepted | BioMind/scripts/generate_vs_datapoints.py:49-51 | a JSON string containing both words passes the membership test and is read although it is not an object |
| GenerateDatapoints.WriteDatapoints | BioMind/scripts/generate_vs_datapoints.py:76-94 | the lines written are the datapoints of the zipped records and vectors, in order |
| GenerateDatapoints.ZippedAt | BioMind/scripts/generate_vs_datapoints.py:83-93 | one datapoint per zipped pair, the shorter list deciding; the k-th carries the k-th id and vector, and a `source` restriction exactly when the record's source is truthy |
| GenerateDatapoints.Normalised | BioMind/scripts/generate_vs_datapoints.py:103-104 | the normalised folder ends with `/` |
| GenerateDatapoints.BlobName | BioMind/scripts/generate_vs_datapoints.py:112 | the object name is always the prefix followed by the file name |
| GenerateDatapoints.UploadOutcomes | BioMind/scripts/generate_vs_datapoints.py:97-101 | without the storage library the upload fails first; a folder not starting with `gs://` is rejected; every other folder is uploaded to |
| GenerateDatapoints.FolderParts | BioMind/scripts/generate_vs_datapoints.py:106-107 | cutting a normalised folder at the first `/` after the scheme gives a slash-free bucket and a prefix that give the folder back |
| GenerateDatapoints.DestinationPath | BioMind/scripts/generate_vs_datapoints.py:106-117 | under a normalised folder the bucket has no `/`, the object is the prefix then the file name, and the URI is the folder followed by the file name |
| GenerateDatapoints.UploadPath | BioMind/scripts/generate_vs_datapoints.py:97-117 | an upload to a folder other than the bare `gs://` lands in that folder's bucket and prefix under the upload name, and returns the normalised folder followed by the name |
| GenerateDatapoints.BareSchemeFolder | BioMind/scripts/generate_vs_datapoints.py:103-117 | the bare folder `gs://` names the empty bucket and yields a URI with three slashes |
| GenerateDatapoints.ExitCodes | BioMind/scripts/generate_vs_datapoints.py:120-155 | exit 2 exactly without a project, 3 exactly with no records, 4 exactly when an upload is asked for without the storage library; 0 only when every record is an object and any upload went to a `gs://` folder |
| ManageConnectors.ShowStatus | manage_connectors.py:22-38 | one line per connector, in table order, shown enabled exactly when its variable, or the table's default when unset, reads `true` in any letter case |
| ManageConnectors.Flip | manage_connectors.py:58 | the new value is plain `true` or `false`, enabled exactly when the old one was not |
| ManageConnectors.DotEnv.constructor | manage_connectors.py:16-20 | the `.env` file starts with the given variables |
| ManageConnectors.DotEnv.Save | manage_connectors.py:16-20 | after `save_env` the file holds exactly the given variables |
| ManageConnectors.ToggleConnector | manage_connectors.py:40-64 | an unknown name leaves `.env` untouched; a known one writes the whole environment with the connector's variable flipped, and returns that new value |
| ManageConnectors.ToggleEffect | manage_connectors.py:44-61 | a name is rejected exactly when its lower case is not a connector; otherwise every variable is kept, only the connector's changes, to `true` or `false`, enabled exactly when it was not |
| ManageConnectors.ToggleTwice | manage_connectors.py:56-61 | toggling twice restores whether the connector is enabled, writing its value as plain `true` or `false` |
| ManageConnectors.GoogleDefaultsDisagree | manage_connectors.py:29-57 | with the Google flag unset, the status shows it disabled, yet toggling writes `false`, so it stays disabled |
| ManageConnectors.DefaultsAgreeElsewhere | manage_connectors.py:29-57 | for every connector but Google the status and the toggle assume the same default |
| ManageConnectors.Dispatch | manage_connectors.py:66-89 | a toggle is dispatched only with a connector name, which is the second argument as typed |
| ManageConnectors.DispatchCases | manage_connectors.py:66-89 | usage exactly without arguments; status and toggle exactly for those commands in any letter case; a missing connector name exactly for a lone `toggle` |

## Left out

- External calls are inputs of the model, as values or as function parameters. They are not modelled:
  - the chat and generation models, embeddings, NLI and cosine similarity;
  - BigQuery, Cloud Storage, Matching Engine, Document AI;
  - Entrez, the UniProt REST API and DrugBank downloads.
- Logging, printing and console output are not modelled. Neither is async scheduling: the flow is sequential.
- The clock is a parameter `now`. Timestamps are whole seconds since an arbitrary epoch, and `datetime.fromisoformat` is a parameter that says whether the parsed datetime is naive, offset-aware or invalid.
- ResponseGenerator.FormatResponse: the timestamp is the whole-second time `now`, not the `isoformat()` string the source stores.
- Floating point is modelled as `real`. `exp` and `log1p` are parameters constrained only by monotonicity and range laws.
- Parsing by libraries is an input: JSON, XML, TSV, CSV and PDF/DOCX text extraction. `int(str)` and `float(str)` are parameters that may raise.
- Regular expressions are written out by hand, only for the patterns the core uses.
- Hashing and identifiers are left out:
  - MD5, `hash()` and `uuid4` are parameters or left out;
  - `Cache.Key` is the string that would be hashed, so MD5 collisions are not modelled.
- Common.IsSpace: only ASCII whitespace is modelled. Python's `str.split`, `strip` and the regex class `\s` also treat Unicode spaces such as U+00A0 as whitespace. Such a character therefore separates words in the source but not in the model. This affects `clean_text`, word counts and the token budget.
- Common.LowerChar: only ASCII case mapping is modelled, while Python's `lower` also maps non-ASCII letters. Common.UpperChar has the same restriction.
- CorpusLoader.IsDigits: only the ASCII digits are modelled, while Python's `isdigit` also accepts other Unicode digits. For an id such as `١٢٣` the source derives a PubMed URL and the model derives none.
- UniprotConnector.IsLineBreak: only the ASCII line breaks (`\n`, `\r`, `\v`, `\f` and `\x1c`-`\x1e`) end a line in the model. Python's `splitlines` also breaks at `\x85`, U+2028 and the other Unicode line separators.
- Common.Show: `str()` of a float or datetime is a fixed stand-in, not Python's formatting.
- AutoIngest.ChunkText: requires `0 < chunk_size` and `overlap < chunk_size`, the range of the script's own values (1000 and 100). Outside it the source loop may not terminate, for example when `overlap >= chunk_size` and the text is longer than `chunk_size`.
- ChunkCorpus.ChunkText: requires `0 < max_chars`. With a smaller value the slicing `range` raises, or the loop drops long lines.
- RagService.ListOf: `list(set)` yields every id exactly once. Python's iteration order of a set is left open.
- The files the core only calls into are not part of this model:
  - the upload persistence, the corpus writers and repositories;
  - the matching-engine clients, the embedding pipelines, the retriever and analysis agents;
  - the duplicated top-level copies of `cache_utils.py`, `text_utils.py` and the older agents.

## Notes on the source

Several behaviours differ from what the surrounding design describes. Each is stated as a lemma about the code as written:
- `enhance_response` reads `text` from provenance entries that never carry one, so its evidence list is always empty (`ResponseGenerator.EnhanceResponse`).
- The `I believe` and `I think` markers are matched against lower-cased text, so they never fire (`ResponseGenerator.FirstPersonMarkersNeverFire`).
- Citation coverage counts cited ids that are not available, so it can exceed 1 (`ResponseGenerator.CoverageCanExceedOne`).
- Novelty counts whether a pattern is present, not how often it occurs (`Confidence.NoveltyPenalty`).
- An article without a `pmid` key gets the id `None`, because `str(None)` is truthy (`AutoIngest.MissingPmidIsNone`).
- `upsert_chunks_bq` reports every chunk as written even when the insert returns errors (`ParseChunks.UpsertCountsAll`).
- In the coordinator's label pattern, `\s*` crosses a line break, so an empty label captures the next line (`Coordinator.BlankLabelTakesNextLine`).
- `hasattr` on a metadata dictionary never sees its keys, so the retriever always overwrites `source_id` (`VertexRetriever.TaggedIdempotent`).
- A `max_age_days` of 0 sends no date restriction (`VertexRetriever.RestrictionAgrees`).
- The status table and the toggle assume different values for an unset Google flag (`ManageConnectors.GoogleDefaultsDisagree`).
- A configured BigQuery table overrides a `gcs_jsonl` backend, while the stats still report that backend (`CorpusLoader.TableOverridesBackend`).
- Too many uploaded files give 500, not the intended 413, because the endpoint's own handler catches the 413 (`ApiServer.SearchUploadCases`).
- The bare folder `gs://` yields an upload URI with an empty bucket (`GenerateDatapoints.BareSchemeFolder`).
