/**
 * Passage ranking and context-window selection of the RAG pipeline
 * (`ContextManager` in BioMind/rag/context_manager.py).
 *
 * Scores are reals. `exp`, `log1p` and `datetime.fromisoformat` are parameters
 * (bundled in `Env`); only the laws stated in `ExpLaws` / `Log1pLaws` are
 * assumed of them. Times are whole seconds and "now" is an input.
 */
module ContextManager {
  import opened Common
  import Sorting

  /** The constructor's arguments that the scoring uses. */
  datatype Settings = Settings(
    maxContextLength: int,
    semanticWeight: real,
    recencyWeight: real,
    qualityWeight: real)

  const DefaultSettings: Settings := Settings(4000, 0.6, 0.2, 0.2)

  /** Default `min_score_threshold` of `select_passages`. */
  const DefaultThreshold: real := 0.5

  const SecondsPerDay: int := 86400

  /** The outside world the scoring consults. */
  datatype Env = Env(
    now: int,
    exp: real -> real,
    log1p: real -> real,
    parseIso: string -> Iso)

  /** What `datetime.fromisoformat` gives: a naive datetime, one with a UTC
      offset (an aware datetime), or a `ValueError`. */
  datatype Iso = Naive(t: int) | Aware(t: int) | Invalid

  /** What is assumed of `np.exp`. */
  ghost predicate ExpLaws(exp: real -> real)
  {
    exp(0.0) == 1.0
    && (forall x :: exp(x) > 0.0)
    && (forall x, y :: x <= y ==> exp(x) <= exp(y))
  }

  /** What is assumed of `np.log1p`. */
  ghost predicate Log1pLaws(log1p: real -> real)
  {
    forall x :: x >= 0.0 ==> log1p(x) >= 0.0
  }

  // ------------------------------------------------------------------ recency

  /** `(now - date).days`: `timedelta.days` rounds toward minus infinity. */
  function AgeDays(now: int, t: int): int
  {
    (now - t) / SecondsPerDay
  }

  /** `calculate_recency_score`: 0.5 without a date or for a future date,
      otherwise `exp(-0.1 * days_old)`. */
  function RecencyScore(date: Option<int>, now: int, exp: real -> real): (r: real)
    ensures date.None? || date.value > now ==> r == 0.5
    ensures ExpLaws(exp) ==> 0.0 < r <= 1.0
  {
    if date.None? then 0.5
    else
      var days := AgeDays(now, date.value);
      if days < 0 then 0.5
      else
        assert ExpLaws(exp) ==> exp(-(days as real) / 10.0) <= exp(0.0);
        exp(-(days as real) / 10.0)
  }

  lemma AgeDaysMonotone(now: int, older: int, newer: int)
    requires older <= newer <= now
    ensures AgeDays(now, older) >= AgeDays(now, newer) >= 0
  {
    var a, b := now - older, now - newer;
    assert a == (a / SecondsPerDay) * SecondsPerDay + a % SecondsPerDay;
    assert b == (b / SecondsPerDay) * SecondsPerDay + b % SecondsPerDay;
  }

  /** An older document never scores higher than a newer one. */
  lemma RecencyMonotone(now: int, older: int, newer: int, exp: real -> real)
    requires ExpLaws(exp)
    requires older <= newer <= now
    ensures RecencyScore(Some(older), now, exp) <= RecencyScore(Some(newer), now, exp)
  {
    AgeDaysMonotone(now, older, newer);
    var a, b := AgeDays(now, older), AgeDays(now, newer);
    assert -(a as real) / 10.0 <= -(b as real) / 10.0;
  }

  /** A document less than a day old scores exactly 1. */
  lemma RecencyOfSameDay(now: int, t: int, exp: real -> real)
    requires ExpLaws(exp)
    requires t <= now < t + SecondsPerDay
    ensures RecencyScore(Some(t), now, exp) == 1.0
  {
    assert AgeDays(now, t) == 0;
  }

  // ------------------------------------------------------------------ quality

  /** A metadata value compared with `> 0`: numbers and booleans compare,
      anything else raises `TypeError` (None). */
  function Numeric(v: Value): Option<real>
  {
    match v
    case Int(i) => Some(i as real)
    case Bool(b) => Some(if b then 1.0 else 0.0)
    case Real(x) => Some(x)
    case _ => None
  }

  /** `(metadata.get(k) or '').lower()`; None when it raises. */
  function LowerField(m: map<string, Value>, k: string): Option<string>
  {
    match Or(Get(m, k, Null), Str(""))
    case Str(s) => Some(Lower(s))
    case _ => None
  }

  /** The guarded priority boost: +0.3 for live-fetched documents or PubMed /
      UniProt sources; an exception inside the `try` forfeits it. */
  function LiveBonus(m: map<string, Value>): (b: real)
    ensures b == 0.0 || b == 0.3
    ensures b == 0.3 <==> (LowerField(m, "source").Some? && LowerField(m, "priority").Some?
      && (LowerField(m, "priority").value == "live"
          || LowerField(m, "source").value in {"pubmed_articles", "uniprot_records"}))
  {
    match (LowerField(m, "source"), LowerField(m, "priority"))
    case (Some(src), Some(pr)) =>
      if pr == "live" || src == "pubmed_articles" || src == "uniprot_records" then 0.3 else 0.0
    case _ => 0.0
  }

  /** The first matching source-type bucket. */
  function SourceTypeBonus(st: string): (b: real)
    ensures 0.0 <= b <= 0.3
    ensures st !in {"peer_reviewed", "clinical_trial", "meta_analysis"} ==> b == 0.0
  {
    if st == "peer_reviewed" then 0.3
    else if st == "clinical_trial" then 0.25
    else if st == "meta_analysis" then 0.2
    else 0.0
  }

  function CitationBonus(c: real, log1p: real -> real): (b: real)
    ensures b <= 0.2
    ensures c <= 0.0 ==> b == 0.0
    ensures Log1pLaws(log1p) ==> b >= 0.0
  {
    if c > 0.0 then Min(0.2, log1p(c) / 10.0) else 0.0
  }

  function ImpactBonus(f: real): (b: real)
    ensures 0.0 <= b <= 0.1
    ensures b == 0.1 <==> f >= 5.0
  {
    if f > 0.0 then Min(0.1, f / 50.0) else 0.0
  }

  /** `calculate_quality_score`; None where the Python code raises (a
      non-string `source_type`, a non-numeric citation count or impact
      factor). */
  function QualityScore(m: map<string, Value>, log1p: real -> real): (r: Option<real>)
    ensures r.None? <==>
      ("source_type" in m && !m["source_type"].Str?)
      || Numeric(Get(m, "citation_count", Int(0))).None?
      || Numeric(Get(m, "impact_factor", Int(0))).None?
    ensures r.Some? && Log1pLaws(log1p) ==> 0.5 <= r.value <= 1.0
  {
    var st := Get(m, "source_type", Str(""));
    var cites := Numeric(Get(m, "citation_count", Int(0)));
    var impact := Numeric(Get(m, "impact_factor", Int(0)));
    if !st.Str? || cites.None? || impact.None? then None
    else
      var score := 0.5 + LiveBonus(m) + SourceTypeBonus(Lower(st.s))
        + CitationBonus(cites.value, log1p) + ImpactBonus(impact.value);
      Some(Min(1.0, score))
  }

  /** Metadata with no quality signal at all scores the 0.5 baseline. */
  lemma QualityOfPlainMetadata(log1p: real -> real)
    ensures QualityScore(map[], log1p) == Some(0.5)
  {
    assert LowerField(map[], "source") == Some("");
    assert LowerField(map[], "priority") == Some("");
    assert Lower("") == "";
  }

  // ------------------------------------------------------------ score_passages

  datatype ScoredPassage = ScoredPassage(
    content: string,
    metadata: map<string, Value>,
    semanticScore: real,
    recencyScore: real,
    qualityScore: real,
    finalScore: real)

  function FinalKey(p: ScoredPassage): real
  {
    p.finalScore
  }

  /** The date a passage is scored with: an ISO string is parsed (a parse
      failure means no date), a naive datetime is used as is, a falsy value
      means no date. Any other value, and any aware datetime, whether given
      or parsed, makes `datetime.now() - doc_date` raise. */
  datatype DateArg = NoDate | At(t: int) | Unusable

  function PassageDate(v: Value, parseIso: string -> Iso): DateArg
  {
    match v
    case Str(s) => (match parseIso(s) case Naive(t) => At(t) case Aware(_) => Unusable case Invalid => NoDate)
    case Date(t, aware) => if aware then Unusable else At(t)
    case _ => if Truthy(v) then Unusable else NoDate
  }

  /** The final score: the configured weighted sum of the three component scores. */
  function Weighted(cfg: Settings, semantic: real, recency: real, quality: real): real
  {
    cfg.semanticWeight * semantic + cfg.recencyWeight * recency + cfg.qualityWeight * quality
  }

  /** One iteration of the scoring loop; None where it raises. */
  function ScoreOne(cfg: Settings, p: Document, semantic: real, env: Env): (r: Option<ScoredPassage>)
    ensures r.Some? ==> r.value.content == p.content && r.value.metadata == p.metadata
    ensures r.Some? ==> r.value.semanticScore == semantic
    ensures r.Some? ==>
      r.value.finalScore == Weighted(cfg, semantic, r.value.recencyScore, r.value.qualityScore)
    ensures r.Some? && ExpLaws(env.exp) ==> 0.0 < r.value.recencyScore <= 1.0
    ensures r.Some? && Log1pLaws(env.log1p) ==> 0.5 <= r.value.qualityScore <= 1.0
  {
    var date := PassageDate(Get(p.metadata, "date", Null), env.parseIso);
    var quality := QualityScore(p.metadata, env.log1p);
    if date.Unusable? || quality.None? then None
    else
      var recency := RecencyScore(if date.At? then Some(date.t) else None, env.now, env.exp);
      var q := quality.value;
      Some(ScoredPassage(p.content, p.metadata, semantic, recency, q, Weighted(cfg, semantic, recency, q)))
  }

  /** An aware datetime, given or parsed from an ISO string, makes the
      passage raise; a naive one leaves the outcome to the quality score. */
  lemma DateAwareness(cfg: Settings, p: Document, semantic: real, env: Env)
    ensures var v := Get(p.metadata, "date", Null);
            (v.Date? && v.aware) || (v.Str? && env.parseIso(v.s).Aware?)
            ==> ScoreOne(cfg, p, semantic, env).None?
    ensures var v := Get(p.metadata, "date", Null);
            (v.Date? && !v.aware) || (v.Str? && !env.parseIso(v.s).Aware?)
            ==> (ScoreOne(cfg, p, semantic, env).Some? <==> QualityScore(p.metadata, env.log1p).Some?)
  {
  }

  function MinNat(a: nat, b: nat): nat { if a <= b then a else b }

  /** The unsorted scores of `zip(passages, semantic)`; None if any raises. */
  function ScoreAll(cfg: Settings, ps: seq<Document>, sems: seq<real>, env: Env): Option<seq<ScoredPassage>>
  {
    var n := MinNat(|ps|, |sems|);
    if forall i :: 0 <= i < n ==> ScoreOne(cfg, ps[i], sems[i], env).Some?
    then Some(seq(n, i requires 0 <= i < n => ScoreOne(cfg, ps[i], sems[i], env).value))
    else None
  }

  /** `scored` holds the scores of the first `i` pairs, none of which raised. */
  predicate ScoredUpTo(cfg: Settings, ps: seq<Document>, sems: seq<real>, env: Env,
                       scored: seq<ScoredPassage>, i: nat)
  {
    && i <= |ps| && i <= |sems| && |scored| == i
    && (forall j :: 0 <= j < i ==> ScoreOne(cfg, ps[j], sems[j], env).Some?)
    && (forall j :: 0 <= j < i ==> scored[j] == ScoreOne(cfg, ps[j], sems[j], env).value)
  }

  lemma ScoredUpToNext(cfg: Settings, ps: seq<Document>, sems: seq<real>, env: Env,
                       scored: seq<ScoredPassage>, i: nat, scored': seq<ScoredPassage>)
    requires ScoredUpTo(cfg, ps, sems, env, scored, i) && i < |ps| && i < |sems|
    requires ScoreOne(cfg, ps[i], sems[i], env).Some?
    requires scored' == scored + [ScoreOne(cfg, ps[i], sems[i], env).value]
    ensures ScoredUpTo(cfg, ps, sems, env, scored', i + 1)
  {
  }

  lemma ScoreAllOf(cfg: Settings, ps: seq<Document>, sems: seq<real>, env: Env, scored: seq<ScoredPassage>)
    requires ScoredUpTo(cfg, ps, sems, env, scored, MinNat(|ps|, |sems|))
    ensures ScoreAll(cfg, ps, sems, env) == Some(scored)
  {
    var n := MinNat(|ps|, |sems|);
    assert scored == seq(n, i requires 0 <= i < n => ScoreOne(cfg, ps[i], sems[i], env).value);
  }

  /** One zipped passage with an aware date makes the whole scoring raise. */
  lemma AwareDateRaises(cfg: Settings, ps: seq<Document>, sems: seq<real>, env: Env, i: nat)
    requires i < |ps| && i < |sems|
    requires var v := Get(ps[i].metadata, "date", Null);
             (v.Date? && v.aware) || (v.Str? && env.parseIso(v.s).Aware?)
    ensures ScoreAll(cfg, ps, sems, env).None?
  {
    DateAwareness(cfg, ps[i], sems[i], env);
  }

  /** `score_passages`, with the semantic similarities (`np.dot` of the
      embeddings) given as `sems`: scores the zipped pairs and sorts them by
      final score, highest first, keeping ties in input order. */
  method ScorePassages(cfg: Settings, ps: seq<Document>, sems: seq<real>, env: Env)
    returns (r: Option<seq<ScoredPassage>>)
    ensures r.None? <==> ScoreAll(cfg, ps, sems, env).None?
    ensures r.Some? ==> r.value == Sorting.SortDesc(ScoreAll(cfg, ps, sems, env).value, FinalKey)
    ensures r.Some? ==> Sorting.SortedDesc(r.value, FinalKey)
    ensures r.Some? ==> multiset(r.value) == multiset(ScoreAll(cfg, ps, sems, env).value)
    ensures r.Some? ==> |r.value| == MinNat(|ps|, |sems|)
  {
    var n := MinNat(|ps|, |sems|);
    var scored: seq<ScoredPassage> := [];
    var i := 0;
    while i < n
      invariant 0 <= i <= n
      invariant ScoredUpTo(cfg, ps, sems, env, scored, i)
    {
      var s := ScoreOne(cfg, ps[i], sems[i], env);
      if s.None? {
        assert !(0 <= i < n ==> ScoreOne(cfg, ps[i], sems[i], env).Some?);
        return None;
      }
      ghost var scored0 := scored;
      scored := scored + [s.value];
      ScoredUpToNext(cfg, ps, sems, env, scored0, i, scored);
      i := i + 1;
    }
    ScoreAllOf(cfg, ps, sems, env, scored);
    Sorting.SortDescSorted(scored, FinalKey);
    Sorting.SortDescPermutation(scored, FinalKey);
    r := Some(Sorting.SortDesc(scored, FinalKey));
  }

  /** Within one call, passages whose final scores tie keep their input order. */
  lemma ScorePassagesStable(cfg: Settings, ps: seq<Document>, sems: seq<real>, env: Env, v: real)
    requires ScoreAll(cfg, ps, sems, env).Some?
    ensures var xs := ScoreAll(cfg, ps, sems, env).value;
      Sorting.Ties(Sorting.SortDesc(xs, FinalKey), FinalKey, v) == Sorting.Ties(xs, FinalKey, v)
  {
    Sorting.SortDescStable(ScoreAll(cfg, ps, sems, env).value, FinalKey, v);
  }

  // ----------------------------------------------------------- select_passages

  datatype SourceInfo = SourceInfo(
    sourceId: Value,
    chunkId: Value,
    score: real,
    metadata: map<string, Value>,
    url: Option<Value>)

  datatype Provenance = Provenance(
    sources: seq<SourceInfo>,
    minScoreThreshold: real,
    maxContextLength: int,
    totalTokens: int,
    selectedPassages: nat)

  /** The token count of a passage under a counting function; the pipeline
      counts `len(content.split())`, i.e. `WordCount`. */
  function Tokens(p: ScoredPassage, count: string -> nat): nat
  {
    count(p.content)
  }

  function TokenSum(ps: seq<ScoredPassage>, count: string -> nat): nat
  {
    if ps == [] then 0 else Tokens(ps[0], count) + TokenSum(ps[1..], count)
  }

  /** The passages the greedy scan keeps, starting with `used` tokens spent:
      below-threshold passages are skipped, and the first passage at or above
      the threshold that would overflow the budget ends the scan. */
  function Select(ps: seq<ScoredPassage>, threshold: real, budget: int, used: int, count: string -> nat)
    : seq<ScoredPassage>
  {
    if ps == [] then []
    else if ps[0].finalScore < threshold then Select(ps[1..], threshold, budget, used, count)
    else if used + Tokens(ps[0], count) > budget then []
    else [ps[0]] + Select(ps[1..], threshold, budget, used + Tokens(ps[0], count), count)
  }

  /** The passages at or above the threshold, in order. */
  function Above(ps: seq<ScoredPassage>, threshold: real): (r: seq<ScoredPassage>)
    ensures forall i :: 0 <= i < |r| ==> r[i].finalScore >= threshold
  {
    if ps == [] then []
    else (if ps[0].finalScore < threshold then [] else [ps[0]]) + Above(ps[1..], threshold)
  }

  /** The document built for a selected passage: its metadata extended with
      the four scores. */
  function ToDocument(p: ScoredPassage): Document
  {
    Document(p.content, p.metadata["final_score" := Real(p.finalScore)]
      ["semantic_score" := Real(p.semanticScore)]
      ["recency_score" := Real(p.recencyScore)]
      ["quality_score" := Real(p.qualityScore)])
  }

  /** A selected document keeps the passage's content and every metadata key,
      and adds the four scores, which override same-named keys. */
  lemma ToDocumentKeepsMetadata(p: ScoredPassage)
    ensures var d := ToDocument(p);
      && d.content == p.content
      && d.metadata.Keys == p.metadata.Keys + {"final_score", "semantic_score", "recency_score", "quality_score"}
      && d.metadata["final_score"] == Real(p.finalScore)
      && d.metadata["semantic_score"] == Real(p.semanticScore)
      && d.metadata["recency_score"] == Real(p.recencyScore)
      && d.metadata["quality_score"] == Real(p.qualityScore)
      && (forall k :: k in p.metadata && k !in {"final_score", "semantic_score", "recency_score", "quality_score"}
            ==> d.metadata[k] == p.metadata[k])
  {
  }

  /** The provenance entry of a selected passage. */
  function SourceInfoOf(p: ScoredPassage): SourceInfo
  {
    var url := Get(p.metadata, "url", Null);
    SourceInfo(
      Get(p.metadata, "source_id", Str("unknown")),
      Get(p.metadata, "chunk_id", Str("unknown")),
      p.finalScore,
      map k | k in p.metadata && k != "source_id" && k != "chunk_id" :: p.metadata[k],
      if Truthy(url) then Some(url) else None)
  }

  /** Provenance rules: ids default to 'unknown', the entry's metadata is the
      passage's minus the two id keys, and `url` is bubbled up only when
      truthy. */
  lemma SourceInfoRules(p: ScoredPassage)
    ensures var s := SourceInfoOf(p);
      && ("source_id" in p.metadata ==> s.sourceId == p.metadata["source_id"])
      && ("source_id" !in p.metadata ==> s.sourceId == Str("unknown"))
      && ("chunk_id" in p.metadata ==> s.chunkId == p.metadata["chunk_id"])
      && ("chunk_id" !in p.metadata ==> s.chunkId == Str("unknown"))
      && s.score == p.finalScore
      && s.metadata.Keys == p.metadata.Keys - {"source_id", "chunk_id"}
      && (forall k :: k in s.metadata ==> s.metadata[k] == p.metadata[k])
      && (s.url.Some? <==> "url" in p.metadata && Truthy(p.metadata["url"]))
      && (s.url.Some? ==> s.url.value == p.metadata["url"])
  {
  }

  /** `select_passages` */
  method SelectPassages(cfg: Settings, scored: seq<ScoredPassage>, threshold: real)
    returns (docs: seq<Document>, prov: Provenance)
    ensures var sel := Select(scored, threshold, cfg.maxContextLength, 0, WordCount);
      && docs == Map(ToDocument, sel)
      && prov.sources == Map(SourceInfoOf, sel)
      && prov.totalTokens == TokenSum(sel, WordCount)
    ensures prov.selectedPassages == |docs| == |prov.sources|
    ensures prov.minScoreThreshold == threshold && prov.maxContextLength == cfg.maxContextLength
    ensures cfg.maxContextLength >= 0 ==> prov.totalTokens <= cfg.maxContextLength
  {
    var budget := cfg.maxContextLength;
    ghost var whole := Select(scored, threshold, budget, 0, WordCount);
    var sel: seq<ScoredPassage> := [];
    var sources: seq<SourceInfo> := [];
    docs := [];
    var used := 0;
    var i := 0;
    while i < |scored|
      invariant 0 <= i <= |scored|
      invariant whole == sel + Select(scored[i..], threshold, budget, used, WordCount)
      invariant used == TokenSum(sel, WordCount)
      invariant docs == Map(ToDocument, sel)
      invariant sources == Map(SourceInfoOf, sel)
    {
      var p := scored[i];
      if p.finalScore >= threshold {
        var len := Tokens(p, WordCount);
        if used + len > budget {
          SelectStop(scored, i, threshold, budget, used, WordCount, sel, whole);
          break;
        }
        TokenSumAppend(sel, p, WordCount);
        MapAppend(ToDocument, sel, p);
        MapAppend(SourceInfoOf, sel, p);
        ghost var sel0, used0 := sel, used;
        sel := sel + [p];
        docs := docs + [ToDocument(p)];
        sources := sources + [SourceInfoOf(p)];
        used := used + len;
        SelectTake(scored, i, threshold, budget, used0, WordCount, sel0, whole, sel, used);
      } else {
        SelectSkip(scored, i, threshold, budget, used, WordCount, sel, whole);
      }
      i := i + 1;
    }
    assert whole == sel;
    prov := Provenance(sources, threshold, budget, used, |docs|);
    SelectWithinBudget(scored, threshold, budget, 0, WordCount);
  }

  /** The three steps of the scan, as the loop of `SelectPassages` takes them:
      a passage below the threshold is skipped, ... */
  lemma SelectSkip(ps: seq<ScoredPassage>, i: nat, threshold: real, budget: int, used: int,
                   count: string -> nat, sel: seq<ScoredPassage>, whole: seq<ScoredPassage>)
    requires i < |ps| && ps[i].finalScore < threshold
    requires whole == sel + Select(ps[i..], threshold, budget, used, count)
    ensures whole == sel + Select(ps[i + 1..], threshold, budget, used, count)
  {
    assert ps[i..][0] == ps[i] && ps[i..][1..] == ps[i + 1..];
  }

  /** ... the first passage at or above it that overflows the budget ends the scan, ... */
  lemma SelectStop(ps: seq<ScoredPassage>, i: nat, threshold: real, budget: int, used: int,
                   count: string -> nat, sel: seq<ScoredPassage>, whole: seq<ScoredPassage>)
    requires i < |ps| && ps[i].finalScore >= threshold && used + count(ps[i].content) > budget
    requires whole == sel + Select(ps[i..], threshold, budget, used, count)
    ensures whole == sel
  {
    assert ps[i..][0] == ps[i];
  }

  /** ... and one that fits is taken. */
  lemma SelectTake(ps: seq<ScoredPassage>, i: nat, threshold: real, budget: int, used: int,
                   count: string -> nat, sel: seq<ScoredPassage>, whole: seq<ScoredPassage>,
                   sel': seq<ScoredPassage>, used': int)
    requires i < |ps| && ps[i].finalScore >= threshold && used + Tokens(ps[i], count) <= budget
    requires whole == sel + Select(ps[i..], threshold, budget, used, count)
    requires sel' == sel + [ps[i]] && used' == used + Tokens(ps[i], count)
    ensures whole == sel' + Select(ps[i + 1..], threshold, budget, used', count)
  {
    assert ps[i..][0] == ps[i] && ps[i..][1..] == ps[i + 1..];
    ConcatAssoc(sel, [ps[i]], Select(ps[i + 1..], threshold, budget, used + count(ps[i].content), count));
  }


  lemma {:induction false} TokenSumAppend(ps: seq<ScoredPassage>, p: ScoredPassage, count: string -> nat)
    ensures TokenSum(ps + [p], count) == TokenSum(ps, count) + Tokens(p, count)
  {
    if ps != [] {
      assert (ps + [p])[1..] == ps[1..] + [p];
      TokenSumAppend(ps[1..], p, count);
    } else {
      assert TokenSum([p], count) == Tokens(p, count) + TokenSum([], count);
    }
  }

  /** The kept passages are a prefix of the passages at or above the
      threshold: below-threshold passages are skipped, nothing else is. */
  lemma {:induction false} SelectIsPrefixOfAbove(ps: seq<ScoredPassage>, threshold: real, budget: int,
                                                 used: int, count: string -> nat)
    ensures var sel := Select(ps, threshold, budget, used, count);
      |sel| <= |Above(ps, threshold)| && sel == Above(ps, threshold)[..|sel|]
  {
    if ps != [] {
      var p := ps[0];
      var t := Tokens(p, count);
      var above := Above(ps, threshold);
      if p.finalScore >= threshold {
        assert above == [p] + Above(ps[1..], threshold);
        if used + t <= budget {
          SelectIsPrefixOfAbove(ps[1..], threshold, budget, used + t, count);
          var rest := Select(ps[1..], threshold, budget, used + t, count);
          assert above[..|rest| + 1] == [p] + Above(ps[1..], threshold)[..|rest|];
        }
      } else {
        SelectIsPrefixOfAbove(ps[1..], threshold, budget, used, count);
        assert above == Above(ps[1..], threshold);
      }
    }
  }

  /** The token total of the kept passages never exceeds the budget; with the
      budget already exceeded nothing is kept. */
  lemma {:induction false} SelectWithinBudget(ps: seq<ScoredPassage>, threshold: real, budget: int,
                                              used: int, count: string -> nat)
    ensures var sel := Select(ps, threshold, budget, used, count);
      && (used <= budget ==> used + TokenSum(sel, count) <= budget)
      && (used > budget ==> sel == [])
  {
    if ps != [] {
      var t := Tokens(ps[0], count);
      SelectWithinBudget(ps[1..], threshold, budget, used + t, count);
      SelectWithinBudget(ps[1..], threshold, budget, used, count);
    }
  }

  /** The scan stops only where it must: if an at-or-above-threshold passage
      was left out, adding it to the kept ones would overflow the budget. */
  lemma {:induction false} SelectIsMaximal(ps: seq<ScoredPassage>, threshold: real, budget: int,
                                           used: int, count: string -> nat)
    ensures var sel := Select(ps, threshold, budget, used, count);
      var above := Above(ps, threshold);
      |sel| < |above| ==> used + TokenSum(above[..|sel| + 1], count) > budget
  {
    if ps != [] {
      var p := ps[0];
      var t := Tokens(p, count);
      var sel := Select(ps, threshold, budget, used, count);
      var above := Above(ps, threshold);
      var a1 := Above(ps[1..], threshold);
      if p.finalScore < threshold {
        SelectIsMaximal(ps[1..], threshold, budget, used, count);
        assert sel == Select(ps[1..], threshold, budget, used, count);
        assert above == a1;
      } else if used + t <= budget {
        var rest := Select(ps[1..], threshold, budget, used + t, count);
        assert sel == [p] + rest;
        assert above == [p] + a1;
        if |rest| < |a1| {
          SelectIsMaximal(ps[1..], threshold, budget, used + t, count);
          assert used + t + TokenSum(a1[..|rest| + 1], count) > budget;
          assert above[..|sel| + 1] == [p] + a1[..|rest| + 1];
          TokenSumCons(p, a1[..|rest| + 1], count);
        }
      } else {
        assert sel == [];
        assert above[..1] == [p] + [];
        TokenSumCons(p, [], count);
      }
    }
  }

  lemma TokenSumCons(p: ScoredPassage, ps: seq<ScoredPassage>, count: string -> nat)
    ensures TokenSum([p] + ps, count) == Tokens(p, count) + TokenSum(ps, count)
  {
    assert ([p] + ps)[1..] == ps;
  }
}
