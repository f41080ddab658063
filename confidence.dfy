/**
 * Hypothesis confidence scoring (confidence_evaluator.py): evidence support,
 * cross-agent consistency and novelty, combined with fixed weights into a
 * percentage.
 *
 * The NLI verdict (`check_consistency`), the embedding call and the cosine
 * similarity of two embeddings are parameters. An embedding call that fails
 * is `None`.
 */
module Confidence {
  import opened Common
  import TextUtils

  type Vector = seq<real>

  const Indicators: seq<string> :=
    ["protein", "gene", "drug", "disease", "mechanism", "pathway", "target", "inhibition", "activation"]

  const KnownPatterns: seq<string> :=
    ["already known", "previously reported", "established", "well-documented",
     "common", "typical", "standard", "conventional"]

  const NovelIndicators: seq<string> :=
    ["novel", "new", "unprecedented", "previously unknown", "first report"]

  /** `sum(1 for p in patterns if p in text)`: each pattern counts once,
      however often it occurs. */
  function CountPresent(patterns: seq<string>, text: string): (n: nat)
    ensures n <= |patterns|
    ensures n == 0 <==> forall i :: 0 <= i < |patterns| ==> !Contains(text, patterns[i])
  {
    if patterns == [] then 0
    else
      (if Contains(text, patterns[0]) then 1 else 0) + CountPresent(patterns[1..], text)
  }

  // ------------------------------------------------------- evidence support

  /** The per-text quality term `min(indicators_found / 9, 1.0)`. */
  function TextQuality(e: string): (q: real)
    ensures 0.0 <= q <= 1.0
  {
    Min(CountPresent(Indicators, Lower(e)) as real / |Indicators| as real, 1.0)
  }

  function QualitySum(texts: seq<string>): real
  {
    SumReal(Map(TextQuality, texts))
  }

  lemma {:induction false} QualitySumBounds(texts: seq<string>)
    ensures 0.0 <= QualitySum(texts) <= |texts| as real
  {
    if texts != [] {
      var init := texts[..|texts| - 1];
      QualitySumBounds(init);
      assert Map(TextQuality, texts) == Map(TextQuality, init) + [TextQuality(texts[|texts| - 1])];
      assert Map(TextQuality, texts)[..|texts| - 1] == Map(TextQuality, init);
    }
  }

  /** The evidence score as a closed formula: quantity (saturating at five
      texts) and mean indicator coverage, averaged. */
  function EvidenceScore(texts: seq<string>): real
  {
    var mean := if texts == [] then 0.0 else QualitySum(texts) / |texts| as real;
    (Min(|texts| as real / 5.0, 1.0) + mean) / 2.0
  }

  lemma EvidenceScoreBounds(texts: seq<string>)
    ensures 0.0 <= EvidenceScore(texts) <= 1.0
  {
    QualitySumBounds(texts);
    if texts != [] {
      var n := |texts| as real;
      assert QualitySum(texts) / n <= 1.0 by {
        assert QualitySum(texts) <= n;
      }
      assert 0.0 <= QualitySum(texts) / n;
    }
  }

  /** `evaluate_evidence_support`. The hypothesis takes no part in the score. */
  method EvidenceSupport(hypothesis: string, texts: seq<string>) returns (score: real)
    ensures score == EvidenceScore(texts)
    ensures 0.0 <= score <= 1.0
  {
    var quality := 0.0;
    var i := 0;
    while i < |texts|
      invariant 0 <= i <= |texts|
      invariant quality == QualitySum(texts[..i])
    {
      assert texts[..i + 1] == texts[..i] + [texts[i]];
      MapAppend(TextQuality, texts[..i], texts[i]);
      quality := quality + TextQuality(texts[i]);
      i := i + 1;
    }
    assert texts[..i] == texts;
    if |texts| > 0 {
      quality := quality / |texts| as real;
    } else {
      quality := 0.0;
    }
    score := (Min(|texts| as real / 5.0, 1.0) + quality) / 2.0;
    EvidenceScoreBounds(texts);
  }

  // --------------------------------------------------- cross-agent consistency

  /** The cosine similarities of embedding `i` with every later embedding. */
  function Row(e: seq<Vector>, i: nat, cosine: (Vector, Vector) -> real): (r: seq<real>)
    requires i < |e|
    ensures |r| == |e| - i - 1
  {
    seq(|e| - i - 1, k requires 0 <= k < |e| - i - 1 => cosine(e[i], e[i + 1 + k]))
  }

  /** The similarities of all pairs `i < j` with `i < m`, in loop order. */
  function Pairs(e: seq<Vector>, m: nat, cosine: (Vector, Vector) -> real): seq<real>
    requires m <= |e|
  {
    if m == 0 then [] else Pairs(e, m - 1, cosine) + Row(e, m - 1, cosine)
  }

  /** There is one similarity per unordered pair. */
  lemma {:induction false} PairsCount(e: seq<Vector>, m: nat, cosine: (Vector, Vector) -> real)
    requires m <= |e|
    ensures 2 * |Pairs(e, m, cosine)| == m * (2 * |e| - m - 1)
  {
    if m > 0 {
      PairsCount(e, m - 1, cosine);
      var n := |e|;
      assert 2 * |Pairs(e, m, cosine)| == (m - 1) * (2 * n - m) + 2 * (n - m);
      assert (m - 1) * (2 * n - m) + 2 * (n - m) == m * (2 * n - m - 1);
    }
  }

  /** The embeddings of all texts, or None if any embedding call fails. */
  function EmbedAll(texts: seq<string>, embed: string -> Option<Vector>): (r: Option<seq<Vector>>)
    ensures r.Some? ==> |r.value| == |texts|
  {
    if texts == [] then Some([])
    else
      match (EmbedAll(texts[..|texts| - 1], embed), embed(texts[|texts| - 1]))
      case (Some(vs), Some(v)) => Some(vs + [v])
      case _ => None
  }

  function Average(xs: seq<real>): real
  {
    if xs == [] then 0.0 else SumReal(xs) / |xs| as real
  }

  function Clamp01(x: real): (r: real)
    ensures 0.0 <= r <= 1.0
  {
    Min(Max(x, 0.0), 1.0)
  }

  function NliTerm(ok: bool): real
  {
    if ok then 1.0 else 0.5
  }

  /** The consistency score as a closed formula. */
  function ConsistencyScore(texts: seq<string>, nli: seq<string> -> bool,
                            embed: string -> Option<Vector>, cosine: (Vector, Vector) -> real): real
  {
    if |texts| < 2 then 0.5
    else
      match EmbedAll(texts, embed)
      case None => NliTerm(nli(texts))
      case Some(e) => (NliTerm(nli(texts)) + Clamp01(Average(Pairs(e, |e|, cosine)))) / 2.0
  }

  lemma ConsistencyScoreBounds(texts: seq<string>, nli: seq<string> -> bool,
                               embed: string -> Option<Vector>, cosine: (Vector, Vector) -> real)
    ensures var c := ConsistencyScore(texts, nli, embed, cosine);
      && 0.25 <= c <= 1.0
      && (|texts| < 2 ==> c == 0.5)
  {
  }

  /** `evaluate_cross_agent_consistency` */
  method Consistency(texts: seq<string>, nli: seq<string> -> bool,
                     embed: string -> Option<Vector>, cosine: (Vector, Vector) -> real)
    returns (score: real)
    ensures score == ConsistencyScore(texts, nli, embed, cosine)
    ensures 0.25 <= score <= 1.0
    ensures |texts| < 2 ==> score == 0.5
  {
    ConsistencyScoreBounds(texts, nli, embed, cosine);
    if |texts| < 2 {
      return 0.5;
    }
    var nliScore := NliTerm(nli(texts));
    var embeddings: seq<Vector> := [];
    var k := 0;
    while k < |texts|
      invariant 0 <= k <= |texts|
      invariant EmbedAll(texts[..k], embed) == Some(embeddings)
    {
      assert texts[..k + 1][..k] == texts[..k];
      var v := embed(texts[k]);
      if v.None? {
        EmbedAllFails(texts, k + 1, embed);
        return nliScore;
      }
      embeddings := embeddings + [v.value];
      k := k + 1;
    }
    assert texts[..k] == texts;
    var sims := Similarities(embeddings, cosine);
    var avg := if |sims| > 0 then SumReal(sims) / |sims| as real else 0.0;
    score := (nliScore + Min(Max(avg, 0.0), 1.0)) / 2.0;
  }

  /** The double loop over `i < j`: the similarities of all pairs, in loop
      order. */
  method Similarities(embeddings: seq<Vector>, cosine: (Vector, Vector) -> real) returns (sims: seq<real>)
    ensures sims == Pairs(embeddings, |embeddings|, cosine)
  {
    var n := |embeddings|;
    sims := [];
    var i := 0;
    while i < n
      invariant 0 <= i <= n
      invariant sims == Pairs(embeddings, i, cosine)
    {
      var j := i + 1;
      while j < n
        invariant i + 1 <= j <= n
        invariant sims == Pairs(embeddings, i, cosine) + Row(embeddings, i, cosine)[..j - i - 1]
      {
        assert Row(embeddings, i, cosine)[..j - i] == Row(embeddings, i, cosine)[..j - i - 1] + [cosine(embeddings[i], embeddings[j])];
        sims := sims + [cosine(embeddings[i], embeddings[j])];
        j := j + 1;
      }
      assert Row(embeddings, i, cosine)[..n - i - 1] == Row(embeddings, i, cosine);
      i := i + 1;
    }
  }

  /** A failed embedding of some text fails the whole batch. */
  lemma {:induction false} EmbedAllFails(texts: seq<string>, m: nat, embed: string -> Option<Vector>)
    requires 0 < m <= |texts|
    requires embed(texts[m - 1]).None?
    ensures EmbedAll(texts, embed).None?
    decreases |texts|
  {
    if m < |texts| {
      EmbedAllFails(texts[..|texts| - 1], m, embed);
    }
  }

  // ------------------------------------------------------------------ novelty

  /** `evaluate_novelty`: a 0.2 penalty per known-relationship pattern present
      (floored at 0), then a 0.1 boost per novelty indicator present (capped at
      1). The evidence texts take no part in it. */
  function Novelty(hypothesis: string): (r: real)
    ensures 0.0 <= r <= 1.0
  {
    var h := Lower(hypothesis);
    var penalty := CountPresent(KnownPatterns, h);
    var base := Max(1.0 - penalty as real * 0.2, 0.0);
    var boost := CountPresent(NovelIndicators, h);
    Min(base + boost as real * 0.1, 1.0)
  }

  /** With no pattern and no indicator present, novelty is exactly 1. */
  lemma NoveltyOfNeutral(hypothesis: string)
    requires forall i :: 0 <= i < |KnownPatterns| ==> !Contains(Lower(hypothesis), KnownPatterns[i])
    ensures Novelty(hypothesis) == 1.0
  {
  }

  /** Each present known pattern costs at most 0.2 that a boost can win back;
      with no novelty indicator, `p` known patterns leave at most 1 - 0.2p. */
  lemma NoveltyPenalty(hypothesis: string)
    requires forall i :: 0 <= i < |NovelIndicators| ==> !Contains(Lower(hypothesis), NovelIndicators[i])
    ensures Novelty(hypothesis) == Max(1.0 - CountPresent(KnownPatterns, Lower(hypothesis)) as real * 0.2, 0.0)
  {
  }

  // --------------------------------------------------------------- combination

  /** `[clean_text(e) for e in evidence_texts if e]` */
  function CleanEvidence(texts: seq<string>): (r: seq<string>)
    ensures |r| <= |texts|
  {
    if texts == [] then []
    else
      CleanEvidence(texts[..|texts| - 1])
      + (if texts[|texts| - 1] != "" then [TextUtils.CleanText(texts[|texts| - 1])] else [])
  }

  /** Texts that are all empty leave no evidence at all. */
  lemma {:induction false} CleanEvidenceOfBlanks(texts: seq<string>)
    requires forall k :: 0 <= k < |texts| ==> texts[k] == ""
    ensures CleanEvidence(texts) == []
  {
    if texts != [] {
      CleanEvidenceOfBlanks(texts[..|texts| - 1]);
    }
  }

  /** The percentage when no evidence text survives: evidence 0, consistency
      0.5, so only the novelty of the hypothesis varies. */
  function WithoutEvidence(h: string): (r: real)
    ensures 17.5 <= r <= 42.5
  {
    17.5 + 25.0 * Novelty(h)
  }

  lemma ConfidenceOfNoEvidence(h: string, nli: seq<string> -> bool,
                               embed: string -> Option<Vector>, cosine: (Vector, Vector) -> real)
    ensures 100.0 * (0.4 * EvidenceScore([]) + 0.35 * ConsistencyScore([], nli, embed, cosine)
                     + 0.25 * Novelty(h)) == WithoutEvidence(h)
  {
  }

  /** `evaluate_confidence` */
  method EvaluateConfidence(hypothesis: string, texts: seq<string>, nli: seq<string> -> bool,
                            embed: string -> Option<Vector>, cosine: (Vector, Vector) -> real)
    returns (percentage: real)
    ensures var cleaned := CleanEvidence(texts);
      percentage == 100.0 * (0.4 * EvidenceScore(cleaned)
        + 0.35 * ConsistencyScore(cleaned, nli, embed, cosine)
        + 0.25 * Novelty(TextUtils.CleanText(hypothesis)))
    ensures 0.0 <= percentage <= 100.0
  {
    var cleaned := CleanEvidence(texts);
    var h := TextUtils.CleanText(hypothesis);
    var e := EvidenceSupport(h, cleaned);
    var c := Consistency(cleaned, nli, embed, cosine);
    var n := Novelty(h);
    var weighted := e * 0.4 + c * 0.35 + n * 0.25;
    percentage := weighted * 100.0;
  }
}
