/**
 * The merge step of the hybrid search: lexical hits from BigQuery and
 * nearest neighbours from the vector index are merged by id, scored by a
 * weighted sum, sorted by score and cut to `k`. Both searches are I/O; their
 * hits are inputs.
 */
module HybridSearch {
  import opened Common
  import opened Sorting

  /** A lexical hit; a hit without a `lexical_score` reads as 0.0. */
  datatype LexicalHit = LexicalHit(id: Value, lexicalScore: Option<real>)

  /** A vector hit: `vector_score` is the neighbour's distance. */
  datatype VectorHit = VectorHit(id: Value, vectorScore: real)

  /** An entry of the `merged` dictionary. */
  datatype Merged = Merged(id: Value, lexicalScore: real, vectorScore: real)

  /** A result: the merged entry with its `score`. */
  datatype Hit = Hit(id: Value, lexicalScore: real, vectorScore: real, score: real)

  function LexScore(l: LexicalHit): real
  {
    if l.lexicalScore.Some? then l.lexicalScore.value else 0.0
  }

  function OrZero(o: Option<real>): real
  {
    if o.Some? then o.value else 0.0
  }

  function LexicalId(l: LexicalHit): Value { l.id }
  function VectorId(v: VectorHit): Value { v.id }

  /** The ids in order of first appearance: the key order of a Python dict
      filled from `ids` (assigning an existing key keeps its place). */
  function FirstSeen(ids: seq<Value>): (r: seq<Value>)
    ensures forall x :: x in r <==> x in ids
    ensures forall i, j :: 0 <= i < j < |r| ==> r[i] != r[j]
  {
    if ids == [] then []
    else
      var r := FirstSeen(ids[..|ids| - 1]);
      if ids[|ids| - 1] in r then r else r + [ids[|ids| - 1]]
  }

  /** The score of the last lexical hit with id `id`, if any. */
  function LastLexical(ls: seq<LexicalHit>, id: Value): Option<real>
  {
    if ls == [] then None
    else if ls[|ls| - 1].id == id then Some(LexScore(ls[|ls| - 1]))
    else LastLexical(ls[..|ls| - 1], id)
  }

  /** The distance of the last vector hit with id `id`, if any. */
  function LastVector(vs: seq<VectorHit>, id: Value): Option<real>
  {
    if vs == [] then None
    else if vs[|vs| - 1].id == id then Some(vs[|vs| - 1].vectorScore)
    else LastVector(vs[..|vs| - 1], id)
  }

  function MergedEntry(ls: seq<LexicalHit>, vs: seq<VectorHit>, id: Value): Merged
  {
    Merged(id, OrZero(LastLexical(ls, id)), OrZero(LastVector(vs, id)))
  }

  function AllIds(ls: seq<LexicalHit>, vs: seq<VectorHit>): seq<Value>
  {
    FirstSeen(Map(LexicalId, ls) + Map(VectorId, vs))
  }

  /** The entries for `ids`, in order. */
  function Entries(ls: seq<LexicalHit>, vs: seq<VectorHit>, ids: seq<Value>): (r: seq<Merged>)
    ensures |r| == |ids| && forall i :: 0 <= i < |ids| ==> r[i] == MergedEntry(ls, vs, ids[i])
  {
    if ids == [] then [] else Entries(ls, vs, ids[..|ids| - 1]) + [MergedEntry(ls, vs, ids[|ids| - 1])]
  }

  /** `list(merged.values())` */
  function MergedValues(ls: seq<LexicalHit>, vs: seq<VectorHit>): seq<Merged>
  {
    Entries(ls, vs, AllIds(ls, vs))
  }

  /** `0.6 * (1.0 - vector_score) + 0.4 * lexical_score` */
  function WithScore(m: Merged): Hit
  {
    Hit(m.id, m.lexicalScore, m.vectorScore, 0.6 * (1.0 - m.vectorScore) + 0.4 * m.lexicalScore)
  }

  function ScoreOf(h: Hit): real { h.score }
  function HitId(h: Hit): Value { h.id }

  /** Python's `s[:k]`: a negative `k` drops `-k` elements from the end. */
  function Head<T>(s: seq<T>, k: int): (r: seq<T>)
    ensures |r| <= |s| && r == s[..|r|]
    ensures k >= 0 ==> |r| == if k < |s| then k else |s|
    ensures k < 0 ==> |r| == if |s| + k < 0 then 0 else |s| + k
  {
    if k >= 0 then (if k < |s| then s[..k] else s)
    else if |s| + k < 0 then [] else s[..|s| + k]
  }

  /** What `hybrid` returns for the given hits. */
  function Hybrid(ls: seq<LexicalHit>, vs: seq<VectorHit>, k: int): seq<Hit>
  {
    Head(SortDesc(Map(WithScore, MergedValues(ls, vs)), ScoreOf), k)
  }

  // ------------------------------------------------------------------ merge

  lemma FirstSeenSnoc(ids: seq<Value>, x: Value)
    ensures FirstSeen(ids + [x]) == if x in FirstSeen(ids) then FirstSeen(ids) else FirstSeen(ids) + [x]
  {
    assert (ids + [x])[..|ids|] == ids;
  }

  lemma LastLexicalSnoc(ls: seq<LexicalHit>, l: LexicalHit, x: Value)
    ensures LastLexical(ls + [l], x) == if l.id == x then Some(LexScore(l)) else LastLexical(ls, x)
  {
    assert (ls + [l])[..|ls|] == ls;
  }

  lemma LastVectorSnoc(vs: seq<VectorHit>, v: VectorHit, x: Value)
    ensures LastVector(vs + [v], x) == if v.id == x then Some(v.vectorScore) else LastVector(vs, x)
  {
    assert (vs + [v])[..|vs|] == vs;
  }

  /** The state of `merged` after the lexical loop has seen `ls`. */
  ghost predicate HoldsLexical(order: seq<Value>, merged: map<Value, Merged>, ls: seq<LexicalHit>)
  {
    && order == FirstSeen(Map(LexicalId, ls))
    && (forall x :: x in merged <==> x in order)
    && (forall x :: x in merged ==> merged[x] == Merged(x, OrZero(LastLexical(ls, x)), 0.0))
  }

  /** The state of `merged` after the vector loop has seen `vs`. */
  ghost predicate Holds(order: seq<Value>, merged: map<Value, Merged>, ls: seq<LexicalHit>, vs: seq<VectorHit>)
  {
    && order == FirstSeen(Map(LexicalId, ls) + Map(VectorId, vs))
    && (forall x :: x in merged <==> x in order)
    && (forall x :: x in merged ==> merged[x] == MergedEntry(ls, vs, x))
  }

  lemma LexicalStep(order: seq<Value>, merged: map<Value, Merged>, ls: seq<LexicalHit>, l: LexicalHit,
                    order': seq<Value>, merged': map<Value, Merged>)
    requires HoldsLexical(order, merged, ls)
    requires order' == (if l.id in merged then order else order + [l.id])
    requires merged' == merged[l.id := Merged(l.id, LexScore(l), 0.0)]
    ensures HoldsLexical(order', merged', ls + [l])
  {
    MapAppend(LexicalId, ls, l);
    FirstSeenSnoc(Map(LexicalId, ls), l.id);
    forall x | x in merged'
      ensures merged'[x] == Merged(x, OrZero(LastLexical(ls + [l], x)), 0.0)
    {
      LastLexicalSnoc(ls, l, x);
    }
  }

  lemma LexicalDone(order: seq<Value>, merged: map<Value, Merged>, ls: seq<LexicalHit>)
    requires HoldsLexical(order, merged, ls)
    ensures Holds(order, merged, ls, [])
  {
    assert Map(LexicalId, ls) + Map(VectorId, []) == Map(LexicalId, ls);
  }

  lemma VectorStep(order: seq<Value>, merged: map<Value, Merged>, ls: seq<LexicalHit>,
                   vs: seq<VectorHit>, v: VectorHit, order': seq<Value>, merged': map<Value, Merged>)
    requires Holds(order, merged, ls, vs)
    requires order' == (if v.id in merged then order else order + [v.id])
    requires merged' == merged[v.id := (if v.id in merged then merged[v.id] else Merged(v.id, 0.0, 0.0))
                                       .(vectorScore := v.vectorScore)]
    ensures Holds(order', merged', ls, vs + [v])
  {
    VectorOrderStep(ls, vs, v);
    forall x | x in merged'
      ensures merged'[x] == MergedEntry(ls, vs + [v], x)
    {
      VectorEntryStep(order, merged, ls, vs, v, x);
    }
  }

  /** The ids seen after one more vector hit. */
  lemma VectorOrderStep(ls: seq<LexicalHit>, vs: seq<VectorHit>, v: VectorHit)
    ensures var ids := Map(LexicalId, ls) + Map(VectorId, vs);
      FirstSeen(Map(LexicalId, ls) + Map(VectorId, vs + [v]))
        == if v.id in FirstSeen(ids) then FirstSeen(ids) else FirstSeen(ids) + [v.id]
  {
    var lx := Map(LexicalId, ls);
    assert lx + Map(VectorId, vs + [v]) == (lx + Map(VectorId, vs)) + [v.id] by {
      MapAppend(VectorId, vs, v);
      ConcatAssoc(lx, Map(VectorId, vs), [v.id]);
    }
    FirstSeenSnoc(lx + Map(VectorId, vs), v.id);
  }

  /** The entry of one id after one more vector hit. */
  lemma VectorEntryStep(order: seq<Value>, merged: map<Value, Merged>, ls: seq<LexicalHit>,
                        vs: seq<VectorHit>, v: VectorHit, x: Value)
    requires Holds(order, merged, ls, vs)
    requires x in merged || x == v.id
    ensures var entry := if v.id in merged then merged[v.id] else Merged(v.id, 0.0, 0.0);
      merged[v.id := entry.(vectorScore := v.vectorScore)][x] == MergedEntry(ls, vs + [v], x)
  {
    LastVectorSnoc(vs, v, x);
    if x == v.id && v.id !in merged {
      LastLexicalIn(ls, x);
      assert x !in Map(LexicalId, ls) + Map(VectorId, vs);
    }
  }

  /** An id with a lexical score appears among the lexical ids. */
  lemma {:induction false} LastLexicalIn(ls: seq<LexicalHit>, id: Value)
    ensures LastLexical(ls, id).Some? <==> id in Map(LexicalId, ls)
  {
    if ls != [] {
      LastLexicalIn(ls[..|ls| - 1], id);
      MapAppend(LexicalId, ls[..|ls| - 1], ls[|ls| - 1]);
      assert ls == ls[..|ls| - 1] + [ls[|ls| - 1]];
    }
  }

  lemma {:induction false} LastVectorIn(vs: seq<VectorHit>, id: Value)
    ensures LastVector(vs, id).Some? <==> id in Map(VectorId, vs)
  {
    if vs != [] {
      LastVectorIn(vs[..|vs| - 1], id);
      MapAppend(VectorId, vs[..|vs| - 1], vs[|vs| - 1]);
      assert vs == vs[..|vs| - 1] + [vs[|vs| - 1]];
    }
  }

  /** The lexical loop: `merged[l["id"]] = {"id", "lexical_score", "vector_score": 0.0}`. */
  method MergeLexical(ls: seq<LexicalHit>) returns (order: seq<Value>, merged: map<Value, Merged>)
    ensures Holds(order, merged, ls, [])
  {
    order, merged := [], map[];
    var i := 0;
    while i < |ls|
      invariant 0 <= i <= |ls|
      invariant HoldsLexical(order, merged, ls[..i])
    {
      var l := ls[i];
      ghost var order0, merged0 := order, merged;
      if l.id !in merged {
        order := order + [l.id];
      }
      merged := merged[l.id := Merged(l.id, LexScore(l), 0.0)];
      LexicalStep(order0, merged0, ls[..i], l, order, merged);
      TakeSnoc(ls, i);
      i := i + 1;
    }
    TakeAll(ls);
    LexicalDone(order, merged, ls);
  }

  /** The vector loop: the existing entry, or a new one with lexical score
      0.0, takes the hit's `vector_score`. */
  method MergeVector(ls: seq<LexicalHit>, vs: seq<VectorHit>, order0: seq<Value>, merged0: map<Value, Merged>)
    returns (order: seq<Value>, merged: map<Value, Merged>)
    requires Holds(order0, merged0, ls, [])
    ensures Holds(order, merged, ls, vs)
  {
    order, merged := order0, merged0;
    var j := 0;
    while j < |vs|
      invariant 0 <= j <= |vs|
      invariant Holds(order, merged, ls, vs[..j])
    {
      var v := vs[j];
      ghost var order1, merged1 := order, merged;
      var m := if v.id in merged then merged[v.id] else Merged(v.id, 0.0, 0.0);
      if v.id !in merged {
        order := order + [v.id];
      }
      merged := merged[v.id := m.(vectorScore := v.vectorScore)];
      VectorStep(order1, merged1, ls, vs[..j], v, order, merged);
      TakeSnoc(vs, j);
      j := j + 1;
    }
    TakeAll(vs);
  }

  /** The two merge loops and `list(merged.values())`. */
  method Merge(ls: seq<LexicalHit>, vs: seq<VectorHit>) returns (values: seq<Merged>)
    ensures values == MergedValues(ls, vs)
  {
    var order, merged := MergeLexical(ls);
    order, merged := MergeVector(ls, vs, order, merged);
    values := [];
    var n := 0;
    while n < |order|
      invariant 0 <= n <= |order|
      invariant values == Entries(ls, vs, order[..n])
    {
      TakeNext([], order, n);
      values := values + [merged[order[n]]];
      n := n + 1;
    }
    TakeAll(order);
  }

  /** `hybrid(query, k)` after the two searches: merge, score every entry,
      sort by score (descending, stable) and keep the first `k`. */
  method HybridMerge(ls: seq<LexicalHit>, vs: seq<VectorHit>, k: int) returns (results: seq<Hit>)
    ensures results == Hybrid(ls, vs, k)
  {
    var values := Merge(ls, vs);
    var scored: seq<Hit> := [];
    var n := 0;
    while n < |values|
      invariant 0 <= n <= |values|
      invariant scored == Map(WithScore, values[..n])
    {
      TakeNext([], values, n);
      MapAppend(WithScore, values[..n], values[n]);
      scored := scored + [WithScore(values[n])];
      n := n + 1;
    }
    TakeAll(values);
    var sorted := SortDesc(scored, ScoreOf);
    results := Head(sorted, k);
  }

  // ------------------------------------------------------------- properties

  /** Every result is the scored entry of one of the merged ids. */
  lemma HitIsEntry(ls: seq<LexicalHit>, vs: seq<VectorHit>, k: int, i: nat)
    requires i < |Hybrid(ls, vs, k)|
    ensures var h := Hybrid(ls, vs, k)[i];
      h.id in AllIds(ls, vs) && h == WithScore(MergedEntry(ls, vs, h.id))
  {
    var scored := Map(WithScore, MergedValues(ls, vs));
    SortDescPermutation(scored, ScoreOf);
    var h := Hybrid(ls, vs, k)[i];
    assert h in multiset(SortDesc(scored, ScoreOf));
    var m :| 0 <= m < |scored| && scored[m] == h;
  }

  /** Each id appears at most once, and it comes from one of the two searches. */
  lemma HybridIds(ls: seq<LexicalHit>, vs: seq<VectorHit>, k: int)
    ensures DistinctBy(Hybrid(ls, vs, k), HitId)
    ensures forall i :: 0 <= i < |Hybrid(ls, vs, k)| ==>
      Hybrid(ls, vs, k)[i].id in Map(LexicalId, ls) || Hybrid(ls, vs, k)[i].id in Map(VectorId, vs)
  {
    var ids := AllIds(ls, vs);
    var scored := Map(WithScore, MergedValues(ls, vs));
    assert DistinctBy(scored, HitId) by {
      forall a, b | 0 <= a < b < |scored|
        ensures HitId(scored[a]) != HitId(scored[b])
      {
        assert scored[a].id == ids[a] && scored[b].id == ids[b];
      }
    }
    SortDescDistinctBy(scored, ScoreOf, HitId);
    forall i | 0 <= i < |Hybrid(ls, vs, k)|
      ensures Hybrid(ls, vs, k)[i].id in Map(LexicalId, ls) || Hybrid(ls, vs, k)[i].id in Map(VectorId, vs)
    {
      HitIsEntry(ls, vs, k, i);
    }
  }

  /** The scores of a result: an id found only lexically has distance 0.0,
      an id found only by the vector search has lexical score 0.0, an id
      found by both keeps both, each from the last hit with that id; and the
      score is `0.6 * (1 - distance) + 0.4 * lexical score`. */
  lemma HybridScores(ls: seq<LexicalHit>, vs: seq<VectorHit>, k: int, i: nat)
    requires i < |Hybrid(ls, vs, k)|
    ensures var h := Hybrid(ls, vs, k)[i];
      && h.score == 0.6 * (1.0 - h.vectorScore) + 0.4 * h.lexicalScore
      && (h.id in Map(LexicalId, ls) ==> Some(h.lexicalScore) == LastLexical(ls, h.id))
      && (h.id !in Map(LexicalId, ls) ==> h.lexicalScore == 0.0)
      && (h.id in Map(VectorId, vs) ==> Some(h.vectorScore) == LastVector(vs, h.id))
      && (h.id !in Map(VectorId, vs) ==> h.vectorScore == 0.0)
  {
    var h := Hybrid(ls, vs, k)[i];
    HitIsEntry(ls, vs, k, i);
    LastLexicalIn(ls, h.id);
    LastVectorIn(vs, h.id);
  }

  /** The results are in non-increasing score order, at most `k` of them, and
      with `k` at least the number of distinct ids they are all the merged
      entries. */
  lemma HybridOrder(ls: seq<LexicalHit>, vs: seq<VectorHit>, k: int)
    ensures SortedDesc(Hybrid(ls, vs, k), ScoreOf)
    ensures k >= 0 ==> |Hybrid(ls, vs, k)| <= k
    ensures k >= |AllIds(ls, vs)| ==>
      multiset(Hybrid(ls, vs, k)) == multiset(Map(WithScore, MergedValues(ls, vs)))
  {
    var scored := Map(WithScore, MergedValues(ls, vs));
    SortDescSorted(scored, ScoreOf);
    SortDescPermutation(scored, ScoreOf);
  }

  /** Hits with equal scores keep their merge order: for every `k` the hits
      of one score are the first of that score in merge order, and all of
      them when `k` covers every distinct id. */
  lemma HybridStable(ls: seq<LexicalHit>, vs: seq<VectorHit>, k: int, v: real)
    ensures Ties(Hybrid(ls, vs, k), ScoreOf, v) <= Ties(Map(WithScore, MergedValues(ls, vs)), ScoreOf, v)
    ensures k >= |AllIds(ls, vs)| ==>
      Ties(Hybrid(ls, vs, k), ScoreOf, v) == Ties(Map(WithScore, MergedValues(ls, vs)), ScoreOf, v)
  {
    var sorted := SortDesc(Map(WithScore, MergedValues(ls, vs)), ScoreOf);
    SortDescStable(Map(WithScore, MergedValues(ls, vs)), ScoreOf, v);
    TiesOfPrefix(sorted, |Hybrid(ls, vs, k)|, ScoreOf, v);
    if k >= |AllIds(ls, vs)| {
      assert Hybrid(ls, vs, k) == sorted;
    }
  }

  /** `LastLexical` is the score of the last hit with that id, stated by
      index in both directions: a score comes from a hit with no later hit of
      the same id ... */
  lemma {:induction false} LastLexicalIndex(ls: seq<LexicalHit>, id: Value) returns (i: nat)
    requires LastLexical(ls, id).Some?
    ensures i < |ls| && ls[i].id == id && LastLexical(ls, id) == Some(LexScore(ls[i]))
    ensures forall j :: i < j < |ls| ==> ls[j].id != id
  {
    if ls[|ls| - 1].id == id {
      i := |ls| - 1;
    } else {
      var pre := ls[..|ls| - 1];
      i := LastLexicalIndex(pre, id);
      assert ls[i] == pre[i];
    }
  }

  /** ... and a hit with no later hit of the same id gives the score. */
  lemma {:induction false} LastLexicalAt(ls: seq<LexicalHit>, i: nat)
    requires i < |ls| && forall j :: i < j < |ls| ==> ls[j].id != ls[i].id
    ensures LastLexical(ls, ls[i].id) == Some(LexScore(ls[i]))
  {
    if i < |ls| - 1 {
      var pre := ls[..|ls| - 1];
      assert pre[i] == ls[i];
      LastLexicalAt(pre, i);
    }
  }
}
