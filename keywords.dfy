/**
 * The keyword extraction both real-time connectors use for their fallback
 * queries: `re.findall(r"S[S\-]+", text.lower())` for a start class `S`,
 * stop words removed, at most `limit` kept, in order.
 */
module Keywords {
  import opened Common

  /** The start class `[a-z0-9]` of the PubMed pattern. */
  predicate PubmedStart(c: char)
  {
    'a' <= c <= 'z' || '0' <= c <= '9'
  }

  /** The start class `[A-Za-z0-9]` of the UniProt pattern. */
  predicate UniprotStart(c: char)
  {
    'A' <= c <= 'Z' || 'a' <= c <= 'z' || '0' <= c <= '9'
  }

  /** The continuation class: the start class and `-`. */
  predicate Inner(start: char -> bool, c: char)
  {
    start(c) || c == '-'
  }

  /** The length of the longest prefix of `s` in the continuation class. */
  function RunLength(s: string, start: char -> bool): (n: nat)
    ensures n <= |s|
    ensures forall k :: 0 <= k < n ==> Inner(start, s[k])
    ensures n < |s| ==> !Inner(start, s[n])
  {
    if s == [] || !Inner(start, s[0]) then 0 else 1 + RunLength(s[1..], start)
  }

  /** `re.findall(r"S[S\-]+", s)`: scanning left to right, a match starts at
      a start character followed by at least one continuation character and
      runs greedily; the scan resumes where the match ended. */
  function Tokens(s: string, start: char -> bool): seq<string>
    decreases |s|
  {
    if s == [] then []
    else if start(s[0]) && |s| > 1 && Inner(start, s[1]) then
      var n := 1 + RunLength(s[1..], start);
      [s[..n]] + Tokens(s[n..], start)
    else Tokens(s[1..], start)
  }

  /** `t` is a token found at position `i` of `s`: a slice of at least two
      characters that opens with a start character, holds only continuation
      characters and cannot be extended to the right. */
  predicate TokenAt(s: string, start: char -> bool, t: string, i: nat)
  {
    && |t| >= 2 && start(t[0])
    && (forall k :: 0 <= k < |t| ==> Inner(start, t[k]))
    && i + |t| <= |s| && s[i..i + |t|] == t
    && (i + |t| == |s| || !Inner(start, s[i + |t|]))
  }

  /** How far one step of the scan advances, and the token it finds. */
  function StepLength(s: string, start: char -> bool): (m: nat)
    requires s != []
    ensures 1 <= m <= |s|
  {
    if start(s[0]) && |s| > 1 && Inner(start, s[1]) then 1 + RunLength(s[1..], start) else 1
  }

  function StepTokens(s: string, start: char -> bool): seq<string>
    requires s != []
  {
    if start(s[0]) && |s| > 1 && Inner(start, s[1]) then [s[..StepLength(s, start)]] else []
  }

  lemma TokensStep(s: string, start: char -> bool)
    requires s != []
    ensures Tokens(s, start) == StepTokens(s, start) + Tokens(s[StepLength(s, start)..], start)
    ensures |StepTokens(s, start)| <= 1
    ensures StepTokens(s, start) != [] ==> TokenAt(s, start, StepTokens(s, start)[0], 0)
  {
    if start(s[0]) && |s| > 1 && Inner(start, s[1]) {
      FirstToken(s, start, StepLength(s, start));
    }
  }

  lemma {:induction false} TokensShape(s: string, start: char -> bool, k: nat) returns (i: nat)
    requires k < |Tokens(s, start)|
    ensures TokenAt(s, start, Tokens(s, start)[k], i)
    decreases |s|
  {
    TokensStep(s, start);
    var head := StepTokens(s, start);
    var m := StepLength(s, start);
    if k < |head| {
      i := 0;
    } else {
      var j := TokensShape(s[m..], start, k - |head|);
      i := m + j;
      TokenShift(s, start, Tokens(s[m..], start)[k - |head|], m, j);
    }
  }

  /** A token of a suffix is a token of the whole text. */
  lemma TokenShift(s: string, start: char -> bool, t: string, n: nat, j: nat)
    requires n <= |s| && TokenAt(s[n..], start, t, j)
    ensures TokenAt(s, start, t, n + j)
  {
    assert s[n..][j..j + |t|] == s[n + j..n + j + |t|];
    if j + |t| < |s| - n {
      assert s[n..][j + |t|] == s[n + j + |t|];
    }
  }

  lemma FirstToken(s: string, start: char -> bool, n: nat)
    requires |s| > 1 && start(s[0]) && Inner(start, s[1]) && n == 1 + RunLength(s[1..], start)
    ensures TokenAt(s, start, s[..n], 0)
  {
    forall j | 1 <= j < n
      ensures Inner(start, s[j])
    {
      assert s[j] == s[1..][j - 1];
    }
    if n < |s| {
      assert s[n] == s[1..][n - 1];
    }
  }

  /** Two start classes that agree on every character of `s` find the same
      tokens in it. */
  lemma {:induction false} TokensAgree(s: string, a: char -> bool, b: char -> bool)
    requires forall k :: 0 <= k < |s| ==> a(s[k]) == b(s[k])
    ensures Tokens(s, a) == Tokens(s, b)
    decreases |s|
  {
    if s != [] {
      if a(s[0]) && |s| > 1 && Inner(a, s[1]) {
        RunLengthAgrees(s[1..], a, b);
        var n := 1 + RunLength(s[1..], a);
        TokensAgree(s[n..], a, b);
      } else {
        TokensAgree(s[1..], a, b);
      }
    }
  }

  lemma {:induction false} RunLengthAgrees(s: string, a: char -> bool, b: char -> bool)
    requires forall k :: 0 <= k < |s| ==> a(s[k]) == b(s[k])
    ensures RunLength(s, a) == RunLength(s, b)
    decreases |s|
  {
    if s != [] && Inner(a, s[0]) {
      RunLengthAgrees(s[1..], a, b);
    }
  }

  /** The upper-case letters of the UniProt pattern never matter: it runs on
      lower-cased text, where it finds what the PubMed pattern finds. */
  lemma UniprotClassIsPubmedClass(q: string)
    ensures Tokens(Lower(q), UniprotStart) == Tokens(Lower(q), PubmedStart)
  {
    var s := Lower(q);
    forall k | 0 <= k < |s|
      ensures UniprotStart(s[k]) == PubmedStart(s[k])
    {
      assert s[k] == LowerChar(q[k]);
    }
    TokensAgree(s, UniprotStart, PubmedStart);
  }

  /** `[t for t in tokens if t not in stop]` */
  function Unstopped(ts: seq<string>, stop: set<string>): (r: seq<string>)
    ensures |r| <= |ts|
  {
    if ts == [] then []
    else
      var t := ts[|ts| - 1];
      Unstopped(ts[..|ts| - 1], stop) + (if t !in stop then [t] else [])
  }

  lemma {:induction false} UnstoppedExactly(ts: seq<string>, stop: set<string>, t: string)
    ensures t in Unstopped(ts, stop) <==> t in ts && t !in stop
  {
    if ts != [] {
      var init := ts[..|ts| - 1];
      UnstoppedExactly(init, stop, t);
      assert ts == init + [ts[|ts| - 1]];
    }
  }

  /** The first `limit` tokens of the lower-cased query that are not stop
      words. */
  function Keywords(q: string, start: char -> bool, stop: set<string>, limit: nat): seq<string>
  {
    var u := Unstopped(Tokens(Lower(q), start), stop);
    u[..if |u| < limit then |u| else limit]
  }

  /** At most `limit` keywords, none a stop word, each a token of the
      lower-cased query; the limit is reached whenever the query has that
      many tokens that are not stop words. */
  lemma KeywordsShape(q: string, start: char -> bool, stop: set<string>, limit: nat)
    ensures var kws := Keywords(q, start, stop, limit);
      && |kws| <= limit
      && (|Unstopped(Tokens(Lower(q), start), stop)| >= limit ==> |kws| == limit)
      && (forall kw :: kw in kws ==> kw !in stop && kw in Tokens(Lower(q), start))
  {
    var ts := Tokens(Lower(q), start);
    var u := Unstopped(ts, stop);
    forall kw | kw in Keywords(q, start, stop, limit)
      ensures kw !in stop && kw in ts
    {
      UnstoppedExactly(ts, stop, kw);
    }
  }

  /** Every keyword is a lower-case token of the query of at least two
      characters. */
  lemma KeywordIsToken(q: string, start: char -> bool, stop: set<string>, limit: nat, k: nat) returns (i: nat)
    requires k < |Keywords(q, start, stop, limit)|
    ensures TokenAt(Lower(q), start, Keywords(q, start, stop, limit)[k], i)
  {
    var ts := Tokens(Lower(q), start);
    var kw := Keywords(q, start, stop, limit)[k];
    KeywordsShape(q, start, stop, limit);
    assert kw in Keywords(q, start, stop, limit);
    var j :| 0 <= j < |ts| && ts[j] == kw;
    i := TokensShape(Lower(q), start, j);
  }
}
