/**
 * Shared vocabulary of the model: optional values, the dynamically typed
 * values that the Python code keeps in its metadata dictionaries, and the
 * handful of Python string operations (`str.split()`, `strip`, `lower`,
 * `in`, `join`, `str()`) that the core uses everywhere.
 *
 * Whitespace is Python's ASCII whitespace (`str.isspace` restricted to
 * ASCII); case mapping is ASCII only.
 */
module Common {

  datatype Option<T> = None | Some(value: T)

  /** A value stored in a Python metadata dictionary. Timestamps (`Date`) are
      seconds since an arbitrary epoch; `aware` marks a datetime that carries
      a UTC offset, which Python refuses to subtract from a naive one. */
  datatype Value =
    | Null
    | Bool(b: bool)
    | Int(i: int)
    | Real(r: real)
    | Str(s: string)
    | Date(t: int, aware: bool)

  /** A LangChain `Document`: page content plus its metadata dictionary. */
  datatype Document = Document(content: string, metadata: map<string, Value>)

  /** Python truthiness (`bool(v)`); a datetime object is always true. */
  predicate Truthy(v: Value)
  {
    match v
    case Null => false
    case Bool(b) => b
    case Int(i) => i != 0
    case Real(r) => r != 0.0
    case Str(s) => s != ""
    case Date(_, _) => true
  }

  /** `x or ""` / `x or []` for an optional string or list: `None` and the
      empty value both give the empty value. */
  function OrEmpty<T>(o: Option<seq<T>>): seq<T>
  {
    if o.Some? then o.value else []
  }

  /** `dict.get(k, d)` */
  function Get(m: map<string, Value>, k: string, d: Value): Value
  {
    if k in m then m[k] else d
  }

  /** `a or b` on two values */
  function Or(a: Value, b: Value): Value
  {
    if Truthy(a) then a else b
  }

  // ---------------------------------------------------------------- numbers

  function DigitChar(d: nat): char
    requires d < 10
  {
    ('0' as int + d) as char
  }

  /** Decimal rendering of a natural number, as `str(n)`. */
  function NatToString(n: nat): (r: string)
    ensures |r| >= 1
    ensures forall k :: 0 <= k < |r| ==> '0' <= r[k] <= '9'
  {
    if n < 10 then [DigitChar(n)] else NatToString(n / 10) + [DigitChar(n % 10)]
  }

  /** Distinct numbers have distinct decimal renderings. */
  lemma {:induction false} NatToStringInjective(a: nat, b: nat)
    requires NatToString(a) == NatToString(b)
    ensures a == b
  {
    var sa, sb := NatToString(a), NatToString(b);
    if a >= 10 && b >= 10 {
      assert sa[..|sa| - 1] == NatToString(a / 10) && sb[..|sb| - 1] == NatToString(b / 10);
      NatToStringInjective(a / 10, b / 10);
      assert DigitChar(a % 10) == sa[|sa| - 1] == sb[|sb| - 1] == DigitChar(b % 10);
    }
  }

  function IntToString(i: int): string
  {
    if i < 0 then "-" + NatToString(-i) else NatToString(i)
  }

  /** `str(v)`. A float or datetime value is rendered by a fixed stand-in: the
      model does not reproduce Python's float and datetime formatting. */
  function Show(v: Value): string
  {
    match v
    case Null => "None"
    case Bool(b) => if b then "True" else "False"
    case Int(i) => IntToString(i)
    case Real(_) => "<float>"
    case Str(s) => s
    case Date(_, _) => "<datetime>"
  }

  function Min(a: real, b: real): real { if a <= b then a else b }
  function Max(a: real, b: real): real { if a >= b then a else b }

  function SumReal(s: seq<real>): real
  {
    if s == [] then 0.0 else SumReal(s[..|s| - 1]) + s[|s| - 1]
  }

  // ---------------------------------------------------------------- strings

  /** ASCII whitespace as Python's `str.isspace` and the regex class `\s` see it. */
  predicate IsSpace(c: char)
  {
    c == ' ' || ('\t' <= c <= '\r') || ('\U{1C}' <= c <= '\U{1F}')
  }

  predicate NoSpace(s: string)
  {
    forall k :: 0 <= k < |s| ==> !IsSpace(s[k])
  }

  function LowerChar(c: char): char
  {
    if 'A' <= c <= 'Z' then (c as int + 32) as char else c
  }

  function UpperChar(c: char): char
  {
    if 'a' <= c <= 'z' then (c as int - 32) as char else c
  }

  /** `s.lower()` */
  function Lower(s: string): (r: string)
    ensures |r| == |s|
  {
    seq(|s|, k requires 0 <= k < |s| => LowerChar(s[k]))
  }

  /** `s.upper()` */
  function Upper(s: string): (r: string)
    ensures |r| == |s|
  {
    seq(|s|, k requires 0 <= k < |s| => UpperChar(s[k]))
  }

  /** `sub in s` for strings */
  predicate Contains(s: string, sub: string)
    decreases |s|
  {
    sub <= s || (|s| > 0 && Contains(s[1..], sub))
  }

  lemma ContainsAt(s: string, sub: string, i: nat)
    requires i + |sub| <= |s| && s[i..i + |sub|] == sub
    ensures Contains(s, sub)
    decreases i
  {
    if i > 0 {
      assert s[1..][i - 1..i - 1 + |sub|] == sub;
      ContainsAt(s[1..], sub, i - 1);
    }
  }

  lemma ContainsConcat(a: string, sub: string, b: string)
    ensures Contains(a + sub + b, sub)
  {
    var s := a + sub + b;
    assert s[|a|..|a| + |sub|] == sub;
    ContainsAt(s, sub, |a|);
  }

  lemma {:induction false} ContainsWitness(s: string, sub: string) returns (i: nat)
    requires Contains(s, sub)
    ensures i + |sub| <= |s| && s[i..i + |sub|] == sub
    decreases |s|
  {
    if sub <= s {
      i := 0;
    } else {
      var j := ContainsWitness(s[1..], sub);
      i := j + 1;
      assert s[1..][j..j + |sub|] == s[j + 1..j + 1 + |sub|];
    }
  }

  lemma ContainsTrans(a: string, b: string, c: string)
    requires Contains(a, b) && Contains(b, c)
    ensures Contains(a, c)
  {
    var i := ContainsWitness(a, b);
    var j := ContainsWitness(b, c);
    assert b[j..j + |c|] == c;
    forall t | 0 <= t < |c|
      ensures a[i + j + t] == c[t]
    {
      assert a[i + (j + t)] == b[j + t];
    }
    assert a[i + j..i + j + |c|] == c;
    ContainsAt(a, c, i + j);
  }

  /** Every part of a join occurs in it. */
  lemma {:induction false} JoinContainsPart(sep: string, parts: seq<string>, k: nat)
    requires k < |parts|
    ensures Contains(Join(sep, parts), parts[k])
  {
    var j := Join(sep, parts);
    if |parts| == 1 {
      ContainsAt(j, parts[0], 0);
    } else if k == 0 {
      assert j[..|parts[0]|] == parts[0];
      ContainsAt(j, parts[0], 0);
    } else {
      var rest := Join(sep, parts[1..]);
      JoinContainsPart(sep, parts[1..], k - 1);
      assert j == parts[0] + sep + rest + "";
      ContainsConcat(parts[0] + sep, rest, "");
      ContainsTrans(j, rest, parts[k]);
    }
  }

  lemma ContainsInPart(sep: string, parts: seq<string>, k: nat, sub: string)
    requires k < |parts| && Contains(parts[k], sub)
    ensures Contains(Join(sep, parts), sub)
  {
    JoinContainsPart(sep, parts, k);
    ContainsTrans(Join(sep, parts), parts[k], sub);
  }

  /** Lower-cased text never contains an upper-case ASCII letter, so no
      pattern holding one can occur in it. */
  lemma {:induction false} LowerMissesUpper(s: string, sub: string, k: nat)
    requires k < |sub| && 'A' <= sub[k] <= 'Z'
    ensures !Contains(Lower(s), sub)
    decreases |s|
  {
    if k < |s| {
      assert !('A' <= Lower(s)[k] <= 'Z');
    }
    if |s| > 0 {
      assert Lower(s)[1..] == Lower(s[1..]);
      LowerMissesUpper(s[1..], sub, k);
    }
  }

  /** `s.lstrip()` */
  function StripLeft(s: string): (r: string)
    ensures |r| <= |s| && r == s[|s| - |r|..]
    ensures r == [] || !IsSpace(r[0])
  {
    if |s| > 0 && IsSpace(s[0]) then StripLeft(s[1..]) else s
  }

  /** `s.rstrip()` */
  function StripRight(s: string): (r: string)
    ensures |r| <= |s| && r == s[..|r|]
    ensures r == [] || !IsSpace(r[|r| - 1])
  {
    if |s| > 0 && IsSpace(s[|s| - 1]) then StripRight(s[..|s| - 1]) else s
  }

  /** `s.strip()` */
  function Strip(s: string): string
  {
    StripRight(StripLeft(s))
  }

  lemma StripNoEdges(s: string)
    ensures Strip(s) == [] || (!IsSpace(Strip(s)[0]) && !IsSpace(Strip(s)[|Strip(s)| - 1]))
  {
    var l := StripLeft(s);
    var r := StripRight(l);
    if r != [] {
      assert r[0] == l[0];
    }
  }

  lemma StripOfStripped(s: string)
    requires s == [] || (!IsSpace(s[0]) && !IsSpace(s[|s| - 1]))
    ensures Strip(s) == s
  {
  }

  lemma StripIsSlice(s: string) returns (i: nat, j: nat)
    ensures i <= j <= |s| && Strip(s) == s[i..j]
  {
    var l := StripLeft(s);
    i := |s| - |l|;
    j := i + |StripRight(l)|;
    assert l == s[i..];
  }

  /** Python `not s.strip()`: the string is empty or all whitespace. */
  predicate IsBlank(s: string)
  {
    forall k :: 0 <= k < |s| ==> IsSpace(s[k])
  }

  lemma StripEmptyIffBlank(s: string)
    ensures Strip(s) == [] <==> IsBlank(s)
  {
    var i, j := StripIsSlice(s);
    StripNoEdges(s);
    if !IsBlank(s) {
      var k :| 0 <= k < |s| && !IsSpace(s[k]);
      StripKeepsNonSpace(s, k);
    }
  }

  lemma StripKeepsNonSpace(s: string, k: nat)
    requires k < |s| && !IsSpace(s[k])
    ensures Strip(s) != []
    decreases |s|
  {
    var l := StripLeft(s);
    assert l != [] by {
      StripLeftKeeps(s, k);
    }
    if StripRight(l) == [] {
      StripRightKeeps(l, 0);
    }
  }

  lemma StripLeftKeeps(s: string, k: nat)
    requires k < |s| && !IsSpace(s[k])
    ensures StripLeft(s) != []
    decreases |s|
  {
    if IsSpace(s[0]) {
      StripLeftKeeps(s[1..], k - 1);
    }
  }

  lemma StripRightKeeps(s: string, k: nat)
    requires k < |s| && !IsSpace(s[k])
    ensures StripRight(s) != []
    decreases |s|
  {
    if IsSpace(s[|s| - 1]) && k < |s| - 1 {
      StripRightKeeps(s[..|s| - 1], k);
    }
  }

  /** `sep.join(parts)` */
  function Join(sep: string, parts: seq<string>): string
  {
    if |parts| == 0 then ""
    else if |parts| == 1 then parts[0]
    else parts[0] + sep + Join(sep, parts[1..])
  }

  lemma HeadTail<T>(s: seq<T>)
    requires s != []
    ensures [s[0]] + s[1..] == s
  {
  }

  /** Taking one more element of `s` after a fixed prefix. */
  lemma TakeNext<T>(pre: seq<T>, s: seq<T>, i: nat)
    requires i < |s|
    ensures pre + s[..i + 1] == pre + s[..i] + [s[i]]
    ensures s[..i + 1][..i] == s[..i]
  {
    assert s[..i + 1] == s[..i] + [s[i]];
  }

  lemma AppendLast<T>(s: seq<T>, x: T)
    ensures (s + [x])[..|s|] == s && (s + [x])[|s|] == x
  {
  }

  lemma TakeSnoc<T>(s: seq<T>, i: nat)
    requires i < |s|
    ensures s[..i + 1] == s[..i] + [s[i]]
  {
  }

  lemma TakeTake<T>(s: seq<T>, n: nat, m: nat)
    requires m <= n <= |s|
    ensures s[..n][..m] == s[..m] && (m < n ==> s[..n][m] == s[m])
  {
  }

  lemma TakeAll<T>(s: seq<T>)
    ensures s[..|s|] == s
  {
  }

  lemma ConcatAssoc<T>(a: seq<T>, b: seq<T>, c: seq<T>)
    ensures a + (b + c) == a + b + c
  {
  }

  /** `[f(x) for x in s]` */
  function Map<A, B>(f: A -> B, s: seq<A>): (r: seq<B>)
    ensures |r| == |s|
    ensures forall i :: 0 <= i < |s| ==> r[i] == f(s[i])
  {
    if s == [] then [] else Map(f, s[..|s| - 1]) + [f(s[|s| - 1])]
  }

  lemma AppendIndex<T>(a: seq<T>, b: seq<T>, k: nat)
    requires k < |b|
    ensures (a + b)[|a| + k] == b[k]
  {
  }

  lemma AppendPrefix<T>(a: seq<T>, b: seq<T>, k: nat)
    requires k < |a|
    ensures (a + b)[k] == a[k]
  {
  }

  lemma AppendSlices<T>(a: seq<T>, b: seq<T>)
    ensures (a + b)[..|a|] == a && (a + b)[|a|..] == b
  {
  }

  lemma SliceOfSuffix<T>(s: seq<T>, d: nat, a: nat, b: nat)
    requires d <= |s| && a <= b <= |s| - d
    ensures s[d..][a..b] == s[d + a..d + b]
  {
  }

  lemma MapEq<A, B>(f: A -> B, s: seq<A>, r: seq<B>)
    requires |r| == |s| && forall i :: 0 <= i < |s| ==> r[i] == f(s[i])
    ensures Map(f, s) == r
  {
  }

  lemma MapAppend<A, B>(f: A -> B, s: seq<A>, x: A)
    ensures Map(f, s + [x]) == Map(f, s) + [f(x)]
  {
    assert (s + [x])[..|s|] == s;
  }

  /** `[f(x) for x in s if keep(x)]` */
  function FilterMap<A, B>(s: seq<A>, keep: A -> bool, f: A -> B): (r: seq<B>)
    ensures |r| <= |s|
  {
    if s == [] then []
    else FilterMap(s[..|s| - 1], keep, f) + (if keep(s[|s| - 1]) then [f(s[|s| - 1])] else [])
  }

  lemma FilterMapAppend<A, B>(s: seq<A>, keep: A -> bool, f: A -> B, x: A)
    ensures FilterMap(s + [x], keep, f) == FilterMap(s, keep, f) + (if keep(x) then [f(x)] else [])
  {
    assert (s + [x])[..|s|] == s;
  }

  /** Every element of a filtered map is the image of a kept element. */
  lemma {:induction false} FilterMapOrigin<A, B>(s: seq<A>, keep: A -> bool, f: A -> B, k: nat) returns (j: nat)
    requires k < |FilterMap(s, keep, f)|
    ensures j < |s| && keep(s[j]) && FilterMap(s, keep, f)[k] == f(s[j])
  {
    var init := s[..|s| - 1];
    if k < |FilterMap(init, keep, f)| {
      j := FilterMapOrigin(init, keep, f, k);
    } else {
      j := |s| - 1;
    }
  }

  /** With nothing filtered out, a filtered map is a map. */
  lemma {:induction false} FilterMapAll<A, B>(s: seq<A>, keep: A -> bool, f: A -> B)
    requires forall x :: x in s ==> keep(x)
    ensures FilterMap(s, keep, f) == Map(f, s)
  {
    if s != [] {
      var init := s[..|s| - 1];
      FilterMapAll(init, keep, f);
    }
  }

  function Concat<T>(ss: seq<seq<T>>): seq<T>
  {
    if ss == [] then [] else ss[0] + Concat(ss[1..])
  }

  lemma ConcatAppend<T>(ss: seq<seq<T>>, s: seq<T>)
    ensures Concat(ss + [s]) == Concat(ss) + s
  {
    if ss != [] {
      assert (ss + [s])[1..] == ss[1..] + [s];
      ConcatAppend(ss[1..], s);
    }
  }

  lemma ConcatSplit<T>(a: seq<seq<T>>, b: seq<seq<T>>)
    ensures Concat(a + b) == Concat(a) + Concat(b)
  {
    if a != [] {
      assert (a + b)[1..] == a[1..] + b;
      ConcatSplit(a[1..], b);
    } else {
      assert a + b == b;
    }
  }

  /** An element of one of the parts is an element of their concatenation. */
  lemma {:induction false} ConcatHolds<T>(ss: seq<seq<T>>, k: nat, x: T)
    requires k < |ss| && x in ss[k]
    ensures x in Concat(ss)
  {
    if k > 0 {
      ConcatHolds(ss[1..], k - 1, x);
    }
  }

  /** An element of a concatenation is an element of one of its parts. */
  lemma {:induction false} ConcatOrigin<T>(ss: seq<seq<T>>, x: T) returns (k: nat)
    requires x in Concat(ss)
    ensures k < |ss| && x in ss[k]
  {
    if x in ss[0] {
      k := 0;
    } else {
      var k' := ConcatOrigin(ss[1..], x);
      k := k' + 1;
    }
  }

  /** Index of the first `c` in `s`, or `|s|` */
  function IndexOf(s: string, c: char): (i: nat)
    ensures i <= |s|
    ensures i < |s| ==> s[i] == c
    ensures forall k :: 0 <= k < i ==> s[k] != c
  {
    if s == [] then 0 else if s[0] == c then 0 else 1 + IndexOf(s[1..], c)
  }

  /** `s.startswith(m)` */
  predicate StartsWith(s: string, m: string)
  {
    |m| <= |s| && s[..|m|] == m
  }

  /** `s.rfind(c)`: the index of the last `c` in `s`, if any. */
  function LastIndex(s: string, c: char): (r: Option<nat>)
    ensures r.Some? ==> r.value < |s| && s[r.value] == c && c !in s[r.value + 1..]
    ensures r.None? ==> c !in s
  {
    if s == [] then None
    else if s[|s| - 1] == c then Some(|s| - 1)
    else
      var r := LastIndex(s[..|s| - 1], c);
      assert r.Some? ==> s[r.value + 1..] == s[..|s| - 1][r.value + 1..] + [s[|s| - 1]];
      assert s == s[..|s| - 1] + [s[|s| - 1]];
      r
  }

  /** `os.path.basename(p)`: what follows the last `/`. */
  function Basename(p: string): (r: string)
    ensures |r| <= |p| && r == p[|p| - |r|..] && '/' !in r
    ensures '/' !in p ==> r == p
  {
    match LastIndex(p, '/')
    case Some(i) => p[i + 1..]
    case None => p
  }

  /** `s.split(c)` for a one-character separator */
  function SplitOn(s: string, c: char): (r: seq<string>)
    ensures |r| >= 1
    decreases |s|
  {
    var i := IndexOf(s, c);
    if i == |s| then [s] else [s[..i]] + SplitOn(s[i + 1..], c)
  }

  lemma {:induction false} SplitOnPieces(s: string, c: char)
    ensures forall p :: p in SplitOn(s, c) ==> c !in p
    ensures Join([c], SplitOn(s, c)) == s
    decreases |s|
  {
    var i := IndexOf(s, c);
    if i < |s| {
      SplitOnPieces(s[i + 1..], c);
      assert s == s[..i] + [c] + s[i + 1..];
    }
  }

  // ------------------------------------------------------------ Python split()

  /** The leading run of non-whitespace characters of `t`. */
  function TakeWord(t: string): (w: string)
    ensures |w| <= |t| && w == t[..|w|] && NoSpace(w)
    ensures |w| < |t| ==> IsSpace(t[|w|])
    ensures t != [] && !IsSpace(t[0]) ==> |w| >= 1
  {
    if t == [] || IsSpace(t[0]) then [] else [t[0]] + TakeWord(t[1..])
  }

  /** `s.split()` with no argument: the maximal runs of non-whitespace. */
  function Words(s: string): (ws: seq<string>)
    ensures forall k :: 0 <= k < |ws| ==> ws[k] != [] && NoSpace(ws[k])
    decreases |s|
  {
    var t := StripLeft(s);
    if t == [] then []
    else
      var w := TakeWord(t);
      var rest := Words(t[|w|..]);
      WordsCons(w, rest);
      [w] + rest
  }

  lemma WordsCons(w: string, rest: seq<string>)
    requires w != [] && NoSpace(w)
    requires forall k :: 0 <= k < |rest| ==> rest[k] != [] && NoSpace(rest[k])
    ensures forall k :: 0 <= k < |[w] + rest| ==> ([w] + rest)[k] != [] && NoSpace(([w] + rest)[k])
  {
    var ws := [w] + rest;
    assert forall k :: 0 <= k < |ws| ==> ws[k] == if k == 0 then w else rest[k - 1];
  }

  /** Whitespace-token count `len(s.split())`, computed by a single scan
      (`WordCountIsWords` relates it to `Words`). */
  function WordCount(s: string): nat
  {
    CountWords(s, false)
  }

  /** Number of word starts in `s`, where `inWord` tells whether the character
      before `s` was part of a word. */
  function CountWords(s: string, inWord: bool): nat
    decreases |s|
  {
    if s == [] then 0
    else if IsSpace(s[0]) then CountWords(s[1..], false)
    else (if inWord then 0 else 1) + CountWords(s[1..], true)
  }

  lemma {:induction false} CountWordsSkip(s: string)
    ensures CountWords(s, false) == CountWords(StripLeft(s), false)
    decreases |s|
  {
    if s != [] && IsSpace(s[0]) {
      CountWordsSkip(s[1..]);
    }
  }

  lemma {:induction false} CountWordsInWord(w: string, rest: string)
    requires NoSpace(w)
    ensures CountWords(w + rest, true) == CountWords(rest, true)
  {
    if w != [] {
      assert (w + rest)[0] == w[0] && (w + rest)[1..] == w[1..] + rest;
      CountWordsInWord(w[1..], rest);
    } else {
      assert w + rest == rest;
    }
  }

  /** `WordCount(s) == len(s.split())` */
  lemma {:induction false} WordCountIsWords(s: string)
    ensures WordCount(s) == |Words(s)|
    decreases |s|
  {
    var t := StripLeft(s);
    CountWordsSkip(s);
    if t != [] {
      var rest := t[|TakeWord(t)|..];
      CountWordsFirst(t);
      WordsFirst(s);
      WordCountIsWords(rest);
    }
  }

  lemma WordsFirst(s: string)
    requires StripLeft(s) != []
    ensures var t := StripLeft(s); |Words(s)| == 1 + |Words(t[|TakeWord(t)|..])|
  {
  }

  lemma CountWordsFirst(t: string)
    requires t != [] && !IsSpace(t[0])
    ensures CountWords(t, false) == 1 + CountWords(t[|TakeWord(t)|..], false)
  {
    var w := TakeWord(t);
    var rest := t[|w|..];
    assert t == w + rest;
    assert t[1..] == w[1..] + rest;
    CountWordsInWord(w[1..], rest);
  }

  lemma WordsOfBlank(s: string)
    requires IsBlank(s)
    ensures Words(s) == []
  {
    var t := StripLeft(s);
    if t != [] {
      assert t[0] == s[|s| - |t|];
    }
  }

  /** Words of a single-space join of space-free, non-empty words give the
      words back: `" ".join(ws).split() == ws`. */
  lemma {:induction false} WordsOfJoin(ws: seq<string>)
    requires forall k :: 0 <= k < |ws| ==> ws[k] != [] && NoSpace(ws[k])
    ensures Words(Join(" ", ws)) == ws
  {
    if |ws| == 1 {
      WordsOfSingle(ws[0]);
    } else if |ws| > 1 {
      var tail := ws[1..];
      var w := ws[0];
      assert w != [] && NoSpace(w);
      assert Words(Join(" ", tail)) == tail by {
        assert forall k :: 0 <= k < |tail| ==> tail[k] == ws[k + 1];
        WordsOfJoin(tail);
      }
      WordsOfJoinStep(ws);
      HeadTail(ws);
    }
  }

  lemma WordsOfSingle(w: string)
    requires w != [] && NoSpace(w)
    ensures Words(Join(" ", [w])) == [w]
  {
    assert Join(" ", [w]) == w;
    WordsOfWordThen(w, "");
    assert w + "" == w;
    assert Words("") == [];
  }

  lemma WordsOfJoinStep(ws: seq<string>)
    requires |ws| > 1 && ws[0] != [] && NoSpace(ws[0])
    ensures Words(Join(" ", ws)) == [ws[0]] + Words(Join(" ", ws[1..]))
  {
    var rest := Join(" ", ws[1..]);
    var sp := " " + rest;
    assert Join(" ", ws) == ws[0] + sp;
    WordsOfWordThen(ws[0], sp);
    WordsSkipSpace(' ', rest);
  }

  lemma WordsSkipSpace(c: char, rest: string)
    requires IsSpace(c)
    ensures Words([c] + rest) == Words(rest)
  {
    assert ([c] + rest)[1..] == rest;
    assert StripLeft([c] + rest) == StripLeft(rest);
  }

  /** A non-empty space-free word followed by a string that is empty or starts
      with whitespace contributes exactly that word. */
  lemma WordsOfWordThen(w: string, rest: string)
    requires w != [] && NoSpace(w)
    requires rest == [] || IsSpace(rest[0])
    ensures Words(w + rest) == [w] + Words(rest)
  {
    var s := w + rest;
    assert StripLeft(s) == s;
    TakeWordOf(w, rest);
    assert s[|w|..] == rest;
  }

  lemma {:induction false} TakeWordOf(w: string, rest: string)
    requires NoSpace(w)
    requires rest == [] || IsSpace(rest[0])
    ensures TakeWord(w + rest) == w
  {
    if w != [] {
      assert (w + rest)[1..] == w[1..] + rest;
      TakeWordOf(w[1..], rest);
    }
  }

  /** Joining word-lists with a space and joining the joins is the same as
      joining all the words: `" ".join(" ".join(g) for g in gs) == " ".join(concat(gs))`. */
  lemma {:induction false} JoinOfJoins(gs: seq<seq<string>>)
    requires forall k :: 0 <= k < |gs| ==> gs[k] != []
    ensures Join(" ", seq(|gs|, k requires 0 <= k < |gs| => Join(" ", gs[k]))) == Join(" ", Concat(gs))
  {
    if |gs| == 0 {
    } else {
      var js := seq(|gs|, k requires 0 <= k < |gs| => Join(" ", gs[k]));
      var rs := seq(|gs| - 1, k requires 0 <= k < |gs| - 1 => Join(" ", gs[1..][k]));
      assert js[1..] == rs;
      JoinOfJoins(gs[1..]);
      if |gs| == 1 {
        assert Concat(gs[1..]) == [];
        assert Concat(gs) == gs[0] + Concat(gs[1..]) == gs[0];
      } else {
        assert Concat(gs[1..]) != [] by {
          assert Concat(gs[1..]) == gs[1] + Concat(gs[2..]);
        }
        JoinAppend(gs[0], Concat(gs[1..]));
      }
    }
  }

  lemma {:induction false} JoinAppend(a: seq<string>, b: seq<string>)
    requires a != [] && b != []
    ensures Join(" ", a + b) == Join(" ", a) + " " + Join(" ", b)
  {
    if |a| == 1 {
      assert (a + b)[1..] == b;
    } else {
      assert (a + b)[1..] == a[1..] + b;
      JoinAppend(a[1..], b);
    }
  }
}
