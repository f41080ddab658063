/**
 * `clean_text`: every run of whitespace becomes one space, then the ends are
 * stripped. The main result is that this is exactly `" ".join(text.split())`,
 * from which the remaining properties follow.
 */
module TextUtils {
  import opened Common

  /** `re.sub(r'\s+', ' ', s)` */
  function Collapse(s: string): string
    decreases |s|
  {
    if s == [] then []
    else if IsSpace(s[0]) then " " + Collapse(StripLeft(s))
    else [s[0]] + Collapse(s[1..])
  }

  /** `clean_text(s)` */
  function CleanText(s: string): string
  {
    Strip(Collapse(s))
  }

  predicate Spaces(s: string)
  {
    s == "" || s == " "
  }

  /** The characters of `s` that are not whitespace, in order. */
  function NonSpace(s: string): string
  {
    if s == [] then [] else (if IsSpace(s[0]) then [] else [s[0]]) + NonSpace(s[1..])
  }

  /** Collapsing a word followed by `rest` keeps the word. */
  lemma {:induction false} CollapseWord(w: string, rest: string)
    requires NoSpace(w)
    ensures Collapse(w + rest) == w + Collapse(rest)
  {
    if w != [] {
      var x := w + rest;
      assert x[0] == w[0] && !IsSpace(x[0]);
      assert x[1..] == w[1..] + rest;
      assert Collapse(x) == [w[0]] + Collapse(w[1..] + rest);
      CollapseWord(w[1..], rest);
      assert w == [w[0]] + w[1..];
    } else {
      assert w + rest == rest;
    }
  }

  /** The shape of a collapsed string: at most one space on each side of the
      single-space join of its words. */
  lemma {:induction false} CollapseShape(s: string) returns (l: string, r: string)
    ensures Spaces(l) && Spaces(r)
    ensures s != [] && !IsSpace(s[0]) ==> l == ""
    ensures Collapse(s) == l + Join(" ", Words(s)) + r
    decreases |s|, 1
  {
    if s == [] {
      l, r := "", "";
      assert Words(s) == [] && Collapse(s) == [];
    } else if IsSpace(s[0]) {
      l, r := CollapseShapeSpace(s);
    } else {
      l := "";
      r := CollapseShapeWord(s);
      EmptyLeft(Join(" ", Words(s)));
    }
  }

  lemma {:induction false} CollapseShapeSpace(s: string) returns (l: string, r: string)
    requires s != [] && IsSpace(s[0])
    ensures Spaces(l) && Spaces(r)
    ensures Collapse(s) == l + Join(" ", Words(s)) + r
    decreases |s|, 0
  {
    var t := StripLeft(s);
    assert Collapse(s) == " " + Collapse(t);
    WordsOfSpaceLead(s);
    var j := Join(" ", Words(t));
    l := " ";
    if t == [] {
      r := "";
      assert Collapse(t) == [];
      assert j == [];
      assert l + j + r == " ";
    } else {
      var l1, r1 := CollapseShape(t);
      r := r1;
      assert Collapse(s) == l + j + r by {
        assert l1 == "";
        EmptyLeft(j);
        Assoc(" ", j, r1);
      }
    }
  }

  lemma {:induction false} CollapseShapeWord(s: string) returns (r: string)
    requires s != [] && !IsSpace(s[0])
    ensures Spaces(r)
    ensures Collapse(s) == Join(" ", Words(s)) + r
    decreases |s|, 0
  {
    var w := TakeWord(s);
    var rest := s[|w|..];
    assert s == w + rest;
    CollapseWord(w, rest);
    WordsOfWordLead(s);
    if rest == [] {
      r := "";
      assert Collapse(s) == w + [];
    } else {
      var t := StripLeft(rest);
      var l1, r1 := CollapseShape(t);
      WordsOfSpaceLead(rest);
      assert Collapse(rest) == " " + Collapse(t);
      var j := Join(" ", Words(t));
      if Words(t) == [] {
        WordsEmptyBlank(t);
        r := " ";
        assert Collapse(t) == [];
        assert Collapse(s) == w + " ";
        assert Join(" ", [w]) == w;
      } else {
        r := r1;
        assert l1 == "";
        EmptyLeft(j);
        assert Collapse(s) == w + (" " + (j + r1));
        assert Join(" ", [w] + Words(t)) == w + " " + j;
        Assoc(" ", j, r1);
        Assoc(w, " " + j, r1);
        Assoc(w, " ", j);
      }
    }
  }

  lemma EmptyLeft(a: string)
    ensures "" + a == a
  {
  }

  lemma Assoc(a: string, b: string, c: string)
    ensures a + (b + c) == a + b + c
  {
  }

  lemma {:induction false} StripLeftTwice(s: string)
    ensures StripLeft(StripLeft(s)) == StripLeft(s)
  {
  }

  lemma WordsOfSpaceLead(s: string)
    requires s != [] && IsSpace(s[0])
    ensures Words(s) == Words(StripLeft(s))
  {
    StripLeftTwice(s);
  }

  lemma WordsOfWordLead(s: string)
    requires s != [] && !IsSpace(s[0])
    ensures Words(s) == [TakeWord(s)] + Words(s[|TakeWord(s)|..])
  {
    assert StripLeft(s) == s;
  }

  lemma WordsEmptyBlank(t: string)
    requires t == [] || !IsSpace(t[0])
    requires Words(t) == []
    ensures t == []
  {
  }

  /** A join of non-empty space-free words is empty or has no edge whitespace. */
  lemma {:induction false} JoinEdges(ws: seq<string>)
    requires forall k :: 0 <= k < |ws| ==> ws[k] != [] && NoSpace(ws[k])
    ensures var j := Join(" ", ws); j == [] || (!IsSpace(j[0]) && !IsSpace(j[|j| - 1]))
    ensures ws != [] ==> Join(" ", ws) != []
  {
    if |ws| > 1 {
      JoinEdges(ws[1..]);
      var rest := Join(" ", ws[1..]);
      assert Join(" ", ws) == ws[0] + (" " + rest);
    }
  }

  lemma StripPadded(l: string, j: string, r: string)
    requires Spaces(l) && Spaces(r)
    requires j == [] || (!IsSpace(j[0]) && !IsSpace(j[|j| - 1]))
    ensures Strip(l + j + r) == j
  {
    if j == [] {
      assert IsBlank(l + j + r);
      StripEmptyIffBlank(l + j + r);
    } else {
      assert (j + r)[0] == j[0];
      StripLeftPadded(l, j + r);
      Assoc(l, j, r);
      StripRightPadded(j, r);
    }
  }

  lemma StripLeftPadded(l: string, x: string)
    requires Spaces(l)
    requires x == [] || !IsSpace(x[0])
    ensures StripLeft(l + x) == x
  {
    if l == " " {
      assert (l + x)[1..] == x;
    } else {
      assert l + x == x;
    }
  }

  lemma StripRightPadded(x: string, r: string)
    requires Spaces(r)
    requires x == [] || !IsSpace(x[|x| - 1])
    ensures StripRight(x + r) == x
  {
    if r == " " {
      assert (x + r)[..|x + r| - 1] == x;
    } else {
      assert x + r == x;
    }
  }

  /** `clean_text(s) == " ".join(s.split())` */
  lemma CleanTextIsJoinOfWords(s: string)
    ensures CleanText(s) == Join(" ", Words(s))
  {
    var l, r := CollapseShape(s);
    JoinEdges(Words(s));
    StripPadded(l, Join(" ", Words(s)), r);
  }

  /** The result has no whitespace at either end. */
  lemma CleanTextNoEdges(s: string)
    ensures var c := CleanText(s); c == [] || (!IsSpace(c[0]) && !IsSpace(c[|c| - 1]))
  {
    CleanTextIsJoinOfWords(s);
    JoinEdges(Words(s));
  }

  /** Every whitespace character of the result is a single ' ' standing
      between two non-whitespace characters. */
  lemma CleanTextSingleSpaces(s: string)
    ensures var c := CleanText(s);
      forall k :: 0 <= k < |c| && IsSpace(c[k]) ==>
        c[k] == ' ' && 0 < k < |c| - 1 && !IsSpace(c[k - 1]) && !IsSpace(c[k + 1])
  {
    CleanTextIsJoinOfWords(s);
    JoinSpaces(Words(s));
  }

  lemma {:induction false} JoinSpaces(ws: seq<string>)
    requires forall k :: 0 <= k < |ws| ==> ws[k] != [] && NoSpace(ws[k])
    ensures var c := Join(" ", ws);
      forall k :: 0 <= k < |c| && IsSpace(c[k]) ==>
        c[k] == ' ' && 0 < k < |c| - 1 && !IsSpace(c[k - 1]) && !IsSpace(c[k + 1])
  {
    if |ws| > 1 {
      JoinSpaces(ws[1..]);
      JoinEdges(ws[1..]);
      var rest := Join(" ", ws[1..]);
      var c := Join(" ", ws);
      var w := ws[0];
      assert c == w + (" " + rest);
      forall k | 0 <= k < |c| && IsSpace(c[k])
        ensures c[k] == ' ' && 0 < k < |c| - 1 && !IsSpace(c[k - 1]) && !IsSpace(c[k + 1])
      {
        if k > |w| + 1 {
          assert c[k] == rest[k - |w| - 1];
          assert c[k - 1] == rest[k - |w| - 2];
          if k + 1 < |c| {
            assert c[k + 1] == rest[k - |w|];
          }
        } else if k == |w| {
          assert c[k - 1] == w[|w| - 1];
          assert c[k + 1] == rest[0];
        }
      }
    }
  }

  /** Non-whitespace characters survive, in order. */
  lemma CleanTextKeepsNonSpace(s: string)
    ensures NonSpace(CleanText(s)) == NonSpace(s)
  {
    CleanTextIsJoinOfWords(s);
    JoinedWordsNonSpace(s);
  }

  lemma JoinedWordsNonSpace(s: string)
    ensures NonSpace(Join(" ", Words(s))) == NonSpace(s)
  {
    var l, r := CollapseShape(s);
    NonSpaceOfPadded(l, Join(" ", Words(s)), r);
    NonSpaceOfCollapse(s);
  }

  lemma NonSpaceOfPadded(l: string, j: string, r: string)
    requires Spaces(l) && Spaces(r)
    ensures NonSpace(l + j + r) == NonSpace(j)
  {
    NonSpaceConcat(l, j);
    NonSpaceConcat(l + j, r);
    assert NonSpace(r) == [];
    assert NonSpace(l) == [];
  }

  lemma {:induction false} NonSpaceConcat(a: string, b: string)
    ensures NonSpace(a + b) == NonSpace(a) + NonSpace(b)
  {
    if a != [] {
      assert (a + b)[1..] == a[1..] + b;
      NonSpaceConcat(a[1..], b);
    } else {
      assert a + b == b;
    }
  }

  lemma {:induction false} NonSpaceStripLeft(s: string)
    ensures NonSpace(StripLeft(s)) == NonSpace(s)
    decreases |s|
  {
    if s != [] && IsSpace(s[0]) {
      NonSpaceStripLeft(s[1..]);
    }
  }

  lemma {:induction false} NonSpaceStripRight(s: string)
    ensures NonSpace(StripRight(s)) == NonSpace(s)
    decreases |s|
  {
    if s != [] && IsSpace(s[|s| - 1]) {
      NonSpaceStripRight(s[..|s| - 1]);
      assert s == s[..|s| - 1] + [s[|s| - 1]];
      NonSpaceConcat(s[..|s| - 1], [s[|s| - 1]]);
    }
  }

  /** Stripping only removes whitespace. */
  lemma NonSpaceStrip(s: string)
    ensures NonSpace(Strip(s)) == NonSpace(s)
  {
    NonSpaceStripLeft(s);
    NonSpaceStripRight(StripLeft(s));
  }

  /** Joining with a whitespace separator adds no non-space character. */
  lemma {:induction false} NonSpaceJoin(sep: string, parts: seq<string>)
    requires NonSpace(sep) == []
    ensures NonSpace(Join(sep, parts)) == NonSpace(Concat(parts))
  {
    if |parts| == 1 {
      assert Concat(parts) == parts[0] + Concat(parts[1..]);
      assert parts[0] + [] == parts[0];
    } else if |parts| > 1 {
      NonSpaceJoin(sep, parts[1..]);
      NonSpaceConcat(parts[0] + sep, Join(sep, parts[1..]));
      NonSpaceConcat(parts[0], sep);
      NonSpaceConcat(parts[0], Concat(parts[1..]));
    }
  }

  lemma {:induction false} NonSpaceOfCollapse(s: string)
    ensures NonSpace(Collapse(s)) == NonSpace(s)
    decreases |s|
  {
    if s != [] {
      if IsSpace(s[0]) {
        NonSpaceOfCollapse(StripLeft(s));
        NonSpaceStripLeft(s);
        NonSpaceConcat(" ", Collapse(StripLeft(s)));
        assert NonSpace(" ") == [];
      } else {
        NonSpaceOfCollapse(s[1..]);
        NonSpaceConcat([s[0]], Collapse(s[1..]));
        assert NonSpace([s[0]]) == [s[0]];
      }
    }
  }

  /** `clean_text(clean_text(s)) == clean_text(s)` */
  lemma CleanTextIdempotent(s: string)
    ensures CleanText(CleanText(s)) == CleanText(s)
  {
    CleanTextIsJoinOfWords(s);
    CleanTextIsJoinOfWords(CleanText(s));
    WordsOfJoin(Words(s));
  }

  /** All-whitespace (or empty) input cleans to "". */
  lemma CleanTextOfBlank(s: string)
    requires IsBlank(s)
    ensures CleanText(s) == ""
  {
    CleanTextIsJoinOfWords(s);
    WordsOfBlank(s);
  }
}
