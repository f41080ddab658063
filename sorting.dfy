/**
 * Python's `list.sort(key=..., reverse=True)` / `sorted(..., reverse=True)`:
 * a stable sort into non-increasing key order. Elements with equal keys keep
 * their original relative order (Python's `reverse=True` preserves stability).
 */
module Sorting {

  predicate SortedDesc<T>(s: seq<T>, key: T -> real)
  {
    forall i, j :: 0 <= i < j < |s| ==> key(s[i]) >= key(s[j])
  }

  /** Places `x` in front of the first element whose key is not larger than
      its own, so that `x` precedes every element it ties with. */
  function Insert<T>(x: T, s: seq<T>, key: T -> real): (r: seq<T>)
    ensures |r| == |s| + 1
    ensures multiset(r) == multiset(s) + multiset{x}
  {
    if s == [] || key(s[0]) <= key(x) then [x] + s
    else
      assert s == [s[0]] + s[1..];
      [s[0]] + Insert(x, s[1..], key)
  }

  /** The sort itself: insertion of each element, front to back. */
  function SortDesc<T>(s: seq<T>, key: T -> real): (r: seq<T>)
    ensures |r| == |s|
  {
    if s == [] then [] else Insert(s[0], SortDesc(s[1..], key), key)
  }

  /** `[x]` when its key is `v`, otherwise empty. */
  function Tie<T>(x: T, key: T -> real, v: real): seq<T>
  {
    if key(x) == v then [x] else []
  }

  /** The elements of `s` whose key is exactly `v`, in their order in `s`. */
  function Ties<T>(s: seq<T>, key: T -> real, v: real): seq<T>
  {
    if s == [] then []
    else Tie(s[0], key, v) + Ties(s[1..], key, v)
  }

  lemma {:induction false} InsertSorted<T>(x: T, s: seq<T>, key: T -> real)
    requires SortedDesc(s, key)
    ensures SortedDesc(Insert(x, s, key), key)
  {
    if s != [] && key(s[0]) > key(x) {
      InsertSorted(x, s[1..], key);
      var r := Insert(x, s[1..], key);
      assert forall k :: 0 <= k < |r| ==> key(r[k]) <= key(s[0]) by {
        forall k | 0 <= k < |r|
          ensures key(r[k]) <= key(s[0])
        {
          assert r[k] in multiset(s[1..]) + multiset{x};
          assert r[k] in s[1..] || r[k] == x;
        }
      }
    }
  }

  /** The result is in non-increasing key order. */
  lemma {:induction false} SortDescSorted<T>(s: seq<T>, key: T -> real)
    ensures SortedDesc(SortDesc(s, key), key)
  {
    if s != [] {
      SortDescSorted(s[1..], key);
      InsertSorted(s[0], SortDesc(s[1..], key), key);
    }
  }

  /** The result is a permutation of the input. */
  lemma {:induction false} SortDescPermutation<T>(s: seq<T>, key: T -> real)
    ensures multiset(SortDesc(s, key)) == multiset(s)
  {
    if s != [] {
      SortDescPermutation(s[1..], key);
      assert s == [s[0]] + s[1..];
    }
  }

  lemma {:induction false} TiesOfInsert<T>(x: T, s: seq<T>, key: T -> real, v: real)
    ensures Ties(Insert(x, s, key), key, v) == Ties([x] + s, key, v)
  {
    if s != [] && key(s[0]) > key(x) {
      var a, b := Tie(s[0], key, v), Tie(x, key, v);
      var rest := Ties(s[1..], key, v);
      assert Ties(Insert(x, s, key), key, v) == a + (b + rest) by {
        var r := Insert(x, s[1..], key);
        assert Insert(x, s, key) == [s[0]] + r;
        TiesOfInsert(x, s[1..], key, v);
        TiesCons(s[0], r, key, v);
        TiesCons(x, s[1..], key, v);
      }
      assert Ties([x] + s, key, v) == b + (a + rest) by {
        TiesCons(x, s, key, v);
        assert s == [s[0]] + s[1..];
        TiesCons(s[0], s[1..], key, v);
      }
      if a != [] {
        assert b == [];
        assert a + (b + rest) == b + (a + rest);
      }
    }
  }

  lemma TiesCons<T>(x: T, s: seq<T>, key: T -> real, v: real)
    ensures Ties([x] + s, key, v) == Tie(x, key, v) + Ties(s, key, v)
  {
    assert ([x] + s)[1..] == s;
  }

  /** Stability: among elements of equal key, the original order is kept. */
  lemma {:induction false} SortDescStable<T>(s: seq<T>, key: T -> real, v: real)
    ensures Ties(SortDesc(s, key), key, v) == Ties(s, key, v)
  {
    if s != [] {
      SortDescStable(s[1..], key, v);
      TiesOfInsert(s[0], SortDesc(s[1..], key), key, v);
      var r := SortDesc(s[1..], key);
      assert ([s[0]] + r)[1..] == r;
    }
  }

  /** The ties of a prefix are a prefix of the ties. */
  lemma {:induction false} TiesOfPrefix<T>(s: seq<T>, n: nat, key: T -> real, v: real)
    requires n <= |s|
    ensures Ties(s[..n], key, v) <= Ties(s, key, v)
  {
    if n > 0 {
      TiesOfPrefix(s[1..], n - 1, key, v);
      assert s[..n][0] == s[0] && s[..n][1..] == s[1..][..n - 1];
    }
  }

  /** No two elements share a value of `f`. */
  predicate DistinctBy<T, K(==)>(s: seq<T>, f: T -> K)
  {
    forall i, j :: 0 <= i < j < |s| ==> f(s[i]) != f(s[j])
  }

  lemma {:induction false} InsertDistinctBy<T, K>(x: T, s: seq<T>, key: T -> real, f: T -> K)
    requires DistinctBy(s, f) && forall y :: y in s ==> f(y) != f(x)
    ensures DistinctBy(Insert(x, s, key), f)
  {
    if s != [] && key(s[0]) > key(x) {
      var r := Insert(x, s[1..], key);
      assert DistinctBy(s[1..], f);
      InsertDistinctBy(x, s[1..], key, f);
      forall y | y in r
        ensures f(y) != f(s[0])
      {
        assert y in multiset(s[1..]) + multiset{x};
        if y != x {
          var m :| 0 <= m < |s[1..]| && s[1..][m] == y;
          assert s[m + 1] == y;
        }
      }
      assert Insert(x, s, key) == [s[0]] + r;
    }
  }

  /** Sorting keeps elements distinct by `f`. */
  lemma {:induction false} SortDescDistinctBy<T, K>(s: seq<T>, key: T -> real, f: T -> K)
    requires DistinctBy(s, f)
    ensures DistinctBy(SortDesc(s, key), f)
  {
    if s != [] {
      var r := SortDesc(s[1..], key);
      assert DistinctBy(s[1..], f);
      SortDescDistinctBy(s[1..], key, f);
      SortDescPermutation(s[1..], key);
      forall y | y in r
        ensures f(y) != f(s[0])
      {
        assert y in multiset(s[1..]);
        var m :| 0 <= m < |s[1..]| && s[1..][m] == y;
        assert s[m + 1] == y;
      }
      InsertDistinctBy(s[0], r, key, f);
    }
  }
}
