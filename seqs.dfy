/** The two array operations the record store is built from: `Array.prototype.filter` and `slice(0, n)`. */
module Seqs {

  /** `s.filter(p)`: the elements satisfying `p`, in their original order. */
  function Filter<T>(s: seq<T>, p: T -> bool): (r: seq<T>)
    ensures |r| <= |s|
    ensures forall x :: x in r ==> x in s && p(x)
  {
    if |s| == 0 then [] else if p(s[0]) then [s[0]] + Filter(s[1..], p) else Filter(s[1..], p)
  }

  /** `s.slice(0, n)`: at most the first `n` elements. */
  function Take<T>(s: seq<T>, n: nat): (r: seq<T>)
    ensures |r| <= n && |r| <= |s|
    ensures |s| <= n ==> r == s
    ensures forall i :: 0 <= i < |r| ==> r[i] == s[i]
  {
    if |s| <= n then s else s[..n]
  }

  /** A filter distributes over concatenation: it keeps the order of what it keeps. */
  lemma {:induction false} FilterAppend<T>(a: seq<T>, b: seq<T>, p: T -> bool)
    ensures Filter(a + b, p) == Filter(a, p) + Filter(b, p)
  {
    if |a| == 0 {
      assert a + b == b;
    } else {
      assert (a + b)[1..] == a[1..] + b;
      FilterAppend(a[1..], b, p);
    }
  }

  /** A filter keeps every occurrence of an element that satisfies the predicate and drops every other one. */
  lemma {:induction false} FilterCount<T>(s: seq<T>, p: T -> bool, x: T)
    ensures multiset(Filter(s, p))[x] == if p(x) then multiset(s)[x] else 0
  {
    if |s| > 0 {
      assert s == [s[0]] + s[1..];
      FilterCount(s[1..], p, x);
    }
  }

  /** Every element of `s` that satisfies `p` survives the filter. */
  lemma {:induction false} FilterKeeps<T>(s: seq<T>, p: T -> bool, x: T)
    requires x in s && p(x)
    ensures x in Filter(s, p)
  {
    FilterCount(s, p, x);
    assert multiset(Filter(s, p))[x] > 0;
  }

  /** A filter that keeps everything is the identity. */
  lemma {:induction false} FilterAll<T>(s: seq<T>, p: T -> bool)
    requires forall x :: x in s ==> p(x)
    ensures Filter(s, p) == s
  {
    if |s| > 0 {
      FilterAll(s[1..], p);
    }
  }

  /** `s.reduce((sum, x) => sum + f(x), 0)`. */
  function Sum<T>(s: seq<T>, f: T -> int): int {
    if |s| == 0 then 0 else f(s[0]) + Sum(s[1..], f)
  }

  /** Nothing passes a filter that rejects every element. */
  lemma {:induction false} FilterNone<T>(s: seq<T>, p: T -> bool)
    requires forall x :: x in s ==> !p(x)
    ensures Filter(s, p) == []
  {
    if |s| > 0 {
      FilterNone(s[1..], p);
    }
  }

  lemma {:induction false} SumAppend<T>(a: seq<T>, b: seq<T>, f: T -> int)
    ensures Sum(a + b, f) == Sum(a, f) + Sum(b, f)
  {
    if |a| == 0 {
      assert a + b == b;
    } else {
      assert (a + b)[1..] == a[1..] + b;
      SumAppend(a[1..], b, f);
    }
  }

  /** Summing what a filter keeps and what its complement keeps gives the whole sum. */
  lemma {:induction false} SumFilterSplit<T>(s: seq<T>, p: T -> bool, q: T -> bool, f: T -> int)
    requires forall x :: q(x) == !p(x)
    ensures Sum(Filter(s, p), f) + Sum(Filter(s, q), f) == Sum(s, f)
  {
    if |s| > 0 {
      SumFilterSplit(s[1..], p, q, f);
      assert Sum([s[0]] + Filter(s[1..], p), f) == f(s[0]) + Sum(Filter(s[1..], p), f);
      assert Sum([s[0]] + Filter(s[1..], q), f) == f(s[0]) + Sum(Filter(s[1..], q), f);
    }
  }

  /** `r` is `s` with some elements left out, the rest in their original order. */
  ghost predicate Subsequence<T>(r: seq<T>, s: seq<T>) {
    |r| == 0 || (|s| > 0 && ((r[0] == s[0] && Subsequence(r[1..], s[1..])) || Subsequence(r, s[1..])))
  }

  /** What a filter keeps is a subsequence of its input. */
  lemma {:induction false} FilterSubsequence<T>(s: seq<T>, p: T -> bool)
    ensures Subsequence(Filter(s, p), s)
  {
    if |s| > 0 {
      FilterSubsequence(s[1..], p);
      if p(s[0]) {
        assert ([s[0]] + Filter(s[1..], p))[1..] == Filter(s[1..], p);
      }
    }
  }

  /** A prefix of a subsequence is a subsequence. */
  lemma {:induction false} PrefixSubsequence<T>(r: seq<T>, s: seq<T>, k: nat)
    requires Subsequence(r, s) && k <= |r|
    ensures Subsequence(r[..k], s)
    decreases |s|
  {
    if k > 0 {
      if r[0] == s[0] && Subsequence(r[1..], s[1..]) {
        PrefixSubsequence(r[1..], s[1..], k - 1);
        assert r[..k][1..] == r[1..][..k - 1];
      } else {
        PrefixSubsequence(r, s[1..], k);
      }
    }
  }

  /** Filters with the same verdict on every element agree. */
  lemma {:induction false} FilterExt<T>(s: seq<T>, p: T -> bool, q: T -> bool)
    requires forall x :: p(x) == q(x)
    ensures Filter(s, p) == Filter(s, q)
  {
    if |s| > 0 {
      FilterExt(s[1..], p, q);
    }
  }

  /**
   * `r` is the selection of the elements of `s` that satisfy `p`: they
   * appear in their original order, each exactly as often as in `s`, and
   * nothing else appears.
   */
  ghost predicate Selects<T(!new)>(r: seq<T>, s: seq<T>, p: T -> bool) {
    Subsequence(r, s) && forall x :: multiset(r)[x] == (if p(x) then multiset(s)[x] else 0)
  }

  /** A filter is such a selection. */
  lemma FilterSelects<T(!new)>(s: seq<T>, p: T -> bool)
    ensures Selects(Filter(s, p), s, p)
  {
    FilterSubsequence(s, p);
    forall x ensures multiset(Filter(s, p))[x] == (if p(x) then multiset(s)[x] else 0) {
      FilterCount(s, p, x);
    }
  }

  /** A subsequence holds each element at most as often as the sequence does. */
  lemma {:induction false} SubsequenceCount<T>(r: seq<T>, s: seq<T>, x: T)
    requires Subsequence(r, s)
    ensures multiset(r)[x] <= multiset(s)[x]
    decreases |s|
  {
    if |r| > 0 {
      assert s == [s[0]] + s[1..];
      if r[0] == s[0] && Subsequence(r[1..], s[1..]) {
        SubsequenceCount(r[1..], s[1..], x);
        assert r == [r[0]] + r[1..];
      } else {
        SubsequenceCount(r, s[1..], x);
      }
    }
  }

  /** The selection is unique: whatever satisfies `Selects` is the filter. */
  lemma {:induction false} SelectsUnique<T(!new)>(r: seq<T>, s: seq<T>, p: T -> bool)
    requires Selects(r, s, p)
    ensures r == Filter(s, p)
    decreases |s|
  {
    if |s| == 0 {
    } else {
      var h := s[0];
      assert s == [h] + s[1..];
      assert multiset(s) == multiset{h} + multiset(s[1..]);
      if p(h) {
        assert multiset(r)[h] == multiset(s[1..])[h] + 1;
        assert |r| > 0;
        if !(r[0] == h && Subsequence(r[1..], s[1..])) {
          SubsequenceCount(r, s[1..], h);
          assert false;
        }
        assert r == [h] + r[1..];
        assert multiset(r) == multiset{h} + multiset(r[1..]);
        SelectsUnique(r[1..], s[1..], p);
      } else {
        assert multiset(r)[h] == 0;
        if |r| > 0 {
          assert r[0] in multiset(r);
          assert r[0] != h;
        }
        assert Subsequence(r, s[1..]);
        SelectsUnique(r, s[1..], p);
      }
    }
  }
}
