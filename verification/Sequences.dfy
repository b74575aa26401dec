/** Rearrangements of part of a sequence, as made by in-place sorting. */
module Sequences {

  /** `t` is `s` with the cells lo..hi-1 permuted among themselves. */
  ghost predicate Rearranged<T>(s: seq<T>, t: seq<T>, lo: int, hi: int) {
    && |s| == |t|
    && 0 <= lo <= hi <= |s|
    && (forall k :: 0 <= k < lo ==> t[k] == s[k])
    && (forall k :: hi <= k < |s| ==> t[k] == s[k])
    && multiset(t[lo..hi]) == multiset(s[lo..hi])
  }

  lemma RearrangedSelf<T>(s: seq<T>, lo: int, hi: int)
    requires 0 <= lo <= hi <= |s|
    ensures Rearranged(s, s, lo, hi)
  {
  }

  lemma RearrangedTrans<T>(s: seq<T>, t: seq<T>, u: seq<T>, lo: int, hi: int)
    requires Rearranged(s, t, lo, hi) && Rearranged(t, u, lo, hi)
    ensures Rearranged(s, u, lo, hi)
  {
  }

  /** Every cell of the permuted part holds a value that was in that part. */
  lemma RearrangedFrom<T>(s: seq<T>, t: seq<T>, lo: int, hi: int, k: int) returns (j: int)
    requires Rearranged(s, t, lo, hi) && lo <= k < hi
    ensures lo <= j < hi && t[k] == s[j]
  {
    assert t[k] == t[lo..hi][k - lo];
    assert t[k] in multiset(t[lo..hi]);
    assert t[k] in s[lo..hi];
    var i :| 0 <= i < hi - lo && s[lo..hi][i] == t[k];
    j := lo + i;
  }

  lemma RearrangedSwap<T>(s: seq<T>, lo: int, hi: int, i: int, j: int)
    requires 0 <= lo <= i < hi && lo <= j < hi && hi <= |s|
    ensures Rearranged(s, s[i := s[j]][j := s[i]], lo, hi)
  {
    var t := s[i := s[j]][j := s[i]];
    assert t[lo..hi] == s[lo..hi][i - lo := s[j]][j - lo := s[i]];
  }

  /** The step of an insertion: with v held aside for the hole at p, the hole moves to q. */
  lemma RearrangedHole<T>(s: seq<T>, f: seq<T>, g: seq<T>, lo: int, hi: int, p: int, q: int, v: T)
    requires 0 <= lo <= p < hi && lo <= q < hi && hi <= |f| && p != q
    requires Rearranged(s, f[p := v], lo, hi)
    requires g == f[p := f[q]]
    ensures Rearranged(s, g[q := v], lo, hi)
  {
    var t := f[p := v];
    RearrangedSwap(t, lo, hi, p, q);
    assert g[q := v] == t[p := t[q]][q := t[p]];
    RearrangedTrans(s, t, g[q := v], lo, hi);
  }

  /** Moving the hole is exchanging the value held aside with the one moved. */
  lemma HoleSwap<T>(f: seq<T>, g: seq<T>, p: int, q: int, v: T)
    requires 0 <= p < |f| && 0 <= q < |f| && p != q && g == f[p := v]
    ensures g[q] == f[q] && f[p := f[q]][q := v] == g[p := g[q]][q := g[p]]
  {
  }

  /** A rearrangement of a part is a rearrangement of any part around it. */
  lemma RearrangedWiden<T>(s: seq<T>, t: seq<T>, lo: int, hi: int, lo': int, hi': int)
    requires Rearranged(s, t, lo, hi) && 0 <= lo' <= lo && hi <= hi' <= |s|
    ensures Rearranged(s, t, lo', hi')
  {
    assert s[lo'..hi'] == s[lo'..lo] + s[lo..hi] + s[hi..hi'];
    assert t[lo'..hi'] == t[lo'..lo] + t[lo..hi] + t[hi..hi'];
    assert s[lo'..lo] == t[lo'..lo];
    assert s[hi..hi'] == t[hi..hi'];
  }

  /** The first n cells of `p` list 0..n-1, each once. */
  ghost predicate IsPermutation(p: seq<int>, n: nat) {
    && n <= |p|
    && (forall k :: 0 <= k < n ==> 0 <= p[k] < n)
    && (forall j, k :: 0 <= j < k < n ==> p[j] != p[k])
  }

  lemma DistinctMultiset(s: seq<int>)
    ensures (forall j, k :: 0 <= j < k < |s| ==> s[j] != s[k]) <==> (forall x :: x in s ==> multiset(s)[x] == 1)
  {
    if s != [] {
      var r := s[..|s| - 1];
      var z := s[|s| - 1];
      assert s == r + [z];
      DistinctMultiset(r);
      if forall j, k :: 0 <= j < k < |s| ==> s[j] != s[k] {
        forall x | x in s ensures multiset(s)[x] == 1 {
          if x == z {
            assert z !in r;
          } else {
            assert x in r;
            assert forall j, k :: 0 <= j < k < |r| ==> r[j] == s[j] && r[k] == s[k];
          }
        }
      }
      if forall x :: x in s ==> multiset(s)[x] == 1 {
        assert z in s && multiset(s)[z] == multiset(r)[z] + 1;
        assert z !in r;
        forall x | x in r ensures multiset(r)[x] == 1 { assert x in s; }
      }
    }
  }

  lemma RearrangedPermutation(s: seq<int>, t: seq<int>, lo: int, hi: int, n: nat)
    requires IsPermutation(s, n) && Rearranged(s, t, lo, hi) && hi <= n
    ensures IsPermutation(t, n)
  {
    RearrangedWiden(s, t, lo, hi, 0, n);
    forall k | 0 <= k < n ensures 0 <= t[k] < n {
      var j := RearrangedFrom(s, t, 0, n, k);
    }
    var u, v := s[0..n], t[0..n];
    DistinctMultiset(u);
    DistinctMultiset(v);
    assert forall j, k :: 0 <= j < k < |u| ==> u[j] == s[j] && u[k] == s[k];
    forall x | x in v ensures multiset(v)[x] == 1 {
      assert x in multiset(u);
    }
    forall j, k | 0 <= j < k < n ensures t[j] != t[k] {
      assert t[j] == v[j] && t[k] == v[k];
    }
  }
}
