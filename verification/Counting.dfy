/** Counting occurrences, as bucket sorts do, and what permutations do to counts. */
module Counting {
  import opened Sequences

  /** Occurrences of c among the first i elements. */
  function Count(s: seq<int>, i: nat, c: int): (r: nat)
    requires i <= |s|
    ensures r <= i
  {
    if i == 0 then 0 else Count(s, i - 1, c) + (if s[i - 1] == c then 1 else 0)
  }

  /** Elements less than c among the first i elements. */
  function Below(s: seq<int>, i: nat, c: int): (r: nat)
    requires i <= |s|
    ensures r <= i
  {
    if i == 0 then 0 else Below(s, i - 1, c) + (if s[i - 1] < c then 1 else 0)
  }

  lemma {:induction false} BelowNext(s: seq<int>, i: nat, c: int)
    requires i <= |s|
    ensures Below(s, i, c + 1) == Below(s, i, c) + Count(s, i, c)
  {
    if i > 0 { BelowNext(s, i - 1, c); }
  }

  lemma {:induction false} BelowMono(s: seq<int>, i: nat, c: int, d: int)
    requires i <= |s| && c <= d
    ensures Below(s, i, c) <= Below(s, i, d)
    ensures c < d ==> Below(s, i, c) + Count(s, i, c) <= Below(s, i, d)
  {
    if i > 0 { BelowMono(s, i - 1, c, d); }
  }

  lemma {:induction false} BelowAll(s: seq<int>, i: nat, c: int)
    requires i <= |s|
    ensures (forall k :: 0 <= k < i ==> s[k] < c) ==> Below(s, i, c) == i
    ensures (forall k :: 0 <= k < i ==> s[k] >= c) ==> Below(s, i, c) == 0
  {
    if i > 0 { BelowAll(s, i - 1, c); }
  }

  lemma {:induction false} CountMono(s: seq<int>, i: nat, j: nat, c: int)
    requires i <= j <= |s|
    ensures Count(s, i, c) <= Count(s, j, c)
    ensures i < j && s[i] == c ==> Count(s, i, c) < Count(s, j, c)
    decreases j
  {
    if i < j { CountMono(s, i, j - 1, c); }
  }

  lemma {:induction false} CountNone(s: seq<int>, i: nat, j: nat, c: int)
    requires i <= j <= |s|
    requires forall k :: i <= k < j ==> s[k] != c
    ensures Count(s, i, c) == Count(s, j, c)
    decreases j
  {
    if i < j { CountNone(s, i, j - 1, c); }
  }

  /** The indices among the first i that hold c. */
  ghost function Holding(s: seq<int>, i: nat, c: int): set<int>
    requires i <= |s|
  {
    set k: int | 0 <= k < i && s[k] == c
  }

  lemma {:induction false} CountIsSize(s: seq<int>, i: nat, c: int)
    requires i <= |s|
    ensures Count(s, i, c) == |Holding(s, i, c)|
  {
    if i > 0 {
      CountIsSize(s, i - 1, c);
      if s[i - 1] == c {
        assert Holding(s, i, c) == Holding(s, i - 1, c) + {i - 1};
      } else {
        assert Holding(s, i, c) == Holding(s, i - 1, c);
      }
    }
  }

  /** The values of an injective sequence at a set of indices. */
  ghost function Image(f: seq<int>, a: set<int>): set<int>
    requires forall k :: k in a ==> 0 <= k < |f|
  {
    set k | k in a :: f[k]
  }

  lemma SomeMember(a: set<int>)
    ensures a == {} || exists x :: x in a
  {
    if forall x :: x !in a { assert a == {}; }
  }

  lemma {:induction false} ImageSize(f: seq<int>, a: set<int>)
    requires forall k :: k in a ==> 0 <= k < |f|
    requires forall j, k :: j in a && k in a && j != k ==> f[j] != f[k]
    ensures |Image(f, a)| == |a|
  {
    if |a| > 0 {
      SomeMember(a);
      var x :| x in a;
      ImageSize(f, a - {x});
      assert Image(f, a) == Image(f, a - {x}) + {f[x]};
      assert f[x] !in Image(f, a - {x});
    }
  }

  lemma SubsetSize<T>(a: set<T>, b: set<T>)
    requires a <= b
    ensures |a| <= |b|
    ensures |a| == |b| ==> a == b
  {
    assert b == a + (b - a);
  }

  ghost function Indices(n: nat): (r: set<int>)
    ensures forall k :: k in r <==> 0 <= k < n
    ensures |r| == n
  {
    if n == 0 then {} else Indices(n - 1) + {n - 1}
  }

  /** Distinct values below n, n of them, leave none out. */
  lemma NoneMissing(p: seq<int>, n: nat, x: int)
    requires IsPermutation(p, n) && 0 <= x < n
    ensures x in p[..n]
  {
    var a := Indices(n);
    ImageSize(p, a);
    if x !in p[..n] {
      assert forall k :: 0 <= k < n ==> p[k] == p[..n][k];
      SubsetSize(Image(p, a), a - {x});
      assert false;
    }
  }

  lemma Surjective(p: seq<int>, n: nat, x: int) returns (k: nat)
    requires IsPermutation(p, n) && 0 <= x < n
    ensures k < n && p[k] == x
  {
    NoneMissing(p, n, x);
    k :| k < n && p[..n][k] == x;
  }

  /** The values of s in the order given by the first |s| cells of p. */
  ghost function Through(s: seq<int>, p: seq<int>): (t: seq<int>)
    requires IsPermutation(p, |s|)
  {
    seq(|s|, k requires 0 <= k < |s| => s[p[k]])
  }

  lemma CountThrough(s: seq<int>, p: seq<int>, c: int)
    requires IsPermutation(p, |s|)
    ensures Count(Through(s, p), |s|, c) == Count(s, |s|, c)
  {
    var t := Through(s, p);
    CountIsSize(t, |s|, c);
    CountIsSize(s, |s|, c);
    var a := Holding(t, |s|, c);
    ImageSize(p, a);
    forall x | x in Holding(s, |s|, c) ensures x in Image(p, a) {
      var k := Surjective(p, |s|, x);
      assert k in a;
    }
    assert Image(p, a) == Holding(s, |s|, c);
  }

  /** The cell at which a counting sort that keeps equal elements in order puts element i. */
  function StableCell(s: seq<int>, i: nat): (r: nat)
    requires i < |s|
    ensures r < |s|
    ensures Below(s, |s|, s[i]) <= r < Below(s, |s|, s[i] + 1)
  {
    CountMono(s, i, |s|, s[i]);
    BelowNext(s, |s|, s[i]);
    Below(s, |s|, s[i]) + Count(s, i, s[i])
  }

  /** The cell at which a counting sort that reverses equal elements puts element i. */
  function ReverseCell(s: seq<int>, i: nat): (r: nat)
    requires i < |s|
    ensures r < |s|
    ensures Below(s, |s|, s[i]) <= r < Below(s, |s|, s[i] + 1)
  {
    CountMono(s, i, |s|, s[i]);
    BelowNext(s, |s|, s[i]);
    Below(s, |s|, s[i]) + Count(s, |s|, s[i]) - 1 - Count(s, i, s[i])
  }

  lemma CellsDistinct(s: seq<int>, i: nat, j: nat)
    requires i < j < |s|
    ensures StableCell(s, i) != StableCell(s, j)
    ensures ReverseCell(s, i) != ReverseCell(s, j)
  {
    if s[i] == s[j] {
      CountMono(s, i, j, s[i]);
    } else if s[i] < s[j] {
      BelowMono(s, |s|, s[i] + 1, s[j]);
    } else {
      BelowMono(s, |s|, s[j] + 1, s[i]);
    }
  }

  /** Each cell belongs to the bucket of one value only. */
  lemma BucketUnique(s: seq<int>, k: int, c: int, d: int)
    requires Below(s, |s|, c) <= k < Below(s, |s|, c + 1)
    requires Below(s, |s|, d) <= k < Below(s, |s|, d + 1)
    ensures c == d
  {
    if c < d { BelowMono(s, |s|, c + 1, d); }
    if d < c { BelowMono(s, |s|, d + 1, c); }
  }

  /** If f undoes the permutation p it is a permutation, and p undoes it. */
  lemma InversePermutation(p: seq<int>, f: seq<int>, n: nat)
    requires IsPermutation(p, n) && n <= |f|
    requires forall i :: 0 <= i < n ==> f[p[i]] == i
    ensures IsPermutation(f, n)
    ensures forall k :: 0 <= k < n ==> p[f[k]] == k
  {
    forall k | 0 <= k < n ensures 0 <= f[k] < n && p[f[k]] == k {
      var i := Surjective(p, n, k);
    }
    forall j, k | 0 <= j < k < n ensures f[j] != f[k] {
      assert p[f[j]] == j && p[f[k]] == k;
    }
  }

  ghost predicate Sorted(s: seq<int>) {
    forall j, k :: 0 <= j < k < |s| ==> s[j] <= s[k]
  }

  lemma {:induction false} BelowGrows(s: seq<int>, i: nat, j: nat, c: int)
    requires i <= j <= |s|
    ensures Below(s, i, c) <= Below(s, j, c)
    ensures (forall k :: i <= k < j ==> s[k] >= c) ==> Below(s, i, c) == Below(s, j, c)
    decreases j
  {
    if i < j { BelowGrows(s, i, j - 1, c); }
  }

  /** In a sorted sequence every element lies in the bucket of its value. */
  lemma SortedCell(s: seq<int>, i: nat)
    requires Sorted(s) && i < |s|
    ensures Below(s, |s|, s[i]) <= i < Below(s, |s|, s[i] + 1)
  {
    BelowGrows(s, i, |s|, s[i]);
    BelowAll(s, i + 1, s[i] + 1);
    BelowGrows(s, i + 1, |s|, s[i] + 1);
  }

  lemma {:induction false} SameBelow(s: seq<int>, t: seq<int>, c: nat)
    requires |s| == |t| && forall k :: 0 <= k < |s| ==> s[k] >= 0 && t[k] >= 0
    requires forall d :: Count(s, |s|, d) == Count(t, |s|, d)
    ensures Below(s, |s|, c) == Below(t, |s|, c)
  {
    if c == 0 {
      BelowAll(s, |s|, 0);
      BelowAll(t, |s|, 0);
    } else {
      SameBelow(s, t, c - 1);
      BelowNext(s, |s|, c - 1);
      BelowNext(t, |s|, c - 1);
    }
  }

  /** There is only one way to sort given values. */
  lemma SortedUnique(s: seq<int>, t: seq<int>)
    requires |s| == |t| && forall k :: 0 <= k < |s| ==> s[k] >= 0 && t[k] >= 0
    requires Sorted(s) && Sorted(t) && forall d :: Count(s, |s|, d) == Count(t, |s|, d)
    ensures s == t
  {
    forall i | 0 <= i < |s| ensures s[i] == t[i] {
      SortedCell(s, i);
      SortedCell(t, i);
      SameBelow(s, t, t[i]);
      SameBelow(s, t, t[i] + 1);
      BucketUnique(s, i, s[i], t[i]);
    }
  }
}
