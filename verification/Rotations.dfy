/** Cyclic rotations of a block and their lexicographic order. */
module Rotations {
  import opened Counting
  import opened Sequences

  ghost predicate Bytes(b: seq<int>) {
    forall k :: 0 <= k < |b| ==> 0 <= b[k] < 256
  }

  function Wrap(i: nat, n: nat): (r: nat)
    requires n > 0
    ensures r < n
    decreases i
  {
    if i < n then i else Wrap(i - n, n)
  }

  /** The character at cell i of the infinite repetition of b. */
  function Ch(b: seq<int>, i: nat): int
    requires |b| > 0
  {
    b[Wrap(i, |b|)]
  }

  /** Comparison of the first h characters of the rotations starting at i and j:
      negative, zero or positive as the former is less, equal or greater. */
  function Cmp(b: seq<int>, i: nat, j: nat, h: nat): int
    requires |b| > 0
    decreases h
  {
    if h == 0 then 0
    else if Ch(b, i) < Ch(b, j) then -1
    else if Ch(b, i) > Ch(b, j) then 1
    else Cmp(b, i + 1, j + 1, h - 1)
  }

  /** The whole rotation starting at i does not exceed the one starting at j. */
  ghost predicate Le(b: seq<int>, i: nat, j: nat)
    requires |b| > 0
  {
    Cmp(b, i, j, |b|) <= 0
  }

  /** `p` lists all rotations of b in non-decreasing order. */
  ghost predicate IsSorted(b: seq<int>, p: seq<int>)
    requires |b| > 0
  {
    && IsPermutation(p, |b|)
    && forall j, k :: 0 <= j < k < |b| ==> Le(b, p[j], p[k])
  }

  lemma {:induction false} CmpAntisym(b: seq<int>, i: nat, j: nat, h: nat)
    requires |b| > 0
    ensures Cmp(b, i, j, h) == -Cmp(b, j, i, h)
    decreases h
  {
    if h > 0 { CmpAntisym(b, i + 1, j + 1, h - 1); }
  }

  lemma {:induction false} CmpSelf(b: seq<int>, i: nat, h: nat)
    requires |b| > 0
    ensures Cmp(b, i, i, h) == 0
    decreases h
  {
    if h > 0 { CmpSelf(b, i + 1, h - 1); }
  }

  lemma {:induction false} CmpTrans(b: seq<int>, i: nat, j: nat, k: nat, h: nat)
    requires |b| > 0
    requires Cmp(b, i, j, h) <= 0 && Cmp(b, j, k, h) <= 0
    ensures Cmp(b, i, k, h) <= 0
    ensures Cmp(b, i, k, h) == 0 ==> Cmp(b, i, j, h) == 0 && Cmp(b, j, k, h) == 0
    decreases h
  {
    if h > 0 && Ch(b, i) == Ch(b, j) == Ch(b, k) { CmpTrans(b, i + 1, j + 1, k + 1, h - 1); }
  }

  /** Comparing h1+h2 characters: the first h1 decide unless they are all equal. */
  lemma {:induction false} CmpSplit(b: seq<int>, i: nat, j: nat, h1: nat, h2: nat)
    requires |b| > 0
    ensures Cmp(b, i, j, h1 + h2) == if Cmp(b, i, j, h1) != 0 then Cmp(b, i, j, h1) else Cmp(b, i + h1, j + h1, h2)
    decreases h1
  {
    if h1 > 0 && Ch(b, i) == Ch(b, j) {
      CmpSplit(b, i + 1, j + 1, h1 - 1, h2);
      assert h1 + h2 - 1 == (h1 - 1) + h2;
      assert i + 1 + (h1 - 1) == i + h1 && j + 1 + (h1 - 1) == j + h1;
    }
  }

  lemma {:induction false} CmpWrap(b: seq<int>, i: nat, j: nat, h: nat)
    requires |b| > 0
    ensures Cmp(b, i + |b|, j, h) == Cmp(b, i, j, h)
    ensures Cmp(b, i, j + |b|, h) == Cmp(b, i, j, h)
    decreases h
  {
    if h > 0 {
      assert Ch(b, i + |b|) == Ch(b, i) && Ch(b, j + |b|) == Ch(b, j);
      CmpWrap(b, i + 1, j + 1, h - 1);
      assert i + |b| + 1 == i + 1 + |b| && j + |b| + 1 == j + 1 + |b|;
    }
  }

  lemma {:induction false} CmpWrapped(b: seq<int>, i: nat, j: nat, h: nat)
    requires |b| > 0
    ensures Cmp(b, Wrap(i, |b|), Wrap(j, |b|), h) == Cmp(b, i, j, h)
    decreases i + j
  {
    if i >= |b| {
      CmpWrapped(b, i - |b|, j, h);
      CmpWrap(b, i - |b|, j, h);
    } else if j >= |b| {
      CmpWrapped(b, i, j - |b|, h);
      CmpWrap(b, i, j - |b|, h);
    }
  }

  /** Equal rotations stay equal however far they are compared. */
  lemma {:induction false} CmpPeriodic(b: seq<int>, i: nat, j: nat, h: nat)
    requires |b| > 0
    requires Cmp(b, i, j, |b|) == 0
    ensures Cmp(b, i, j, h) == 0
    decreases h
  {
    if h <= |b| {
      CmpSplit(b, i, j, h, |b| - h);
    } else {
      CmpPeriodic(b, i, j, h - |b|);
      CmpSplit(b, i, j, |b|, h - |b|);
      CmpWrap(b, i, j + |b|, h - |b|);
      CmpWrap(b, i, j, h - |b|);
    }
  }

  /** Beyond the length of the block nothing new is compared. */
  lemma CmpLong(b: seq<int>, i: nat, j: nat, h: nat)
    requires |b| > 0 && h >= |b|
    ensures Cmp(b, i, j, h) == Cmp(b, i, j, |b|)
  {
    CmpSplit(b, i, j, |b|, h - |b|);
    if Cmp(b, i, j, |b|) == 0 { CmpPeriodic(b, i, j, h); }
  }

  /** Rotations with equal first characters are ordered like the rotations one further. */
  lemma LeStep(b: seq<int>, i: nat, j: nat)
    requires |b| > 0 && Ch(b, i) == Ch(b, j) && Le(b, i + 1, j + 1)
    ensures Le(b, i, j)
  {
    assert Cmp(b, i, j, |b| + 1) == Cmp(b, i + 1, j + 1, |b|);
    CmpLong(b, i, j, |b| + 1);
  }

  /** The rotations that are less than x on their first h characters. */
  ghost function Less(b: seq<int>, h: nat, x: nat): set<int>
    requires |b| > 0
  {
    set y: int | 0 <= y < |b| && Cmp(b, y, x, h) < 0
  }

  /** Ranks that order rotations by their first h characters. */
  ghost function Rank(b: seq<int>, h: nat): (r: seq<int>)
    requires |b| > 0
    ensures |r| == |b|
  {
    seq(|b|, x requires 0 <= x < |b| => |Less(b, h, x)|)
  }

  lemma RankOrder(b: seq<int>, h: nat, x: nat, y: nat)
    requires |b| > 0 && x < |b| && y < |b|
    ensures Rank(b, h)[x] < Rank(b, h)[y] <==> Cmp(b, x, y, h) < 0
    ensures Rank(b, h)[x] == Rank(b, h)[y] <==> Cmp(b, x, y, h) == 0
  {
    CmpAntisym(b, x, y, h);
    if Cmp(b, x, y, h) <= 0 { RankMono(b, h, x, y); }
    if Cmp(b, y, x, h) <= 0 { RankMono(b, h, y, x); }
  }

  lemma RankMono(b: seq<int>, h: nat, x: nat, y: nat)
    requires |b| > 0 && x < |b| && y < |b| && Cmp(b, x, y, h) <= 0
    ensures |Less(b, h, x)| <= |Less(b, h, y)|
    ensures Cmp(b, x, y, h) < 0 ==> |Less(b, h, x)| < |Less(b, h, y)|
  {
    CmpSelf(b, x, h);
    forall z | z in Less(b, h, x) ensures z in Less(b, h, y) {
      CmpTrans(b, z, x, y, h);
    }
    SubsetSize(Less(b, h, x), Less(b, h, y));
    if Cmp(b, x, y, h) < 0 {
      assert x in Less(b, h, y) && x !in Less(b, h, x);
    }
  }

  /** The last column of the table of rotations in the order p. */
  function LastColumn(b: seq<int>, p: seq<int>): (r: seq<int>)
    requires |b| > 0 && |b| <= |p| && forall k :: 0 <= k < |b| ==> 0 <= p[k] < |b|
    ensures |r| == |b|
  {
    seq(|b|, k requires 0 <= k < |b| => b[if p[k] == 0 then |b| - 1 else p[k] - 1])
  }

  lemma {:induction false} CmpEqualChar(b: seq<int>, i: nat, j: nat, h: nat, k: nat)
    requires |b| > 0 && k < h && Cmp(b, i, j, h) == 0
    ensures Ch(b, i + k) == Ch(b, j + k)
    decreases k
  {
    if k > 0 {
      CmpEqualChar(b, i + 1, j + 1, h - 1, k - 1);
      assert i + 1 + (k - 1) == i + k && j + 1 + (k - 1) == j + k;
    }
  }

  /** Equal rotations end in the same character. */
  lemma EqualLast(b: seq<int>, i: nat, j: nat)
    requires |b| > 0 && i < |b| && j < |b| && Cmp(b, i, j, |b|) == 0
    ensures b[if i == 0 then |b| - 1 else i - 1] == b[if j == 0 then |b| - 1 else j - 1]
  {
    var n := |b|;
    CmpEqualChar(b, i, j, n, n - 1);
    assert Wrap(i + (n - 1), n) == if i == 0 then n - 1 else i - 1;
    assert Wrap(j + (n - 1), n) == if j == 0 then n - 1 else j - 1;
  }

  /** Two sorted orders have equal rotations, if not the same ones, in every cell. */
  lemma SameRanks(b: seq<int>, p: seq<int>, q: seq<int>, k: nat)
    requires |b| > 0 && IsSorted(b, p) && IsSorted(b, q) && k < |b|
    ensures Cmp(b, p[k], q[k], |b|) == 0
  {
    var n, r := |b|, Rank(b, |b|);
    SortedRanks(b, p);
    SortedRanks(b, q);
    forall d ensures Count(Through(r, p), n, d) == Count(Through(r, q), n, d) {
      CountThrough(r, p, d);
      CountThrough(r, q, d);
    }
    SortedUnique(Through(r, p), Through(r, q));
    assert Through(r, p)[k] == Through(r, q)[k];
    RankOrder(b, n, p[k], q[k]);
  }

  lemma SortedRanks(b: seq<int>, p: seq<int>)
    requires |b| > 0 && IsSorted(b, p)
    ensures Sorted(Through(Rank(b, |b|), p))
    ensures forall k :: 0 <= k < |b| ==> Through(Rank(b, |b|), p)[k] >= 0
  {
    forall j, k | 0 <= j < k < |b| ensures Rank(b, |b|)[p[j]] <= Rank(b, |b|)[p[k]] {
      assert Le(b, p[j], p[k]);
      RankOrder(b, |b|, p[j], p[k]);
    }
  }

  /** Whichever sorted order is found, the last column is the same. */
  lemma SameColumn(b: seq<int>, p: seq<int>, q: seq<int>)
    requires |b| > 0 && IsSorted(b, p) && IsSorted(b, q)
    ensures LastColumn(b, p) == LastColumn(b, q)
  {
    forall k | 0 <= k < |b| ensures LastColumn(b, p)[k] == LastColumn(b, q)[k] {
      SameRanks(b, p, q, k);
      EqualLast(b, p[k], q[k]);
    }
  }

  lemma SwapTied(p: seq<int>, q: seq<int>, r: seq<int>, n: nat, j: nat, k: nat)
    requires IsPermutation(p, n) && |r| == n && j < n && k < n && r[p[j]] == r[p[k]]
    requires q == p[j := p[k]][k := p[j]] && forall u, v :: 0 <= u < v < n ==> r[p[u]] <= r[p[v]]
    ensures IsPermutation(q, n) && forall u, v :: 0 <= u < v < n ==> r[q[u]] <= r[q[v]]
  {
    assert forall u :: 0 <= u < n ==> 0 <= q[u] < n && r[q[u]] == r[p[u]];
  }

  /** A sorted order is free to exchange equal rotations. */
  lemma TiesExchange(b: seq<int>, p: seq<int>, j: nat, k: nat)
    requires |b| > 0 && IsSorted(b, p) && j < |b| && k < |b| && Cmp(b, p[j], p[k], |b|) == 0
    ensures IsSorted(b, p[j := p[k]][k := p[j]])
  {
    hide Cmp, Rank;
    var q, r := p[j := p[k]][k := p[j]], Rank(b, |b|);
    RankOrder(b, |b|, p[j], p[k]);
    forall u, v | 0 <= u < v < |b| ensures r[p[u]] <= r[p[v]] {
      assert Le(b, p[u], p[v]);
      RankOrder(b, |b|, p[u], p[v]);
    }
    SwapTied(p, q, r, |b|, j, k);
    forall u, v | 0 <= u < v < |b| ensures Le(b, q[u], q[v]) {
      RankOrder(b, |b|, q[u], q[v]);
    }
  }

  /** The row of the block itself is the same in all sorted orders exactly when no other rotation
      equals the block. */
  lemma SamePointer(b: seq<int>, p: seq<int>, origPtr: nat)
    requires |b| > 0 && IsSorted(b, p) && origPtr < |b| && p[origPtr] == 0
    ensures (forall q :: IsSorted(b, q) ==> q[origPtr] == 0) <==> (forall x :: 0 < x < |b| ==> Cmp(b, 0, x, |b|) != 0)
  {
    hide Cmp;
    if forall x :: 0 < x < |b| ==> Cmp(b, 0, x, |b|) != 0 {
      forall q | IsSorted(b, q) ensures q[origPtr] == 0 {
        SameRanks(b, p, q, origPtr);
      }
    } else {
      var x :| 0 < x < |b| && Cmp(b, 0, x, |b|) == 0;
      var j := Surjective(p, |b|, x);
      TiesExchange(b, p, origPtr, j);
      var q := p[origPtr := p[j]][j := p[origPtr]];
      assert IsSorted(b, q) && q[origPtr] == x;
    }
  }

  /** A block of two equal bytes: either order is sorted, and the block is in a different row. */
  lemma TiedPointer()
    ensures IsSorted([7, 7], [0, 1]) && IsSorted([7, 7], [1, 0])
  {
    assert Cmp([7, 7], 0, 1, 2) == Cmp([7, 7], 1, 2, 1) == Cmp([7, 7], 2, 3, 0) == 0;
    CmpAntisym([7, 7], 0, 1, 2);
  }
}
