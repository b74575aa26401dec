/** The fallback block sort: bucket doubling in the manner of Manber and Myers. */
module FallbackSort {
  import opened Counting
  import opened FallbackQSort
  import opened HeaderBits
  import opened RangeStack
  import opened Rotations
  import opened Sequences

  /** Cell i does not hold the same rank as the cell before it. */
  ghost predicate NewClass(rank: seq<int>, f: seq<int>, i: int)
    requires 0 < i < |f| && 0 <= f[i - 1] < |rank| && 0 <= f[i] < |rank|
  {
    rank[f[i - 1]] != rank[f[i]]
  }

  /** The bucket of some character below m starts at cell z. */
  ghost predicate StartsBucket(b: seq<int>, z: int, m: int) {
    exists c :: 0 <= c < m && Below(b, |b|, c) == z
  }

  /** The headers mark exactly the cells where the rank changes. */
  ghost predicate HeadersMark(rank: seq<int>, f: seq<int>, bh: seq<nat>, n: nat)
    requires IsPermutation(f, n) && n <= |rank|
  {
    && n + 64 <= 32 * |bh|
    && Header(bh, 0)
    && forall i :: 0 < i < n ==> (Header(bh, i) <==> NewClass(rank, f, i))
  }

  /** A set bit and a clear bit just beyond the block stop the searches for buckets. */
  ghost predicate Sentinels(bh: seq<nat>, n: nat) {
    n + 64 <= 32 * |bh| && Header(bh, n) && !Header(bh, n + 1)
  }

  /** The rotations are in order of their first h characters, with a header at the
      start of every class of rotations that agree on those. */
  ghost predicate Refined(b: seq<int>, h: nat, f: seq<int>, bh: seq<nat>)
    requires |b| > 0
  {
    && IsPermutation(f, |b|) && Words32(bh) && Sentinels(bh, |b|)
    && SortedBy(Rank(b, h), f, 0, |b| - 1)
    && HeadersMark(Rank(b, h), f, bh, |b|)
  }

  /** Count the characters of the block: ftab[c] ends as the number of characters up to c. */
  method CountBytes(block: array<int>, n: nat, ftab: array<int>, ftabCopy: array<int>, ghost b: seq<int>)
    requires 0 < n <= block.Length && b == block[..n] && Bytes(b)
    requires ftab.Length == 257 && ftabCopy.Length == 256
    requires block != ftab && block != ftabCopy && ftab != ftabCopy
    modifies ftab, ftabCopy
    ensures forall c :: 0 <= c < 256 ==> ftabCopy[c] == Count(b, n, c)
    ensures forall c :: 0 <= c < 256 ==> ftab[c] == Below(b, n, c + 1)
    ensures ftab[256] == n
  {
    for i := 0 to 257
      invariant forall c :: 0 <= c < i ==> ftab[c] == 0
    {
      ftab[i] := 0;
    }
    for i := 0 to n
      invariant forall c :: 0 <= c < 256 ==> ftab[c] == Count(b, i, c)
      invariant ftab[256] == 0
    {
      assert block[i] == b[i];
      ftab[block[i]] := ftab[block[i]] + 1;
    }
    for i := 0 to 256
      invariant forall c :: 0 <= c < i ==> ftabCopy[c] == ftab[c]
      invariant forall c :: 0 <= c < 256 ==> ftab[c] == Count(b, n, c)
      invariant ftab[256] == 0
    {
      ftabCopy[i] := ftab[i];
    }
    BelowAll(b, n, 0);
    BelowNext(b, n, 0);
    for i := 1 to 257
      invariant forall c :: 0 <= c < i && c < 256 ==> ftab[c] == Below(b, n, c + 1)
      invariant forall c :: i <= c < 256 ==> ftab[c] == Count(b, n, c)
      invariant forall c :: 0 <= c < 256 ==> ftabCopy[c] == Count(b, n, c)
      invariant ftab[256] == if i < 257 then 0 else Below(b, n, 256)
    {
      BelowNext(b, n, i);
      ftab[i] := ftab[i] + ftab[i - 1];
    }
    BelowAll(b, n, 256);
  }

  /** Put every rotation into the bucket of its first character. */
  method PlaceBytes(block: array<int>, n: nat, fmap: array<int>, ftab: array<int>, ghost b: seq<int>)
    requires 0 < n <= block.Length && b == block[..n] && Bytes(b) && n <= fmap.Length
    requires ftab.Length == 257
    requires block != ftab && block != fmap && ftab != fmap
    requires forall c :: 0 <= c < 256 ==> ftab[c] == Below(b, n, c + 1)
    modifies fmap, ftab
    ensures forall c :: 0 <= c < 256 ==> ftab[c] == Below(b, n, c)
    ensures forall i :: 0 <= i < n ==> fmap[ReverseCell(b, i)] == i
  {
    for i := 0 to n
      invariant forall c :: 0 <= c < 256 ==> ftab[c] == Below(b, n, c + 1) - Count(b, i, c)
      invariant forall i' :: 0 <= i' < i ==> fmap[ReverseCell(b, i')] == i'
    {
      var j := block[i];
      assert j == b[i];
      var k := ftab[j] - 1;
      ftab[j] := k;
      BelowNext(b, n, j);
      assert k == ReverseCell(b, i);
      forall i' | 0 <= i' < i ensures ReverseCell(b, i') != k { CellsDistinct(b, i', i); }
      fmap[k] := i;
    }
    forall c | 0 <= c < 256 ensures ftab[c] == Below(b, n, c) { BelowNext(b, n, c); }
  }

  /** After the radix sort every cell lies in the bucket of its rotation's first character. */
  lemma PlacedBuckets(b: seq<int>, f: seq<int>)
    requires 0 < |b| <= |f|
    requires forall i :: 0 <= i < |b| ==> f[ReverseCell(b, i)] == i
    ensures IsPermutation(f, |b|)
    ensures forall k :: 0 <= k < |b| ==> Below(b, |b|, b[f[k]]) <= k < Below(b, |b|, b[f[k]] + 1)
  {
    var n := |b|;
    var p := seq(n, i requires 0 <= i < n => ReverseCell(b, i));
    forall i, j | 0 <= i < j < n ensures p[i] != p[j] { CellsDistinct(b, i, j); }
    InversePermutation(p, f, n);
    forall k | 0 <= k < n ensures Below(b, n, b[f[k]]) <= k < Below(b, n, b[f[k]] + 1) {
      assert p[f[k]] == k;
    }
  }

  /** Cells in the buckets of their first characters are in order of those, and a new
      bucket starts exactly where some character's bucket does. */
  lemma PlacedOrder(b: seq<int>, f: seq<int>)
    requires |b| > 0 && Bytes(b) && IsPermutation(f, |b|)
    requires forall k :: 0 <= k < |b| ==> Below(b, |b|, b[f[k]]) <= k < Below(b, |b|, b[f[k]] + 1)
    ensures SortedBy(Rank(b, 1), f, 0, |b| - 1)
    ensures forall i :: 0 < i < |b| ==> (NewClass(Rank(b, 1), f, i) <==> StartsBucket(b, i, 256))
  {
    var n := |b|;
    forall j, k | 0 <= j < k < n ensures Rank(b, 1)[f[j]] <= Rank(b, 1)[f[k]] {
      if b[f[j]] > b[f[k]] { BelowMono(b, n, b[f[k]] + 1, b[f[j]]); }
      RankOne(b, f[j], f[k]);
    }
    forall i | 0 < i < n ensures NewClass(Rank(b, 1), f, i) <==> StartsBucket(b, i, 256) {
      var d, e := b[f[i - 1]], b[f[i]];
      RankOne(b, f[i - 1], f[i]);
      if d == e {
        forall c | 0 <= c < 256 ensures Below(b, n, c) != i {
          if c <= d { BelowMono(b, n, c, d); } else { BelowMono(b, n, d + 1, c); }
        }
      } else if Below(b, n, e) < i {
        BucketUnique(b, i - 1, d, e);
      } else {
        assert Below(b, n, e) == i;
      }
    }
  }

  lemma RankOne(b: seq<int>, x: nat, y: nat)
    requires |b| > 0 && x < |b| && y < |b|
    ensures Rank(b, 1)[x] <= Rank(b, 1)[y] <==> b[x] <= b[y]
    ensures Rank(b, 1)[x] == Rank(b, 1)[y] <==> b[x] == b[y]
  {
    RankOrder(b, 1, x, y);
    assert Cmp(b, x + 1, y + 1, 0) == 0;
  }

  /** Clear the table, mark the start of every bucket, and set the sentinels. */
  method MarkBuckets(bhtab: array<nat>, n: nat, ftab: array<int>, ghost b: seq<int>, ghost f: seq<int>)
    requires 0 < n == |b| && Bytes(b) && IsPermutation(f, n) && ftab.Length == 257
    requires 3 + n / 32 <= bhtab.Length && Words32(bhtab[..])
    requires forall c :: 0 <= c < 256 ==> ftab[c] == Below(b, n, c)
    requires forall k :: 0 <= k < n ==> Below(b, n, b[f[k]]) <= k < Below(b, n, b[f[k]] + 1)
    modifies bhtab
    ensures Refined(b, 1, f, bhtab[..])
  {
    var nBhtab := 2 + n / 32;
    for i := 0 to nBhtab
      invariant Words32(bhtab[..])
      invariant forall w :: 0 <= w < i ==> bhtab[w] == 0
    {
      bhtab[i] := 0;
    }
    forall z: nat | z <= n + 1 ensures !Header(bhtab[..], z) { Words.BitZero(z % 32); }
    for i := 0 to 256
      invariant Words32(bhtab[..])
      invariant forall z: nat :: z < n ==> (Header(bhtab[..], z) <==> StartsBucket(b, z, i))
    {
      SetBH(bhtab, ftab[i]);
      assert forall z :: StartsBucket(b, z, i + 1) <==> StartsBucket(b, z, i) || Below(b, n, i) == z;
    }
    for i := 0 to 32
      invariant Words32(bhtab[..])
      invariant forall z: nat :: z < n ==> (Header(bhtab[..], z) <==> StartsBucket(b, z, 256))
      invariant i > 0 ==> Header(bhtab[..], n) && !Header(bhtab[..], n + 1)
    {
      SetBH(bhtab, n + 2 * i);
      ClearBH(bhtab, n + 2 * i + 1);
    }
    PlacedOrder(b, f);
    BelowAll(b, n, 0);
  }

  /** The header of the bucket that holds cell i. */
  function LastHeader(bh: seq<nat>, i: nat): (r: nat)
    requires i / 32 < |bh|
    ensures r <= i
  {
    if i == 0 || Header(bh, i) then i else LastHeader(bh, i - 1)
  }

  lemma {:induction false} LastHeaderOrder(rank: seq<int>, f: seq<int>, bh: seq<nat>, n: nat, i: nat, j: nat)
    requires IsPermutation(f, n) && n <= |rank| && HeadersMark(rank, f, bh, n)
    requires SortedBy(rank, f, 0, n - 1) && i <= j < n
    ensures LastHeader(bh, i) <= LastHeader(bh, j)
    ensures LastHeader(bh, i) == LastHeader(bh, j) <==> rank[f[i]] == rank[f[j]]
    decreases j
  {
    if i < j {
      LastHeaderOrder(rank, f, bh, n, i, j - 1);
      assert Header(bh, j) <==> NewClass(rank, f, j);
    }
  }

  /** x - h, taken round the block. */
  function Back(x: int, h: nat, n: nat): int {
    if x - h < 0 then x - h + n else x - h
  }

  /** e orders the rotations as their continuations after h characters are ordered by
      h characters: their first 2h characters are compared by rank and then by e. */
  ghost predicate Classes(b: seq<int>, h: nat, e: seq<int>)
    requires |b| > 0
  {
    && |b| <= |e|
    && (forall x :: 0 <= x < |b| ==> 0 <= e[x] < |b|)
    && (forall x, y :: 0 <= x < |b| && 0 <= y < |b| ==>
        (e[x] <= e[y] <==> Rank(b, h)[Wrap(x + h, |b|)] <= Rank(b, h)[Wrap(y + h, |b|)]))
  }

  /** e holds, for each rotation, the header of the bucket of its continuation after h characters. */
  ghost predicate Filled(f: seq<int>, h: nat, bh: seq<nat>, e: seq<int>, n: nat) {
    && IsPermutation(f, n) && h <= n <= |e| && n <= 32 * |bh|
    && forall i :: 0 <= i < n ==> e[Back(f[i], h, n)] == LastHeader(bh, i)
  }

  /** Every rotation gets the header of the bucket of its continuation. */
  method ComputeClasses(fmap: array<int>, eclass: array<int>, bhtab: array<nat>, n: nat, h: nat)
    requires fmap != eclass && 0 < n <= eclass.Length && h <= n <= 32 * bhtab.Length
    requires IsPermutation(fmap[..], n)
    modifies eclass
    ensures Filled(fmap[..], h, bhtab[..], eclass[..], n)
  {
    hide Filling, IsPermutation, Words.Bit;
    ghost var f, bh := fmap[..], bhtab[..];
    var j := 0;
    FillingStarts(f, h, bh, eclass[..], n);
    for i := 0 to n
      invariant j == if i == 0 then 0 else LastHeader(bh, i - 1)
      invariant Filling(f, h, bh, eclass[..], n, i)
    {
      FillingCell(f, h, bh, eclass[..], n, i);
      if Words.Bit(bhtab[i / 32], i % 32) { assert Header(bh, i); j := i; }
      assert j == LastHeader(bh, i);
      var k := fmap[i] - h;
      if k < 0 { k := k + n; }
      ghost var e := eclass[..];
      eclass[k] := j;
      FillingNext(f, h, bh, e, eclass[..], n, i);
    }
    FillingDone(f, h, bh, eclass[..], n);
  }

  /** The rotations of the first i cells have their classes. */
  ghost predicate Filling(f: seq<int>, h: nat, bh: seq<nat>, e: seq<int>, n: nat, i: nat) {
    && IsPermutation(f, n) && h <= n <= |e| && n <= 32 * |bh| && i <= n
    && forall i' :: 0 <= i' < i ==> e[Back(f[i'], h, n)] == LastHeader(bh, i')
  }

  lemma FillingStarts(f: seq<int>, h: nat, bh: seq<nat>, e: seq<int>, n: nat)
    requires IsPermutation(f, n) && h <= n <= |e| && n <= 32 * |bh|
    ensures Filling(f, h, bh, e, n, 0)
  {
  }

  lemma FillingCell(f: seq<int>, h: nat, bh: seq<nat>, e: seq<int>, n: nat, i: nat)
    requires Filling(f, h, bh, e, n, i) && i < n
    ensures i < |f| && 0 <= f[i] < n && h <= n <= |e| && i / 32 < |bh| && 0 <= Back(f[i], h, n) < n
  {
  }

  lemma FillingNext(f: seq<int>, h: nat, bh: seq<nat>, e: seq<int>, e': seq<int>, n: nat, i: nat)
    requires Filling(f, h, bh, e, n, i) && i < n && |f| > i && 0 <= f[i] < n && h <= n <= |e| && n <= 32 * |bh|
    requires 0 <= Back(f[i], h, n) < |e| && e' == e[Back(f[i], h, n) := LastHeader(bh, i)]
    ensures Filling(f, h, bh, e', n, i + 1)
  {
    hide LastHeader;
  }

  lemma FillingDone(f: seq<int>, h: nat, bh: seq<nat>, e: seq<int>, n: nat)
    requires Filling(f, h, bh, e, n, n)
    ensures Filled(f, h, bh, e, n)
  {
  }

  lemma ClassesFromCells(b: seq<int>, h: nat, f: seq<int>, bh: seq<nat>, e: seq<int>)
    requires |b| > 0 && Refined(b, h, f, bh) && Filled(f, h, bh, e, |b|)
    ensures Classes(b, h, e)
  {
    var n, rank := |b|, Rank(b, h);
    forall x | 0 <= x < n ensures 0 <= e[x] < n {
      var i := CellOf(f, h, bh, e, n, x);
    }
    forall x, y | 0 <= x < n && 0 <= y < n
      ensures e[x] <= e[y] <==> rank[Wrap(x + h, n)] <= rank[Wrap(y + h, n)]
    {
      var i := CellOf(f, h, bh, e, n, x);
      var j := CellOf(f, h, bh, e, n, y);
      if i <= j {
        LastHeaderOrder(rank, f, bh, n, i, j);
      } else {
        LastHeaderOrder(rank, f, bh, n, j, i);
      }
    }
  }

  lemma CellOf(f: seq<int>, h: nat, bh: seq<nat>, e: seq<int>, n: nat, x: nat) returns (i: nat)
    requires Filled(f, h, bh, e, n) && x < n
    ensures i < n && f[i] == Wrap(x + h, n) && e[x] == LastHeader(bh, i)
  {
    i := Surjective(f, n, Wrap(x + h, n));
    assert Wrap(x + h, n) == if x + h < n then x + h else x + h - n;
    assert Back(f[i], h, n) == x;
  }

  /** Twice as many characters are compared by comparing the classes of the continuations. */
  lemma Doubled(b: seq<int>, h: nat, e: seq<int>, x: nat, y: nat)
    requires |b| > 0 && Classes(b, h, e) && x < |b| && y < |b|
    ensures Rank(b, 2 * h)[x] <= Rank(b, 2 * h)[y] <==>
            Rank(b, h)[x] < Rank(b, h)[y] || (Rank(b, h)[x] == Rank(b, h)[y] && e[x] <= e[y])
  {
    var n := |b|;
    var x', y' := Wrap(x + h, n), Wrap(y + h, n);
    RankOrder(b, h, x, y);
    RankOrder(b, 2 * h, x, y);
    RankOrder(b, h, x', y');
    CmpSplit(b, x, y, h, h);
    CmpWrapped(b, x + h, y + h, h);
  }

  /** Ranks by h and by 2h characters, and the keys that lead from one to the other. */
  ghost predicate Finer(r1: seq<int>, r2: seq<int>, e: seq<int>, n: nat) {
    && n <= |e| && |r1| == n && |r2| == n
    && (forall x :: 0 <= x < n ==> 0 <= e[x] < n)
    && forall x, y :: 0 <= x < n && 0 <= y < n ==>
      (r2[x] <= r2[y] <==> r1[x] < r1[y] || (r1[x] == r1[y] && e[x] <= e[y]))
  }

  /** In the middle of a pass: the cells up to r are refined, each within its old
      bucket, and the rest is as it was at the start of the pass (f0, bh0). */
  ghost predicate Passing(r1: seq<int>, r2: seq<int>, f0: seq<int>, bh0: seq<nat>, f: seq<int>, bh: seq<nat>, n: nat,
                          r: int) {
    && -1 <= r < n && |r1| == n && |r2| == n && |f| == |f0| && |bh| == |bh0| && n + 64 <= 32 * |bh|
    && IsPermutation(f0, n) && IsPermutation(f, n) && Words32(bh)
    && (forall i :: 0 <= i < n ==> r1[f[i]] == r1[f0[i]])
    && (forall i, j :: 0 <= i < j <= r ==> r2[f[i]] <= r2[f[j]])
    && (forall i :: 0 < i <= r ==> (Header(bh, i) <==> NewClass(r2, f, i)))
    && (forall i :: r < i < n ==> f[i] == f0[i])
    && (forall z :: r < z <= n + 1 ==> (Header(bh, z) <==> Header(bh0, z)))
    && Header(bh, 0) && Header(bh0, r + 1)
  }

  /** Cells r+1..l are buckets of one: nothing to do for them. */
  lemma PassSingles(r1: seq<int>, r2: seq<int>, e: seq<int>, f0: seq<int>, bh0: seq<nat>,
                    f: seq<int>, bh: seq<nat>, n: nat, r: int, l: int)
    requires Finer(r1, r2, e, n) && Passing(r1, r2, f0, bh0, f, bh, n, r)
    requires HeadersMark(r1, f0, bh0, n) && SortedBy(r1, f0, 0, n - 1)
    requires r <= l < n && forall z :: r < z <= l + 1 ==> Header(bh0, z)
    ensures Passing(r1, r2, f0, bh0, f, bh, n, l)
  {
    hide HeadersMark, SortedBy, Words32;
    forall i, j | 0 <= i < j <= l ensures r2[f[i]] <= r2[f[j]] {
      if j > r { EarlierLess(r1, f0, bh0, f, n, i, j); }
    }
    forall i | 0 < i <= l ensures Header(bh, i) <==> NewClass(r2, f, i) {
      if i > r {
        EarlierLess(r1, f0, bh0, f, n, i - 1, i);
      }
    }
  }

  /** A header separates the classes before it from those after it. */
  lemma EarlierLess(r1: seq<int>, f0: seq<int>, bh0: seq<nat>, f: seq<int>, n: nat, i: int, j: int)
    requires |r1| == n && IsPermutation(f0, n) && IsPermutation(f, n)
    requires HeadersMark(r1, f0, bh0, n) && SortedBy(r1, f0, 0, n - 1)
    requires forall i :: 0 <= i < n ==> r1[f[i]] == r1[f0[i]]
    requires 0 <= i < j < n && Header(bh0, j)
    ensures r1[f[i]] < r1[f[j]]
  {
    assert NewClass(r1, f0, j);
    assert r1[f0[i]] <= r1[f0[j - 1]] <= r1[f0[j]];
  }

  /** Sorting the next bucket l..k by its keys and marking where they change refines it. */
  lemma PassBucket(r1: seq<int>, r2: seq<int>, e: seq<int>, f0: seq<int>, bh0: seq<nat>,
                   f: seq<int>, bh: seq<nat>, g: seq<int>, ch: seq<nat>, n: nat, l: int, k: int)
    requires Finer(r1, r2, e, n) && Passing(r1, r2, f0, bh0, f, bh, n, l - 1)
    requires HeadersMark(r1, f0, bh0, n) && SortedBy(r1, f0, 0, n - 1)
    requires 0 <= l <= k < n && Header(bh0, k + 1)
    requires forall z :: l < z <= k ==> !Header(bh0, z)
    requires Rearranged(f, g, l, k + 1) && Keyed(e, g, l, k) && SortedBy(e, g, l, k)
    requires |ch| == |bh| && Words32(ch)
    requires forall z: nat :: z / 32 < |bh| ==>
      (Header(ch, z) <==> Header(bh, z) || (l <= z <= k && (z == l || NewClass(e, g, z))))
    ensures Passing(r1, r2, f0, bh0, g, ch, n, k)
  {
    BucketStays(r1, f0, bh0, f, g, n, l, k);
    hide Rearranged;
    forall i, j | 0 <= i < j <= k ensures r2[g[i]] <= r2[g[j]] {
      if i < l <= j {
        EarlierLess(r1, f0, bh0, g, n, i, l);
      }
    }
    forall i | 0 < i <= k ensures Header(ch, i) <==> NewClass(r2, g, i) {
      if i == l {
        EarlierLess(r1, f0, bh0, g, n, i - 1, i);
      } else if l < i {
        assert r1[g[i - 1]] == r1[g[i]];
      }
    }
  }

  /** Sorting a bucket leaves the class of every cell as it is. */
  lemma BucketStays(r1: seq<int>, f0: seq<int>, bh0: seq<nat>, f: seq<int>, g: seq<int>, n: nat, l: int, k: int)
    requires |r1| == n && IsPermutation(f0, n) && IsPermutation(f, n) && HeadersMark(r1, f0, bh0, n)
    requires forall i :: 0 <= i < n ==> r1[f[i]] == r1[f0[i]]
    requires 0 <= l <= k < n && forall z :: l < z <= k ==> !Header(bh0, z)
    requires Rearranged(f, g, l, k + 1)
    ensures IsPermutation(g, n)
    ensures forall i :: 0 <= i < n ==> r1[g[i]] == r1[f0[i]]
    ensures forall i :: l <= i <= k ==> r1[g[i]] == r1[g[l]]
    ensures forall i :: 0 <= i < l || k < i < n ==> g[i] == f[i]
  {
    RearrangedPermutation(f, g, l, k + 1, n);
    forall i | l <= i <= k ensures r1[f0[i]] == r1[f0[l]] {
      SameClass(r1, f0, bh0, n, l, i);
    }
    forall i | 0 <= i < n ensures r1[g[i]] == r1[f0[i]] {
      if l <= i <= k { var j := RearrangedFrom(f, g, l, k + 1, i); }
    }
  }

  lemma {:induction false} SameClass(r1: seq<int>, f0: seq<int>, bh0: seq<nat>, n: nat, l: int, i: int)
    requires |r1| == n && IsPermutation(f0, n) && HeadersMark(r1, f0, bh0, n)
    requires 0 <= l <= i < n && forall z :: l < z <= i ==> !Header(bh0, z)
    ensures r1[f0[i]] == r1[f0[l]]
    decreases i
  {
    if l < i {
      SameClass(r1, f0, bh0, n, l, i - 1);
      assert !NewClass(r1, f0, i);
    }
  }

  /** Mark a header wherever the key changes within cells l..r. */
  method MarkChanges(fmap: array<int>, eclass: array<int>, bhtab: array<nat>, ghost e: seq<int>, l: nat, r: nat)
    requires e == eclass[..] && fmap != eclass && l <= r && Keyed(e, fmap[..], l, r)
    requires forall i :: l <= i <= r ==> e[fmap[i]] >= 0
    requires Words32(bhtab[..]) && r < 32 * bhtab.Length
    modifies bhtab
    ensures Words32(bhtab[..])
    ensures forall z: nat :: z / 32 < bhtab.Length ==>
      (Header(bhtab[..], z) <==>
       Header(old(bhtab[..]), z) || (l <= z <= r && (z == l || NewClass(e, fmap[..], z))))
  {
    ghost var f, bh := fmap[..], bhtab[..];
    var cc := -1;
    for i := l to r + 1
      invariant Words32(bhtab[..]) && f == fmap[..]
      invariant cc == if i == l then -1 else e[f[i - 1]]
      invariant forall z: nat :: z / 32 < bhtab.Length ==>
        (Header(bhtab[..], z) <==> Header(bh, z) || (l <= z < i && (z == l || NewClass(e, f, z))))
    {
      var cc1 := eclass[fmap[i]];
      assert i > l ==> (NewClass(e, f, i) <==> cc != cc1);
      if cc != cc1 {
        SetBH(bhtab, i);
        cc := cc1;
      }
    }
  }

  /** Sort one bucket and mark its new headers. */
  method RefineBucket(fmap: array<int>, eclass: array<int>, bhtab: array<nat>, n: nat, l: nat, r: nat,
                      ghost r1: seq<int>, ghost r2: seq<int>, ghost e: seq<int>, ghost f0: seq<int>,
                      ghost bh0: seq<nat>)
    requires fmap != eclass && e == eclass[..] && l <= r < n <= 900000
    requires Finer(r1, r2, e, n) && Passing(r1, r2, f0, bh0, fmap[..], bhtab[..], n, l - 1)
    requires HeadersMark(r1, f0, bh0, n) && SortedBy(r1, f0, 0, n - 1)
    requires Header(bh0, r + 1) && forall z :: l < z <= r ==> !Header(bh0, z)
    modifies fmap, bhtab
    ensures Passing(r1, r2, f0, bh0, fmap[..], bhtab[..], n, r)
  {
    hide Finer, Passing, SortedBy, HeadersMark, Rearranged, Keyed, IsPermutation, Words32;
    ghost var f, bh := fmap[..], bhtab[..];
    PassingTables(r1, r2, f0, bh0, f, bh, n, l - 1);
    KeysValid(r1, r2, e, f, n, l, r);
    QSort3(fmap, eclass, e, l, r);
    ghost var g := fmap[..];
    RearrangedPermutation(f, g, l, r + 1, n);
    KeysValid(r1, r2, e, g, n, l, r);
    MarkChanges(fmap, eclass, bhtab, e, l, r);
    PassBucket(r1, r2, e, f0, bh0, f, bh, fmap[..], bhtab[..], n, l, r);
  }

  lemma KeysValid(r1: seq<int>, r2: seq<int>, e: seq<int>, f: seq<int>, n: nat, l: int, r: int)
    requires Finer(r1, r2, e, n) && IsPermutation(f, n) && 0 <= l <= r < n
    ensures Keyed(e, f, l, r) && forall i :: l <= i <= r ==> e[f[i]] >= 0
  {
  }

  /** The next bucket l..k of more than one cell after cell r, if there is one. */
  method NextBucket(bhtab: array<nat>, n: nat, r: int, ghost bh0: seq<nat>) returns (found: bool, l: int, k: int)
    requires -1 <= r < n && |bh0| == bhtab.Length && Sentinels(bh0, n) && Header(bh0, r + 1)
    requires forall z :: r < z <= n + 1 ==> (Header(bhtab[..], z) <==> Header(bh0, z))
    ensures !found ==> forall z :: r < z <= n ==> Header(bh0, z)
    ensures found ==> r < l < k < n && Header(bh0, k + 1)
    ensures found ==> (forall z :: r < z <= l ==> Header(bh0, z)) && (forall z :: l < z <= k ==> !Header(bh0, z))
  {
    k := NextClear(bhtab, r + 1, n + 1);
    assert k > r + 1 && forall z :: r < z < k ==> Header(bh0, z);
    l := k - 1;
    if l >= n { return false, l, k; }
    k := NextSet(bhtab, k, n);
    assert Header(bh0, k) && forall z :: l < z < k ==> !Header(bh0, z);
    k := k - 1;
    if k >= n { assert false; return false, l, k; }
    found := true;
  }

  lemma PassingTables(r1: seq<int>, r2: seq<int>, f0: seq<int>, bh0: seq<nat>, f: seq<int>, bh: seq<nat>, n: nat,
                      r: int)
    requires Passing(r1, r2, f0, bh0, f, bh, n, r)
    ensures IsPermutation(f, n) && Words32(bh) && |f| == |f0| && |bh| == |bh0| && n + 64 <= 32 * |bh|
  {
  }

  lemma PassingAgree(r1: seq<int>, r2: seq<int>, f0: seq<int>, bh0: seq<nat>, f: seq<int>, bh: seq<nat>, n: nat, r: int)
    requires Passing(r1, r2, f0, bh0, f, bh, n, r) && Sentinels(bh0, n)
    ensures |bh0| == |bh| && n + 64 <= 32 * |bh| && Header(bh0, r + 1)
    ensures forall z :: r < z <= n + 1 ==> (Header(bh, z) <==> Header(bh0, z))
  {
  }

  /** One pass: every bucket is sorted by the classes of the continuations, which makes
      the order one of twice as many characters. Counts the cells in buckets that were
      not yet single. */
  method RefinePass(fmap: array<int>, eclass: array<int>, bhtab: array<nat>, n: nat,
                    ghost r1: seq<int>, ghost r2: seq<int>, ghost e: seq<int>)
    returns (nNotDone: int)
    requires fmap != eclass && e == eclass[..] && 0 < n <= 900000
    requires Finer(r1, r2, e, n) && IsPermutation(fmap[..], n)
    requires Words32(bhtab[..]) && Sentinels(bhtab[..], n)
    requires HeadersMark(r1, fmap[..], bhtab[..], n) && SortedBy(r1, fmap[..], 0, n - 1)
    modifies fmap, bhtab
    ensures Passing(r1, r2, old(fmap[..]), old(bhtab[..]), fmap[..], bhtab[..], n, n - 1)
    ensures nNotDone == 0 ==> fmap[..] == old(fmap[..]) && forall z :: 0 <= z < n ==> Header(old(bhtab[..]), z)
  {
    ghost var f0, bh0 := fmap[..], bhtab[..];
    nNotDone := 0;
    var r := -1;
    assert Passing(r1, r2, f0, bh0, f0, bh0, n, r);
    hide Finer, HeadersMark, SortedBy, Words32, Passing, Sentinels, Header;
    while true
      invariant -1 <= r < n && 0 <= nNotDone
      invariant Passing(r1, r2, f0, bh0, fmap[..], bhtab[..], n, r)
      invariant n + 64 <= 32 * |bh0|
      invariant nNotDone == 0 ==> fmap[..] == f0 && forall z :: 0 <= z <= r ==> Header(bh0, z)
      decreases n - r
    {
      PassingAgree(r1, r2, f0, bh0, fmap[..], bhtab[..], n, r);
      var found, l, k := NextBucket(bhtab, n, r, bh0);
      PassSingles(r1, r2, e, f0, bh0, fmap[..], bhtab[..], n, r, if found then l - 1 else n - 1);
      if !found { break; }
      r := k;
      if r > l {
        nNotDone := nNotDone + (r - l + 1);
        RefineBucket(fmap, eclass, bhtab, n, l, r, r1, r2, e, f0, bh0);
      }
    }
  }

  lemma FinerRanks(b: seq<int>, h: nat, f: seq<int>, bh: seq<nat>, e: seq<int>)
    requires |b| > 0 && Refined(b, h, f, bh) && Filled(f, h, bh, e, |b|)
    ensures Finer(Rank(b, h), Rank(b, 2 * h), e, |b|)
  {
    ClassesFromCells(b, h, f, bh, e);
    forall x, y | 0 <= x < |b| && 0 <= y < |b|
      ensures Rank(b, 2 * h)[x] <= Rank(b, 2 * h)[y] <==>
              Rank(b, h)[x] < Rank(b, h)[y] || (Rank(b, h)[x] == Rank(b, h)[y] && e[x] <= e[y])
    {
      Doubled(b, h, e, x, y);
    }
  }

  lemma PassDone(b: seq<int>, h: nat, f0: seq<int>, bh0: seq<nat>, f: seq<int>, bh: seq<nat>)
    requires |b| > 0 && Refined(b, h, f0, bh0)
    requires Passing(Rank(b, h), Rank(b, 2 * h), f0, bh0, f, bh, |b|, |b| - 1)
    ensures Refined(b, 2 * h, f, bh)
  {
  }

  /** Order by at least as many characters as the block has is order by all of them. */
  lemma LongRefined(b: seq<int>, h: nat, f: seq<int>, bh: seq<nat>)
    requires |b| > 0 && h >= |b| && Refined(b, h, f, bh)
    ensures IsSorted(b, f)
  {
    forall j, k | 0 <= j < k < |b| ensures Le(b, f[j], f[k]) {
      assert Rank(b, h)[f[j]] <= Rank(b, h)[f[k]];
      RankOrder(b, h, f[j], f[k]);
      CmpLong(b, f[j], f[k], h);
    }
  }

  /** When every bucket holds one rotation, the rotations are in order. */
  lemma SingleRefined(b: seq<int>, h: nat, f: seq<int>, bh: seq<nat>)
    requires |b| > 0 && h <= |b| && Refined(b, h, f, bh)
    requires forall z :: 0 <= z < |b| ==> Header(bh, z)
    ensures IsSorted(b, f)
  {
    forall j, k | 0 <= j < k < |b| ensures Le(b, f[j], f[k]) {
      EarlierLess(Rank(b, h), f, bh, f, |b|, j, k);
      RankOrder(b, h, f[j], f[k]);
      CmpSplit(b, f[j], f[k], h, |b| - h);
    }
  }

  /** The log(N) loop: double the number of characters compared until all rotations
      differ or all characters have been compared. */
  method DoubleBuckets(fmap: array<int>, eclass: array<int>, bhtab: array<nat>, n: nat, ghost b: seq<int>)
    requires fmap != eclass && 0 < n == |b| <= 900000 && n <= eclass.Length
    requires Refined(b, 1, fmap[..], bhtab[..])
    modifies fmap, eclass, bhtab
    ensures IsSorted(b, fmap[..])
  {
    hide Finer, Passing, Filled, IsSorted, Rank;
    var h := 1;
    while true
      invariant 1 <= h <= n
      invariant Refined(b, h, fmap[..], bhtab[..])
      decreases n - h
    {
      ghost var f0, bh0 := fmap[..], bhtab[..];
      ComputeClasses(fmap, eclass, bhtab, n, h);
      ghost var e := eclass[..];
      FinerRanks(b, h, f0, bh0, e);
      var nNotDone := RefinePass(fmap, eclass, bhtab, n, Rank(b, h), Rank(b, 2 * h), e);
      PassDone(b, h, f0, bh0, fmap[..], bhtab[..]);
      if nNotDone == 0 { SingleRefined(b, h, f0, bh0); }
      h := h * 2;
      if h > n { LongRefined(b, h, fmap[..], bhtab[..]); }
      if h > n || nNotDone == 0 { break; }
    }
  }

  /** The block, rebuilt from the sorted order and the counts of its characters. */
  method Reconstruct(fmap: array<int>, ftabCopy: array<int>, block: array<int>, n: nat, ghost b: seq<int>)
    requires fmap != block && ftabCopy != block && fmap != ftabCopy && ftabCopy.Length == 256
    requires 0 < n == |b| <= block.Length && Bytes(b) && IsSorted(b, fmap[..])
    requires forall c :: 0 <= c < 256 ==> ftabCopy[c] == Count(b, n, c)
    modifies ftabCopy, block
    ensures block[..n] == b
  {
    hide IsSorted, IsPermutation, Count;
    ghost var f := fmap[..];
    SortedPermutes(b, f);
    ghost var t := Through(b, f);
    SortedChars(b, f);
    forall c | 0 <= c < 256 ensures ftabCopy[c] == Count(t, n, c) && Count(t, 0, c) == 0 {
      CountThrough(b, f, c);
      CountStarts(t, c);
    }
    var j := 0;
    for i := 0 to n
      invariant 0 <= j < 256
      invariant forall c :: 0 <= c < 256 ==> ftabCopy[c] == Count(t, n, c) - Count(t, i, c)
      invariant i < n ==> j <= t[i]
      invariant forall k :: 0 <= k < i ==> block[f[k]] == b[f[k]]
    {
      CountMono(t, i, n, t[i]);
      while ftabCopy[j] == 0
        invariant 0 <= j <= t[i]
        decreases t[i] - j
      {
        j := j + 1;
      }
      if j < t[i] { CountNone(t, i, n, j); }
      CountNext(t, i);
      ftabCopy[j] := ftabCopy[j] - 1;
      block[fmap[i]] := j;
    }
    forall x | 0 <= x < n ensures block[x] == b[x] { var k := Surjective(f, n, x); }
  }

  lemma SortedPermutes(b: seq<int>, f: seq<int>)
    requires |b| > 0 && IsSorted(b, f)
    ensures IsPermutation(f, |b|) && |b| <= |f| && (forall k :: 0 <= k < |b| ==> 0 <= f[k] < |b|)
    ensures forall j, k :: 0 <= j < k < |b| ==> f[j] != f[k]
  {
  }

  lemma CountStarts(t: seq<int>, c: int)
    ensures Count(t, 0, c) == 0
  {
  }

  lemma CountNext(t: seq<int>, i: nat)
    requires i < |t|
    ensures forall c :: Count(t, i + 1, c) == Count(t, i, c) + if t[i] == c then 1 else 0
  {
  }

  lemma SortedChars(b: seq<int>, f: seq<int>)
    requires |b| > 0 && IsSorted(b, f) && Bytes(b)
    ensures forall j, k :: 0 <= j <= k < |b| ==> 0 <= Through(b, f)[j] <= Through(b, f)[k] < 256
  {
    forall j, k | 0 <= j < k < |b| ensures b[f[j]] <= b[f[k]] {
      assert Le(b, f[j], f[k]);
    }
  }

  /** The initial one-character radix sort. */
  method RadixSort(fmap: array<int>, block: array<int>, bhtab: array<nat>, n: nat, ghost b: seq<int>)
    returns (ftabCopy: array<int>)
    requires 0 < n <= fmap.Length && n <= block.Length && fmap != block
    requires 3 + n / 32 <= bhtab.Length && Words32(bhtab[..])
    requires b == block[..n] && Bytes(b)
    modifies fmap, bhtab
    ensures fresh(ftabCopy) && ftabCopy.Length == 256
    ensures forall c :: 0 <= c < 256 ==> ftabCopy[c] == Count(b, n, c)
    ensures Refined(b, 1, fmap[..], bhtab[..])
  {
    hide Refined;
    var ftab := new int[257];
    ftabCopy := new int[256];
    CountBytes(block, n, ftab, ftabCopy, b);
    PlaceBytes(block, n, fmap, ftab, b);
    PlacedBuckets(b, fmap[..]);
    MarkBuckets(bhtab, n, ftab, b, fmap[..]);
  }

  /** The fallback sort. The table eclass lies over the block in memory, so the block is
      taken to be lost once the first classes have been computed. */
  method FallbackSort(fmap: array<int>, eclass: array<int>, block: array<int>, bhtab: array<nat>, n: nat)
    requires 0 < n <= 900000 && n <= fmap.Length && n <= eclass.Length && n <= block.Length
    requires fmap != eclass && fmap != block && eclass != block
    requires 3 + n / 32 <= bhtab.Length && Words32(bhtab[..]) && Bytes(block[..n])
    modifies fmap, eclass, block, bhtab
    ensures block[..n] == old(block[..n])
    ensures IsSorted(block[..n], fmap[..])
  {
    hide Refined, IsSorted;
    ghost var b := block[..n];
    var ftabCopy := RadixSort(fmap, block, bhtab, n, b);
    ghost var f, bh := fmap[..], bhtab[..];
    modify block;
    assert fmap[..] == f && bhtab[..] == bh;
    DoubleBuckets(fmap, eclass, bhtab, n, b);
    Reconstruct(fmap, ftabCopy, block, n, b);
  }
}
