/** The two-byte radix sort that starts the main block sort, and the order in which the
    big buckets are then taken. */
module MainRadix {
  import opened Counting
  import opened MainCompare
  import opened MainScan
  import opened Rotations
  import opened Sequences

  ghost function Keys(b: seq<int>): (r: seq<int>)
    requires |b| > 0
    ensures |r| == |b|
  {
    seq(|b|, x requires 0 <= x < |b| => Key(b, x))
  }

  /** The first cell of every small bucket, and the length of the block. */
  ghost function Starting(b: seq<int>): (r: seq<int>)
    requires |b| > 0
    ensures |r| == 65537
  {
    seq(65537, c requires 0 <= c < 65537 => Below(Keys(b), |b|, c))
  }

  lemma StartingRight(b: seq<int>)
    requires |b| > 0 && Bytes(b)
    ensures Starts(b, Starting(b))
  {
    var k, st := Keys(b), Starting(b);
    forall x | 0 <= x < |b| ensures 0 <= k[x] < 65536 { KeyByte(b, x); }
    BelowAll(k, |b|, 0);
    BelowAll(k, |b|, 65536);
    forall c, d | 0 <= c <= d <= 65536 ensures st[c] <= st[d] { BelowMono(k, |b|, c, d); }
    forall c | 0 <= c < 65536 ensures st[c + 1] - st[c] == |KeySet(b, c)| {
      BelowNext(k, |b|, c);
      CountIsSize(k, |b|, c);
      assert Holding(k, |b|, c) == KeySet(b, c);
    }
  }

  /** Count the small buckets, from the last rotation to the first; j holds the two
      characters at i when i is reached. */
  method CountKeys(block: array<int>, quadrant: array<int>, ftab: array<int>, n: nat, ghost b: seq<int>)
    requires 0 < n <= block.Length && n <= quadrant.Length && b == block[..n] && Bytes(b) && ftab.Length == 65537
    requires block != quadrant && block != ftab && quadrant != ftab
    modifies quadrant, ftab
    ensures forall i :: 0 <= i < n ==> quadrant[i] == 0
    ensures forall c :: 0 <= c < 65536 ==> ftab[c] == Count(Keys(b), n, c)
    ensures ftab[65536] == 0
  {
    ghost var k := Keys(b);
    for i := 65537 downto 0
      invariant forall c :: i <= c < 65537 ==> ftab[c] == 0
    {
      ftab[i] := 0;
    }
    var j := block[0] * 256;
    assert block[0] == b[0];
    for i := n downto 0
      invariant j / 256 == b[if i == n then 0 else i] && 0 <= j < 65536
      invariant forall x :: i <= x < n ==> quadrant[x] == 0
      invariant forall c :: 0 <= c < 65536 ==> ftab[c] == Count(k, n, c) - Count(k, i, c)
      invariant ftab[65536] == 0
    {
      quadrant[i] := 0;
      assert block[i] == b[i];
      j := j / 256 + block[i] * 256;
      assert j == k[i];
      ftab[j] := ftab[j] + 1;
    }
  }

  /** Copy the first cells of the block beyond its end. */
  method Overshoot(block: array<int>, quadrant: array<int>, n: nat, ghost b: seq<int>)
    requires N_OVERSHOOT < n && n + N_OVERSHOOT <= block.Length && n + N_OVERSHOOT <= quadrant.Length
    requires block != quadrant && b == block[..n] && forall i :: 0 <= i < n ==> quadrant[i] == 0
    modifies block, quadrant
    ensures block[..n] == b && Overshot(b, block[..]) && Quadrants(b, quadrant[..])
    ensures forall i :: 0 <= i < n ==> quadrant[i] == 0
  {
    for i := 0 to N_OVERSHOOT
      invariant block[..n] == b
      invariant forall y :: n <= y < n + i ==> block[y] == b[y - n] && quadrant[y] == 0
      invariant forall x :: 0 <= x < n ==> quadrant[x] == 0
    {
      assert block[i] == b[i];
      block[n + i] := block[i];
      quadrant[n + i] := 0;
    }
    forall i | 0 <= i < n + N_OVERSHOOT ensures block[i] == Ch(b, i) {
      WrapOnce(i, n);
      if i < n { assert block[i] == block[..n][i]; }
    }
  }

  /** Turn the counts into the ends of the buckets, and place every rotation. */
  method PlaceKeys(ptr: array<int>, block: array<int>, ftab: array<int>, n: nat, ghost b: seq<int>)
    requires 0 < n <= block.Length && n <= ptr.Length && b == block[..n] && Bytes(b) && ftab.Length == 65537
    requires block != ptr && block != ftab && ptr != ftab
    requires forall c :: 0 <= c < 65536 ==> ftab[c] == Count(Keys(b), n, c)
    requires ftab[65536] == 0
    modifies ptr, ftab
    ensures ftab[..] == Starting(b)
    ensures Bucketed(b, Starting(b), ptr[..])
  {
    ghost var k := Keys(b);
    KeysWord(b);
    AddUp(ftab, n, k);
    PlaceAll(ptr, block, ftab, n, b, k);
    forall c | 0 <= c < 65536 ensures ftab[c] == Below(k, n, c) { BelowNext(k, n, c); }
    PlacedKeys(b, ptr[..]);
  }

  lemma KeysWord(b: seq<int>)
    requires Bytes(b)
    ensures forall x :: 0 <= x < |b| ==> 0 <= Keys(b)[x] < 65536
  {
    forall x | 0 <= x < |b| ensures 0 <= Keys(b)[x] < 65536 { KeyByte(b, x); }
  }

  method AddUp(ftab: array<int>, n: nat, ghost k: seq<int>)
    requires ftab.Length == 65537 && n <= |k| && forall x :: 0 <= x < n ==> 0 <= k[x] < 65536
    requires ftab[65536] == 0 && forall c :: 0 <= c < 65536 ==> ftab[c] == Count(k, n, c)
    modifies ftab
    ensures ftab[65536] == Below(k, n, 65536) && forall c :: 0 <= c < 65536 ==> ftab[c] == Below(k, n, c + 1)
  {
    BelowAll(k, n, 0);
    BelowNext(k, n, 0);
    for i := 1 to 65537
      invariant forall c :: 0 <= c < i && c < 65536 ==> ftab[c] == Below(k, n, c + 1)
      invariant forall c :: i <= c < 65536 ==> ftab[c] == Count(k, n, c)
      invariant ftab[65536] == if i < 65537 then 0 else Below(k, n, 65536)
    {
      BelowNext(k, n, i);
      ftab[i] := ftab[i] + ftab[i - 1];
    }
  }

  method PlaceAll(ptr: array<int>, block: array<int>, ftab: array<int>, n: nat, ghost b: seq<int>, ghost k: seq<int>)
    requires 0 < n <= block.Length && n <= ptr.Length && b == block[..n] && Bytes(b) && ftab.Length == 65537
    requires block != ptr && block != ftab && ptr != ftab && k == Keys(b)
    requires forall x :: 0 <= x < n ==> 0 <= k[x] < 65536
    requires forall c :: 0 <= c < 65536 ==> ftab[c] == Below(k, n, c + 1)
    modifies ptr, ftab
    ensures forall c :: 0 <= c < 65536 ==> ftab[c] == Below(k, n, c + 1) - Count(k, n, c)
    ensures ftab[65536] == old(ftab[65536])
    ensures forall x :: 0 <= x < n ==> ptr[StableCell(k, x)] == x
  {
    var s := block[0] * 256;
    assert block[0] == b[0];
    for i := n downto 0
      invariant s / 256 == b[if i == n then 0 else i] && 0 <= s < 65536
      invariant forall c :: 0 <= c < 65536 ==> ftab[c] == Below(k, n, c + 1) - (Count(k, n, c) - Count(k, i, c))
      invariant ftab[65536] == old(ftab[65536])
      invariant forall x :: i <= x < n ==> ptr[StableCell(k, x)] == x
    {
      assert block[i] == b[i];
      s := s / 256 + block[i] * 256;
      assert s == k[i];
      var j := ftab[s] - 1;
      ftab[s] := j;
      BelowNext(k, n, s);
      assert j == StableCell(k, i);
      forall x | i < x < n ensures StableCell(k, x) != j { CellsDistinct(k, i, x); }
      ptr[j] := i;
    }
  }

  lemma PlacedKeys(b: seq<int>, f: seq<int>)
    requires 0 < |b| <= |f| && Bytes(b)
    requires forall i :: 0 <= i < |b| ==> f[StableCell(Keys(b), i)] == i
    ensures Bucketed(b, Starting(b), f)
  {
    var n, k := |b|, Keys(b);
    var p := seq(n, i requires 0 <= i < n => StableCell(k, i));
    forall i, j | 0 <= i < j < n ensures p[i] != p[j] { CellsDistinct(k, i, j); }
    InversePermutation(p, f, n);
    forall a | 0 <= a < n ensures Starting(b)[Key(b, f[a])] <= a < Starting(b)[Key(b, f[a]) + 1] {
      assert p[f[a]] == a;
      KeyByte(b, f[a]);
    }
  }

  /** The first n big buckets in the order are in order of their sizes. */
  ghost predicate BySize(sizes: seq<int>, order: seq<int>, n: int) {
    && |sizes| == 256 && 0 <= n <= |order| && (forall k :: 0 <= k < n ==> 0 <= order[k] < 256)
    && forall j, k :: 0 <= j < k < n ==> sizes[order[j]] <= sizes[order[k]]
  }

  /** The sizes of the big buckets. */
  ghost function Sizes(ft: seq<int>): (s: seq<int>)
    requires |ft| == 65537
    ensures |s| == 256
  {
    seq(256, c requires 0 <= c < 256 => ft[(c + 1) * 256] - ft[c * 256])
  }

  /** The big buckets, the least full first, by Shell sort. */
  method RunningOrder(ftab: array<int>) returns (order: array<int>)
    requires ftab.Length == 65537
    ensures fresh(order) && order.Length == 256 && IsPermutation(order[..], 256)
    ensures BySize(Sizes(ftab[..]), order[..], 256)
  {
    hide Sizes;
    ghost var sizes := Sizes(ftab[..]);
    order := new int[256];
    for i := 0 to 256
      invariant forall c :: 0 <= c < i ==> order[c] == c
    {
      order[i] := i;
    }
    ghost var s := order[..];
    RearrangedSelf(s, 0, 256);
    var h := 1;
    h := 3 * h + 1;
    while h <= 256
      invariant h in {4, 13, 40, 121, 364}
    {
      h := 3 * h + 1;
    }
    while true
      invariant h in {4, 13, 40, 121, 364} && Rearranged(s, order[..], 0, 256)
      decreases h
    {
      h := h / 3;
      OneBySize(sizes, s, order[..]);
      for i := h to 256
        invariant Rearranged(s, order[..], 0, 256) && (h == 1 ==> BySize(sizes, order[..], i))
      {
        MoveDown(order, ftab, h, i, s, sizes);
      }
      if h == 1 { break; }
    }
    RearrangedPermutation(s, order[..], 0, 256, 256);
  }

  lemma OneBySize(sizes: seq<int>, s: seq<int>, order: seq<int>)
    requires |sizes| == 256 && |s| == 256 && IsPermutation(s, 256) && Rearranged(s, order, 0, 256)
    ensures BySize(sizes, order, 1)
  {
    RearrangedPermutation(s, order, 0, 256, 256);
  }

  /** The cells of f from j on have moved up by one, all to larger buckets than v's. */
  ghost predicate Raised(sizes: seq<int>, f: seq<int>, g: seq<int>, j: int, i: int, v: int) {
    && |sizes| == 256 && |f| == |g| == 256 && 0 <= j <= i < 256 && 0 <= v < 256
    && (forall k :: 0 <= k < j ==> g[k] == f[k])
    && forall k :: j < k <= i ==> g[k] == f[k - 1] && 0 <= g[k] < 256 && sizes[g[k]] > sizes[v]
  }

  lemma RaisedStart(sizes: seq<int>, f: seq<int>, i: int)
    requires |sizes| == 256 && |f| == 256 && 0 <= i < 256 && 0 <= f[i] < 256
    ensures Raised(sizes, f, f, i, i, f[i])
  {
  }

  lemma RaisedStep(sizes: seq<int>, f: seq<int>, g: seq<int>, j: int, i: int, v: int)
    requires Raised(sizes, f, g, j, i, v) && j > 0 && 0 <= g[j - 1] < 256 && sizes[g[j - 1]] > sizes[v]
    ensures Raised(sizes, f, g[j := g[j - 1]], j - 1, i, v)
  {
  }

  lemma RaisedBySize(sizes: seq<int>, f: seq<int>, g: seq<int>, j: int, i: int, v: int)
    requires Raised(sizes, f, g, j, i, v) && BySize(sizes, f, i) && (j > 0 ==> sizes[g[j - 1]] <= sizes[v])
    ensures BySize(sizes, g[j := v], i + 1)
  {
    var o := g[j := v];
    forall a, b | 0 <= a < b < i + 1 ensures sizes[o[a]] <= sizes[o[b]] {
      if a < j && b == j { assert sizes[f[a]] <= sizes[f[j - 1]]; }
    }
  }

  /** Moves bucket i of the order down past larger ones, h cells at a time. */
  method MoveDown(order: array<int>, ftab: array<int>, h: int, i: int, ghost s: seq<int>, ghost sizes: seq<int>)
    requires order.Length == 256 && ftab.Length == 65537 && order != ftab && 0 < h <= i < 256
    requires IsPermutation(s, 256) && |s| == 256 && Rearranged(s, order[..], 0, 256) && sizes == Sizes(ftab[..])
    modifies order
    ensures Rearranged(s, order[..], 0, 256)
    ensures h == 1 && old(BySize(sizes, order[..], i)) ==> BySize(sizes, order[..], i + 1)
  {
    hide Rearranged, Raised, BySize;
    RearrangedPermutation(s, order[..], 0, 256, 256);
    ghost var f0 := order[..];
    var vv := order[i];
    var j := i;
    assert f0[j := vv] == f0;
    RaisedStart(sizes, f0, i);
    while true
      invariant h <= j <= i && Rearranged(s, order[..][j := vv], 0, 256)
      invariant forall k :: 0 <= k < j ==> order[k] == f0[k]
      invariant h == 1 ==> Raised(sizes, f0, order[..], j, i, vv)
      decreases j
    {
      assert BigFreq(ftab, order[j - h]) == sizes[order[j - h]] && BigFreq(ftab, vv) == sizes[vv];
      if BigFreq(ftab, order[j - h]) <= BigFreq(ftab, vv) { break; }
      ghost var f := order[..];
      order[j] := order[j - h];
      RearrangedHole(s, f, order[..], 0, 256, j, j - h, vv);
      if h == 1 { RaisedStep(sizes, f0, f, j, i, vv); }
      assert order[..] == f[j := f[j - h]];
      j := j - h;
      if j <= h - 1 { break; }
    }
    if h == 1 && BySize(sizes, f0, i) { RaisedBySize(sizes, f0, order[..], j, i, vv); }
    order[j] := vv;
    assert order[..] == order[..][j := vv];
  }

  /** The number of rotations in the big bucket of character c. */
  function BigFreq(ftab: array<int>, c: int): int
    requires ftab.Length == 65537 && 0 <= c < 256
    reads ftab
  {
    ftab[(c + 1) * 256] - ftab[c * 256]
  }
}
