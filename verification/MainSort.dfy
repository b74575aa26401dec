/** The main block sort. */
module MainSort {
  import opened MainCompare
  import opened MainQSort
  import opened MainRadix
  import opened MainScan
  import opened RangeStack
  import opened Rotations
  import opened Sequences

  /** The bit of a bucket's entry that marks it as in order. */
  const SETMASK := 0x20_0000

  function Clear(v: int): int {
    if v >= SETMASK then v - SETMASK else v
  }

  function Mark(v: int): int {
    if v >= SETMASK then v else v + SETMASK
  }

  /** The rotations of small bucket c are in order. */
  ghost predicate InOrder(b: seq<int>, st: seq<int>, p: seq<int>, c: int)
    requires |b| > 0 && Bytes(b) && Starts(b, st) && Bucketed(b, st, p) && 0 <= c < 65536
  {
    forall j, k :: st[c] <= j < k < st[c + 1] ==> Rank(b, |b|)[p[j]] <= Rank(b, |b|)[p[k]]
  }

  /** The table holds the start of every bucket, marked only if the bucket is in order. */
  ghost predicate Progress(b: seq<int>, st: seq<int>, p: seq<int>, ft: seq<int>) {
    && N_OVERSHOOT < |b| <= 900000 && Bytes(b) && Starts(b, st) && Bucketed(b, st, p) && |ft| == 65537
    && (forall c :: 0 <= c <= 65536 ==> ft[c] == st[c] || ft[c] == st[c] + SETMASK)
    && (forall c :: 0 <= c < 65536 && ft[c] >= SETMASK ==> InOrder(b, st, p, c))
  }

  lemma Cleared(b: seq<int>, st: seq<int>, p: seq<int>, ft: seq<int>, c: int)
    requires Progress(b, st, p, ft) && 0 <= c <= 65536
    ensures Clear(ft[c]) == st[c] && 0 <= st[c] <= |b|
    ensures c < 65536 ==> st[c] <= st[c + 1]
  {
  }

  /** Rotations in one small bucket agree on two characters. */
  lemma SmallAgree(b: seq<int>, st: seq<int>, p: seq<int>, c: int)
    requires |b| > 1 && Bytes(b) && Starts(b, st) && Bucketed(b, st, p) && 0 <= c < 65536
    ensures Agree(b, p, st[c], st[c + 1] - 1, 2)
    ensures forall a :: st[c] <= a < st[c + 1] ==> 0 <= a < |b| && Key(b, p[a]) == c
  {
    forall a | st[c] <= a < st[c + 1] ensures 0 <= a < |b| && Key(b, p[a]) == c { CellKey(b, st, p, c, a); }
    forall j, k | st[c] <= j < st[c + 1] && st[c] <= k < st[c + 1] ensures Cmp(b, p[j], p[k], 2) == 0 {
      CmpTwo(b, p[j], p[k]);
    }
  }

  lemma CellKey(b: seq<int>, st: seq<int>, p: seq<int>, c: int, a: int)
    requires Bytes(b) && Starts(b, st) && Bucketed(b, st, p) && 0 <= c < 65536 && st[c] <= a < st[c + 1]
    ensures 0 <= a < |b| && Key(b, p[a]) == c
  {
    StartsMono(st, 0, c);
    StartsMono(st, c + 1, 65536);
    KeyByte(b, p[a]);
    var d := Key(b, p[a]);
    StartsMono(st, d + 1, c);
    StartsMono(st, c + 1, d);
  }

  /** Rearranging one small bucket leaves every rotation in its bucket. */
  lemma SmallRearranged(b: seq<int>, st: seq<int>, p: seq<int>, q: seq<int>, c: int)
    requires |b| > 1 && Bytes(b) && Starts(b, st) && Bucketed(b, st, p) && 0 <= c < 65536
    requires Rearranged(p, q, st[c], st[c + 1])
    ensures Bucketed(b, st, q)
  {
    StartsMono(st, c + 1, 65536);
    RearrangedPermutation(p, q, st[c], st[c + 1], |b|);
    forall a | 0 <= a < |b| ensures st[Key(b, q[a])] <= a < st[Key(b, q[a]) + 1] {
      if st[c] <= a < st[c + 1] {
        var i := RearrangedFrom(p, q, st[c], st[c + 1], a);
        CellKey(b, st, p, c, i);
      }
    }
  }

  /** Sorting a small bucket and marking it. */
  lemma SmallSorted(b: seq<int>, st: seq<int>, p: seq<int>, ft: seq<int>, q: seq<int>, c: int)
    requires Progress(b, st, p, ft) && 0 <= c < 65536 && Rearranged(p, q, st[c], st[c + 1])
    requires Ascending(b, q, st[c], st[c + 1])
    ensures Progress(b, st, q, ft[c := Mark(ft[c])])
  {
    hide Rank;
    SmallRearranged(b, st, p, q, c);
    forall d | 0 <= d < 65536 && ft[c := Mark(ft[c])][d] >= SETMASK ensures InOrder(b, st, q, d) {
      if d != c {
        StartsMono(st, d + 1, c);
        StartsMono(st, c + 1, d);
        assert forall a :: st[d] <= a < st[d + 1] ==> q[a] == p[a];
        assert InOrder(b, st, p, d);
      }
    }
  }

  /** Cells lo..hi-1 hold rotations in order. */
  ghost predicate Ascending(b: seq<int>, p: seq<int>, lo: int, hi: int)
    requires |b| > 0
  {
    forall j, k :: lo <= j < k < hi ==>
      0 <= j && k < |p| && 0 <= p[j] < |b| && 0 <= p[k] < |b| && Rank(b, |b|)[p[j]] <= Rank(b, |b|)[p[k]]
  }

  lemma SmallFacts(b: seq<int>, st: seq<int>, p: seq<int>, ft: seq<int>, c: int)
    requires Progress(b, st, p, ft) && 0 <= c < 65536
    ensures 0 < |b| <= 900000 && |b| <= |p| && |st| == 65537
    ensures Clear(ft[c]) == st[c] && Clear(ft[c + 1]) == st[c + 1] && 0 <= st[c] <= st[c + 1] <= |b|
    ensures Agree(b, p, st[c], st[c + 1] - 1, N_RADIX)
    ensures ft[c] >= SETMASK || st[c + 1] - st[c] <= 1 ==> Ascending(b, p, st[c], st[c + 1])
  {
    SmallAgree(b, st, p, c);
    if ft[c] >= SETMASK { assert InOrder(b, st, p, c); }
  }

  /** Put one small bucket in order, unless it is already. */
  method SortSmall(ptr: array<int>, block: array<int>, quadrant: array<int>, ftab: array<int>, n: nat, sb: int,
                   budget: int, ghost b: seq<int>, ghost st: seq<int>)
    returns (left: int)
    requires ptr != block && ptr != quadrant && ptr != ftab && block != ftab && quadrant != ftab
    requires n == |b| && Overshot(b, block[..]) && Quadrants(b, quadrant[..]) && ftab.Length == 65537
    requires Progress(b, st, ptr[..], ftab[..]) && 0 <= sb < 65536 && budget >= 0
    modifies ptr, ftab
    ensures left >= 0 ==> Progress(b, st, ptr[..], ftab[..])
    ensures left >= 0 ==> ftab[..] == old(ftab[..])[sb := Mark(old(ftab[sb]))]
    ensures Rearranged(old(ptr[..]), ptr[..], 0, n) && left <= budget
  {
    hide *;
    ghost var p, ft := ptr[..], ftab[..];
    left := budget;
    SmallFacts(b, st, p, ft, sb);
    RearrangedSelf(p, st[sb], st[sb + 1]);
    RearrangedSelf(p, 0, n);
    if ftab[sb] < SETMASK {
      var lo := Clear(ftab[sb]);
      var hi := Clear(ftab[sb + 1]) - 1;
      if hi > lo {
        left := SortCells(ptr, block, quadrant, n, lo, hi, budget, b);
        RearrangedWiden(p, ptr[..], lo, hi + 1, 0, n);
        if left < 0 { return; }
      }
    }
    SmallSorted(b, st, p, ft, ptr[..], sb);
    ftab[sb] := Mark(ftab[sb]);
  }

  method SortCells(ptr: array<int>, block: array<int>, quadrant: array<int>, n: nat, lo: int, hi: int,
                   budget: int, ghost b: seq<int>)
    returns (left: int)
    requires ptr != block && ptr != quadrant && 0 < n == |b| && Overshot(b, block[..]) && Quadrants(b, quadrant[..])
    requires lo <= hi < lo + 900000 && Agree(b, ptr[..], lo, hi, N_RADIX) && budget >= 0
    modifies ptr
    ensures Rearranged(old(ptr[..]), ptr[..], lo, hi + 1) && left <= budget
    ensures left >= 0 ==> Ascending(b, ptr[..], lo, hi + 1)
  {
    hide Rearranged, Overshot, Quadrants, Agree, Rank;
    left := QSort3(ptr, block, quadrant, n, lo, hi, N_RADIX, budget, b);
    if left >= 0 { SortedAscending(b, Rank(b, n), ptr[..], lo, hi); }
  }

  lemma SortedAscending(b: seq<int>, r: seq<int>, p: seq<int>, lo: int, hi: int)
    requires |b| > 0 && r == Rank(b, |b|) && Keyed(r, p, lo, hi) && SortedBy(r, p, lo, hi)
    ensures Ascending(b, p, lo, hi + 1)
  {
  }

  /** The small buckets marked: those of the big buckets done, and of ss those below j. */
  ghost predicate Marks(ft: seq<int>, bigDone: seq<bool>, ss: int, j: int) {
    && |ft| == 65537 && |bigDone| == 256
    && forall t, u :: 0 <= t < 256 && 0 <= u < 256 ==>
      (ft[Small(t, u)] >= SETMASK <==> bigDone[t] || bigDone[u] || (t == ss && u != ss && u < j))
  }

  lemma MarkNext(ft: seq<int>, bigDone: seq<bool>, ss: int, j: int, sb: int)
    requires Marks(ft, bigDone, ss, j) && 0 <= ss < 256 && 0 <= j < 256 && j != ss && sb == Small(ss, j)
    requires forall c :: 0 <= c < 65536 ==> 0 <= ft[c]
    ensures Marks(ft[sb := Mark(ft[sb])], bigDone, ss, j + 1)
  {
  }

  lemma MarkSkip(ft: seq<int>, bigDone: seq<bool>, ss: int)
    requires Marks(ft, bigDone, ss, ss) && 0 <= ss < 256
    ensures Marks(ft, bigDone, ss, ss + 1)
  {
  }

  lemma TableSmall(b: seq<int>, st: seq<int>, p: seq<int>, ft: seq<int>)
    requires Progress(b, st, p, ft)
    ensures forall c :: 0 <= c < 65536 ==> 0 <= ft[c]
  {
    forall c | 0 <= c < 65536 ensures 0 <= ft[c] { Cleared(b, st, p, ft, c); }
  }

  /** Step 1: put the small buckets [ss, j], j other than ss, in order. */
  method SortBig(ptr: array<int>, block: array<int>, quadrant: array<int>, ftab: array<int>, n: nat, ss: int,
                 budget: int, ghost b: seq<int>, ghost st: seq<int>, ghost bigDone: seq<bool>)
    returns (left: int)
    requires ptr != block && ptr != quadrant && ptr != ftab && block != ftab && quadrant != ftab
    requires n == |b| && Overshot(b, block[..]) && Quadrants(b, quadrant[..]) && ftab.Length == 65537
    requires Progress(b, st, ptr[..], ftab[..]) && 0 <= ss < 256 && budget >= 0
    requires Marks(ftab[..], bigDone, ss, 0) && n <= ptr.Length
    modifies ptr, ftab
    ensures left >= 0 ==> Progress(b, st, ptr[..], ftab[..]) && Marks(ftab[..], bigDone, ss, 256)
    ensures Rearranged(old(ptr[..]), ptr[..], 0, n) && left <= budget
  {
    hide Progress, Marks, Overshot, Quadrants, Rearranged, Mark;
    ghost var p := ptr[..];
    RearrangedSelf(p, 0, n);
    left := budget;
    for j := 0 to 256
      invariant 0 <= left <= budget && Rearranged(p, ptr[..], 0, n)
      invariant Progress(b, st, ptr[..], ftab[..]) && Marks(ftab[..], bigDone, ss, j)
    {
      if j != ss {
        ghost var q, ft := ptr[..], ftab[..];
        TableSmall(b, st, q, ft);
        MarkNext(ft, bigDone, ss, j, Small(ss, j));
        left := SortSmall(ptr, block, quadrant, ftab, n, Small(ss, j), left, b, st);
        RearrangedTrans(p, q, ptr[..], 0, n);
        if left < 0 { return; }
      } else {
        MarkSkip(ftab[..], bigDone, ss);
      }
    }
  }

  /** What step 1 leaves is what the scan needs. */
  lemma ScanReady(b: seq<int>, st: seq<int>, p: seq<int>, ft: seq<int>, bigDone: seq<bool>, ss: int)
    requires Progress(b, st, p, ft) && Marks(ft, bigDone, ss, 256) && 0 <= ss < 256 && !bigDone[ss]
    ensures Setting(b, st, p, bigDone, ss).Valid()
  {
    hide Rank;
    var x := Setting(b, st, p, bigDone, ss);
    StartsMono(st, 0, Small(ss, 0));
    StartsMono(st, Small(ss, 0), Small(ss, ss));
    StartsMono(st, Small(ss, ss) + 1, Small(ss + 1, 0));
    StartsMono(st, Small(ss + 1, 0), 65536);
    forall j, k | x.first() <= j < k < x.lo(ss) ensures Rank(b, |b|)[p[j]] <= Rank(b, |b|)[p[k]] {
      OuterAscending(b, st, p, ft, bigDone, ss, j, k);
    }
    forall j, k | x.hi(ss) < j < k < x.end() ensures Rank(b, |b|)[p[j]] <= Rank(b, |b|)[p[k]] {
      OuterAscending(b, st, p, ft, bigDone, ss, j, k);
    }
  }

  lemma OuterAscending(b: seq<int>, st: seq<int>, p: seq<int>, ft: seq<int>, bigDone: seq<bool>, ss: int, j: int,
                       k: int)
    requires Progress(b, st, p, ft) && Marks(ft, bigDone, ss, 256) && 0 <= ss < 256 && 0 <= j < k < |b|
    requires (st[Small(ss, 0)] <= j && k < st[Small(ss, ss)]) ||
      (st[Small(ss, ss) + 1] <= j && k < st[Small(ss + 1, 0)])
    ensures Rank(b, |b|)[p[j]] <= Rank(b, |b|)[p[k]]
  {
    KeyByte(b, p[j]);
    KeyByte(b, p[k]);
    var c, d := Key(b, p[j]), Key(b, p[k]);
    StartsMono(st, d + 1, c);
    if c < d {
      KeyRank(b, p[j], p[k]);
    } else {
      OuterBucket(st, ss, c, j);
      assert InOrder(b, st, p, c);
    }
  }

  /** A cell of the big bucket of ss outside [ss, ss] lies in a bucket [ss, u], u other than ss. */
  lemma OuterBucket(st: seq<int>, ss: int, c: int, j: int)
    requires |st| == 65537 && forall c, d :: 0 <= c <= d <= 65536 ==> st[c] <= st[d]
    requires 0 <= ss < 256 && 0 <= c < 65536 && st[c] <= j < st[c + 1]
    requires st[Small(ss, 0)] <= j < st[Small(ss, ss)] || st[Small(ss, ss) + 1] <= j < st[Small(ss + 1, 0)]
    ensures 0 <= c - ss * 256 < 256 && c == Small(ss, c - ss * 256) && c != Small(ss, ss)
  {
    StartsMono(st, c + 1, Small(ss, 0));
    StartsMono(st, Small(ss + 1, 0), c);
  }

  /** ft' is ft with every bucket [t, ss], t below m, marked. */
  ghost predicate ColumnMarked(ft: seq<int>, ft': seq<int>, ss: int, m: int) {
    && |ft| == |ft'| == 65537 && ft'[65536] == ft[65536]
    && forall t, u :: 0 <= t < 256 && 0 <= u < 256 ==>
      ft'[Small(t, u)] == if u == ss && t < m then Mark(ft[Small(t, u)]) else ft[Small(t, u)]
  }

  /** After the scan the column of ss may be marked, and the whole big bucket is in order. */
  lemma ScanProgress(x: Setting, z: Scan, ft: seq<int>, ft': seq<int>)
    requires Progress(x.b, x.st, x.p0, ft) && x.Valid() && Marks(ft, x.bigDone, x.ss, 256)
    requires Ended(x, z) && ColumnMarked(ft, ft', x.ss, 256)
    ensures Progress(x.b, x.st, z.p, ft')
    ensures Marks(ft', x.bigDone[x.ss := true], 0, 0)
  {
    hide InOrder;
    ScanDone(x, z);
    forall c | 0 <= c <= 65536 ensures ft'[c] == x.st[c] || ft'[c] == x.st[c] + SETMASK {
      if c < 65536 { assert c == Small(c / 256, c % 256); }
    }
    forall c | 0 <= c < 65536 && ft'[c] >= SETMASK ensures InOrder(x.b, x.st, z.p, c) {
      assert c == Small(c / 256, c % 256);
      ColumnOrder(x, z, ft, ft', c / 256, c % 256);
    }
    TableSmall(x.b, x.st, x.p0, ft);
    ColumnMarks(x, ft, ft');
  }

  lemma ColumnMarks(x: Setting, ft: seq<int>, ft': seq<int>)
    requires x.Valid() && Marks(ft, x.bigDone, x.ss, 256) && ColumnMarked(ft, ft', x.ss, 256)
    requires forall c :: 0 <= c < 65536 ==> 0 <= ft[c]
    ensures Marks(ft', x.bigDone[x.ss := true], 0, 0)
  {
    var d := x.bigDone[x.ss := true];
    forall t, u | 0 <= t < 256 && 0 <= u < 256 ensures ft'[Small(t, u)] >= SETMASK <==> d[t] || d[u] {
      assert 0 <= ft[Small(t, u)];
    }
  }

  lemma OutsideColumn(x: Setting, t: int, u: int, a: int)
    requires x.Valid() && 0 <= t < 256 && 0 <= u < 256 && (u != x.ss || x.bigDone[t])
    requires x.st[Small(t, u)] <= a < x.st[Small(t, u) + 1]
    ensures 0 <= a < |x.b| <= |x.p0| && Outside(x, a)
  {
    var c := Small(t, u);
    CellKey(x.b, x.st, x.p0, c, a);
    forall v | 0 <= v < 256 && !x.bigDone[v] ensures !(x.lo(v) <= a <= x.hi(v)) {
      ColumnApart(x, c, v, a);
    }
  }

  lemma ColumnApart(x: Setting, c: int, v: int, a: int)
    requires x.Valid() && 0 <= c < 65536 && 0 <= v < 256 && c != Small(v, x.ss)
    requires x.st[c] <= a < x.st[c + 1]
    ensures !(x.lo(v) <= a <= x.hi(v))
  {
    if c < Small(v, x.ss) {
      StartsMono(x.st, c + 1, Small(v, x.ss));
    } else {
      StartsMono(x.st, Small(v, x.ss) + 1, c);
    }
  }

  /** A bucket outside the column being completed is as it was. */
  lemma ColumnKept(x: Setting, z: Scan, t: int, u: int, a: int)
    requires x.Valid() && Ended(x, z) && 0 <= t < 256 && 0 <= u < 256 && (u != x.ss || x.bigDone[t])
    requires x.st[Small(t, u)] <= a < x.st[Small(t, u) + 1]
    ensures 0 <= a < |x.b| <= |z.p| && z.p[a] == x.p0[a]
  {
    hide Setting.Valid, Ended, Outside, Bucketed;
    OutsideColumn(x, t, u, a);
    ScanDone(x, z);
  }

  lemma ColumnOrder(x: Setting, z: Scan, ft: seq<int>, ft': seq<int>, t: int, u: int)
    requires Progress(x.b, x.st, x.p0, ft) && x.Valid() && Marks(ft, x.bigDone, x.ss, 256)
    requires Ended(x, z) && ColumnMarked(ft, ft', x.ss, 256) && Bucketed(x.b, x.st, z.p)
    requires 0 <= t < 256 && 0 <= u < 256 && ft'[Small(t, u)] >= SETMASK
    ensures InOrder(x.b, x.st, z.p, Small(t, u))
  {
    var c := Small(t, u);
    if u != x.ss || x.bigDone[t] {
      assert ft[c] >= SETMASK;
      assert InOrder(x.b, x.st, x.p0, c);
      hide Ended, Marks, ColumnMarked, Progress;
      forall a | x.st[c] <= a < x.st[c + 1] ensures 0 <= a < |x.b| <= |z.p| && z.p[a] == x.p0[a] {
        ColumnKept(x, z, t, u, a);
      }
    } else {
      ScanDone(x, z);
      assert x.lo(t) == x.st[c] && x.hi(t) == x.st[c + 1] - 1;
    }
  }

  /** Step 2: complete the buckets [t, ss] by scanning the big bucket of ss from both ends. */
  method ScanBig(ptr: array<int>, block: array<int>, ftab: array<int>, bigDone: array<bool>, n: nat, ss: int,
                 ghost b: seq<int>, ghost st: seq<int>)
    requires ptr != block && ptr != ftab && block != ftab && bigDone.Length == 256 && ftab.Length == 65537
    requires n == |b| <= block.Length && b == block[..n] && 0 <= ss < 256 && !bigDone[ss]
    requires Progress(b, st, ptr[..], ftab[..]) && Marks(ftab[..], bigDone[..], ss, 256)
    modifies ptr, ftab
    ensures Progress(b, st, ptr[..], ftab[..]) && Marks(ftab[..], bigDone[..][ss := true], 0, 0)
  {
    ghost var x := Setting(b, st, ptr[..], bigDone[..], ss);
    ghost var ft := ftab[..];
    ScanReady(b, st, ptr[..], ft, bigDone[..], ss);
    var copyStart, copyEnd := new int[256], new int[256];
    CopyBounds(ftab, copyStart, copyEnd, ss, x);
    var first, end := Clear(ftab[ss * 256]), Clear(ftab[(ss + 1) * 256]);
    Cleared(b, st, x.p0, ft, ss * 256);
    Cleared(b, st, x.p0, ft, (ss + 1) * 256);
    ghost var z := ScanForward(ptr, block, bigDone, copyStart, copyEnd[..], n, ss, first, x);
    z := ScanBackward(ptr, block, bigDone, copyEnd, copyStart[..], n, ss, end, x, z);
    ScansMeet(x, z);
    assert copyStart[ss] - 1 == copyEnd[ss] || (copyStart[ss] == 0 && copyEnd[ss] == n - 1);
    MarkColumn(ftab, ss);
    ScanProgress(x, z, ft, ftab[..]);
  }

  method CopyBounds(ftab: array<int>, copyStart: array<int>, copyEnd: array<int>, ss: int, ghost x: Setting)
    requires ftab.Length == 65537 && copyStart.Length == 256 && copyEnd.Length == 256
    requires ftab != copyStart && ftab != copyEnd && copyStart != copyEnd
    requires x.Valid() && x.ss == ss && Progress(x.b, x.st, x.p0, ftab[..])
    modifies copyStart, copyEnd
    ensures copyStart[..] == StartScan(x).cs && copyEnd[..] == StartScan(x).ce
  {
    for j := 0 to 256
      invariant forall t :: 0 <= t < j ==> copyStart[t] == x.lo(t) && copyEnd[t] == x.hi(t)
    {
      Cleared(x.b, x.st, x.p0, ftab[..], Small(j, ss));
      Cleared(x.b, x.st, x.p0, ftab[..], Small(j, ss) + 1);
      copyStart[j] := Clear(ftab[j * 256 + ss]);
      copyEnd[j] := Clear(ftab[j * 256 + ss + 1]) - 1;
    }
  }

  /** The arrays hold the scan state z. */
  ghost predicate Holds(z: Scan, p: seq<int>, cs: seq<int>, ce: seq<int>) {
    z.p == p && z.cs == cs && z.ce == ce
  }

  /** Read cell j and give its predecessor the next cell of its bucket, from the left. */
  method ForwardStep(ptr: array<int>, block: array<int>, bigDone: array<bool>, copyStart: array<int>,
                     ghost ce: seq<int>,
                     n: nat, j: int, ghost x: Setting, ghost z: Scan)
    returns (ghost z': Scan)
    requires ptr != block && ptr != copyStart && block != copyStart
    requires x.Valid() && x.bigDone == bigDone[..] && n == |x.b| <= block.Length && x.b == block[..n]
    requires Scanning(x, z) && Holds(z, ptr[..], copyStart[..], ce) && z.jl == j < z.cs[x.ss]
    modifies ptr, copyStart
    ensures Scanning(x, z') && Holds(z', ptr[..], copyStart[..], ce) && z'.jl == j + 1 && z'.jr == z.jr
  {
    hide Scanning, Shape, Order, Setting.Valid;
    ScanShape(x, z);
    LeftStep(x, z);
    z' := StepLeft(x, z);
    var k := ptr[j] - 1;
    if k < 0 { k := k + n; }
    var c1 := block[k];
    assert c1 == x.b[k];
    if !bigDone[c1] {
      ptr[copyStart[c1]] := k;
      copyStart[c1] := copyStart[c1] + 1;
    }
  }

  method BackwardStep(ptr: array<int>, block: array<int>, bigDone: array<bool>, copyEnd: array<int>, ghost cs: seq<int>,
                      n: nat, j: int, ghost x: Setting, ghost z: Scan)
    returns (ghost z': Scan)
    requires ptr != block && ptr != copyEnd && block != copyEnd
    requires x.Valid() && x.bigDone == bigDone[..] && n == |x.b| <= block.Length && x.b == block[..n]
    requires Scanning(x, z) && Holds(z, ptr[..], cs, copyEnd[..]) && z.jr == j > z.ce[x.ss]
    modifies ptr, copyEnd
    ensures Scanning(x, z') && Holds(z', ptr[..], cs, copyEnd[..]) && z'.jr == j - 1 && z'.jl == z.jl
  {
    hide Scanning, Shape, Order, Setting.Valid;
    ScanShape(x, z);
    RightStep(x, z);
    z' := StepRight(x, z);
    var k := ptr[j] - 1;
    if k < 0 { k := k + n; }
    var c1 := block[k];
    assert c1 == x.b[k];
    if !bigDone[c1] {
      ptr[copyEnd[c1]] := k;
      copyEnd[c1] := copyEnd[c1] - 1;
    }
  }

  method ScanForward(ptr: array<int>, block: array<int>, bigDone: array<bool>, copyStart: array<int>,
                     ghost ce: seq<int>,
                     n: nat, ss: int, first: int, ghost x: Setting)
    returns (ghost z: Scan)
    requires ptr != block && ptr != copyStart && block != copyStart
    requires x.Valid() && x.ss == ss && x.bigDone == bigDone[..] && n == |x.b| <= block.Length && x.b == block[..n]
    requires ptr[..] == x.p0 && first == x.first()
    requires copyStart[..] == StartScan(x).cs && ce == StartScan(x).ce
    modifies ptr, copyStart
    ensures Scanning(x, z) && Shape(x, z) && z.jl == z.cs[ss] && z.jr == x.end() - 1
    ensures Holds(z, ptr[..], copyStart[..], ce)
  {
    z := StartScan(x);
    StartScanning(x);
    var j := first;
    ScanShape(x, z);
    while j < copyStart[ss]
      invariant Shape(x, z) && Scanning(x, z) && Holds(z, ptr[..], copyStart[..], ce)
      invariant z.jl == j && z.jr == x.end() - 1 && z.cs[ss] <= n
      decreases n - j
    {
      hide Scanning, Shape, Setting.Valid, StartScan;
      z := ForwardStep(ptr, block, bigDone, copyStart, ce, n, j, x, z);
      ScanShape(x, z);
      j := j + 1;
    }
  }

  method ScanBackward(ptr: array<int>, block: array<int>, bigDone: array<bool>, copyEnd: array<int>, ghost cs: seq<int>,
                      n: nat, ss: int, end: int, ghost x: Setting, ghost z0: Scan)
    returns (ghost z: Scan)
    requires ptr != block && ptr != copyEnd && block != copyEnd
    requires x.Valid() && x.ss == ss && x.bigDone == bigDone[..] && n == |x.b| <= block.Length && x.b == block[..n]
    requires Scanning(x, z0) && Shape(x, z0) && z0.jl == z0.cs[ss] && z0.jr == x.end() - 1 && end == x.end()
    requires Holds(z0, ptr[..], cs, copyEnd[..])
    modifies ptr, copyEnd
    ensures Ended(x, z) && Shape(x, z) && Holds(z, ptr[..], cs, copyEnd[..])
  {
    z := z0;
    var j := end - 1;
    ScanShape(x, z);
    while j > copyEnd[ss]
      invariant Shape(x, z) && Scanning(x, z) && Holds(z, ptr[..], cs, copyEnd[..])
      invariant z.jr == j && z.jl == z.cs[ss] && -1 <= z.ce[ss]
      decreases j + 1
    {
      hide Scanning, Shape, Setting.Valid;
      z := BackwardStep(ptr, block, bigDone, copyEnd, cs, n, j, x, z);
      ScanShape(x, z);
      j := j - 1;
    }
  }

  method MarkColumn(ftab: array<int>, ss: int)
    requires ftab.Length == 65537 && 0 <= ss < 256
    modifies ftab
    ensures ColumnMarked(old(ftab[..]), ftab[..], ss, 256)
  {
    ghost var ft := ftab[..];
    for j := 0 to 256
      invariant ColumnMarked(ft, ftab[..], ss, j)
    {
      ghost var f := ftab[..];
      ftab[j * 256 + ss] := Mark(ftab[j * 256 + ss]);
      ColumnNext(ft, f, ftab[..], ss, j);
    }
  }

  lemma ColumnNext(ft: seq<int>, f: seq<int>, g: seq<int>, ss: int, j: int)
    requires 0 <= ss < 256 && 0 <= j < 256 && ColumnMarked(ft, f, ss, j)
    requires g == f[Small(j, ss) := Mark(f[Small(j, ss)])]
    ensures ColumnMarked(ft, g, ss, j + 1)
  {
  }

  /** A completed big bucket is in order as a whole. */
  lemma BigAscending(b: seq<int>, st: seq<int>, p: seq<int>, ft: seq<int>, bigDone: seq<bool>, ss: int)
    requires Progress(b, st, p, ft) && Marks(ft, bigDone, 0, 0) && 0 <= ss < 256 && bigDone[ss]
    ensures Ascending(b, p, st[Small(ss, 0)], st[Small(ss + 1, 0)])
    ensures 0 <= st[Small(ss, 0)] <= st[Small(ss + 1, 0)] <= |b|
  {
    StartsMono(st, 0, Small(ss, 0));
    StartsMono(st, Small(ss, 0), Small(ss + 1, 0));
    StartsMono(st, Small(ss + 1, 0), 65536);
    forall j, k | st[Small(ss, 0)] <= j < k < st[Small(ss + 1, 0)] ensures Rank(b, |b|)[p[j]] <= Rank(b, |b|)[p[k]] {
      DoneAscending(b, st, p, ft, bigDone, j, k, ss);
    }
  }

  lemma DoneAscending(b: seq<int>, st: seq<int>, p: seq<int>, ft: seq<int>, bigDone: seq<bool>, j: int, k: int, ss: int)
    requires Progress(b, st, p, ft) && Marks(ft, bigDone, 0, 0) && 0 <= j < k < |b|
    requires 0 <= ss < 256 && bigDone[ss] && st[Small(ss, 0)] <= j < st[Small(ss + 1, 0)]
    ensures Rank(b, |b|)[p[j]] <= Rank(b, |b|)[p[k]]
  {
    KeyByte(b, p[j]);
    KeyByte(b, p[k]);
    var c, d := Key(b, p[j]), Key(b, p[k]);
    StartsMono(st, d + 1, c);
    if c < d {
      KeyRank(b, p[j], p[k]);
    } else {
      StartsMono(st, c + 1, Small(ss, 0));
      StartsMono(st, Small(ss + 1, 0), c);
      assert c == Small(ss, c - ss * 256);
      assert InOrder(b, st, p, c);
    }
  }

  /** All rotations that begin with ss are in the big bucket of ss. */
  lemma InBig(b: seq<int>, st: seq<int>, p: seq<int>, y: int, ss: int) returns (a: int)
    requires Bytes(b) && Starts(b, st) && Bucketed(b, st, p) && 0 <= y < |b| && b[y] == ss
    ensures 0 <= ss < 256 && st[Small(ss, 0)] <= a < st[Small(ss + 1, 0)] && 0 <= a < |b| && p[a] == y
  {
    a := Counting.Surjective(p, |b|, y);
    KeyByte(b, y);
    var c := Key(b, y);
    StartsMono(st, Small(ss, 0), c);
    StartsMono(st, c + 1, Small(ss + 1, 0));
  }

  /** j shifted right, k being the power of two of the number of shifts */
  function Shifted(j: int, k: nat): int
    requires k > 0
  {
    j / k
  }

  /** None of cells l..h-1 holds x. */
  ghost predicate Absent(p: seq<int>, l: int, h: int, x: int) {
    forall a :: l <= a < h && 0 <= a < |p| ==> p[a] != x
  }

  /** Quadrants written for cells c..h-1 of the big bucket in cells l..h-1; k is the power of two divided by. */
  ghost predicate Updating(b: seq<int>, p: seq<int>, q0: seq<int>, q: seq<int>, l: int, h: int, c: int, k: nat) {
    && k in {1, 2, 4, 8, 16} && |q| == |q0| && 0 <= l <= c <= h <= |b| <= |p| && |b| + N_OVERSHOOT <= |q|
    && N_OVERSHOOT < |b| && IsPermutation(p, |b|)
    && (forall i :: 0 <= i < N_OVERSHOOT ==> q[|b| + i] == q[i])
    && (forall a :: c <= a < h ==> q[p[a]] == Shifted(a - l, k))
    && (forall x :: 0 <= x < |b| && Absent(p, c, h, x) ==> q[x] == q0[x])
  }

  lemma UpdatingCell(b: seq<int>, p: seq<int>, q0: seq<int>, q: seq<int>, l: int, h: int, c: int, k: nat)
    requires Updating(b, p, q0, q, l, h, c + 1, k) && l <= c
    ensures 0 <= c < |b| <= |p| && 0 <= p[c] < |b| && |b| + N_OVERSHOOT <= |q|
  {
  }

  lemma UpdatingNext(b: seq<int>, p: seq<int>, q0: seq<int>, q: seq<int>, q': seq<int>, l: int, h: int, c: int, k: nat)
    requires Updating(b, p, q0, q, l, h, c + 1, k) && l <= c
    requires |q'| == |q| && q'[p[c]] == Shifted(c - l, k)
    requires p[c] < N_OVERSHOOT ==> q'[|b| + p[c]] == Shifted(c - l, k)
    requires forall x :: 0 <= x < |q| && x != p[c] && !(p[c] < N_OVERSHOOT && x == |b| + p[c]) ==> q'[x] == q[x]
    ensures Updating(b, p, q0, q', l, h, c, k)
  {
    forall x | 0 <= x < |b| && Absent(p, c, h, x) ensures q'[x] == q0[x] {
      assert Absent(p, c + 1, h, x);
    }
    forall a | c <= a < h ensures q'[p[a]] == Shifted(a - l, k) {
      if a > c { assert p[a] != p[c]; }
    }
  }

  lemma UpdatingStart(b: seq<int>, p: seq<int>, q: seq<int>, l: int, h: int, k: nat)
    requires Quadrants(b, q) && IsPermutation(p, |b|) && 0 <= l <= h <= |b| && k in {1, 2, 4, 8, 16}
    ensures Updating(b, p, q, q, l, h, h, k)
  {
  }

  /** The bounds of a completed big bucket, as step 3 reads them from the table. */
  lemma BigFacts(b: seq<int>, st: seq<int>, p: seq<int>, ft: seq<int>, bigDone: seq<bool>, ss: int)
    requires Progress(b, st, p, ft) && Marks(ft, bigDone, 0, 0) && 0 <= ss < 256 && bigDone[ss]
    ensures |ft| == 65537 && |st| == 65537 && 0 < |b| <= 900000 && IsPermutation(p, |b|)
    ensures Clear(ft[Small(ss, 0)]) == st[Small(ss, 0)] && Clear(ft[Small(ss + 1, 0)]) == st[Small(ss + 1, 0)]
    ensures Ascending(b, p, st[Small(ss, 0)], st[Small(ss + 1, 0)])
    ensures 0 <= st[Small(ss, 0)] <= st[Small(ss + 1, 0)] <= |b|
  {
    BigAscending(b, st, p, ft, bigDone, ss);
    Cleared(b, st, p, ft, Small(ss, 0));
    Cleared(b, st, p, ft, Small(ss + 1, 0));
  }

  /** Step 3: cache the order of the completed big bucket in the quadrants. */
  method UpdateQuadrants(ptr: array<int>, quadrant: array<int>, ftab: array<int>, n: nat, ss: int,
                         ghost b: seq<int>, ghost st: seq<int>, ghost bigDone: seq<bool>)
    requires ptr != quadrant && quadrant != ftab && n == |b| && ftab.Length == 65537 && 0 <= ss < 256
    requires Progress(b, st, ptr[..], ftab[..]) && Quadrants(b, quadrant[..])
    requires Marks(ftab[..], bigDone, 0, 0) && bigDone[ss]
    modifies quadrant
    ensures Quadrants(b, quadrant[..])
  {
    hide Progress, Marks, Quadrants, Ascending, Absent;
    ghost var p, q0, ft := ptr[..], quadrant[..], ftab[..];
    BigFacts(b, st, p, ft, bigDone, ss);
    var bbStart := Clear(ftab[Small(ss, 0)]);
    var bbSize := Clear(ftab[Small(ss + 1, 0)]) - bbStart;
    var k := Shift(bbSize);
    UpdatingStart(b, p, q0, bbStart, bbStart + bbSize, k);
    for j := bbSize downto 0
      invariant Updating(b, p, q0, quadrant[..], bbStart, bbStart + bbSize, bbStart + j, k)
    {
      UpdateOne(ptr, quadrant, n, bbStart, bbSize, j, k, b, q0);
    }
    QuadrantsUpdated(b, st, p, ft, q0, quadrant[..], ss, k);
  }

  method UpdateOne(ptr: array<int>, quadrant: array<int>, n: nat, bbStart: int, ghost bbSize: int, j: int, k: nat,
                   ghost b: seq<int>, ghost q0: seq<int>)
    requires ptr != quadrant && n == |b| && 0 <= j < bbSize && k > 0
    requires Updating(b, ptr[..], q0, quadrant[..], bbStart, bbStart + bbSize, bbStart + j + 1, k)
    modifies quadrant
    ensures Updating(b, ptr[..], q0, quadrant[..], bbStart, bbStart + bbSize, bbStart + j, k)
  {
    hide Updating, Shifted;
    ghost var p, q := ptr[..], quadrant[..];
    UpdatingCell(b, p, q0, q, bbStart, bbStart + bbSize, bbStart + j, k);
    var a2update := ptr[bbStart + j];
    quadrant[a2update] := Shifted(j, k);
    if a2update < N_OVERSHOOT { quadrant[a2update + n] := Shifted(j, k); }
    UpdatingNext(b, p, q0, q, quadrant[..], bbStart, bbStart + bbSize, bbStart + j, k);
  }

  /** 2 to the number of shifts that brings the cells of a big bucket into 16 bits. */
  method Shift(bbSize: int) returns (k: nat)
    requires 0 <= bbSize <= 900000
    ensures k in {1, 2, 4, 8, 16} && forall j :: 0 <= j < bbSize ==> Shifted(j, k) <= 65535
  {
    k := 1;
    while bbSize / k > 65534
      invariant k in {1, 2, 4, 8, 16}
      decreases 16 - k
    {
      k := 2 * k;
    }
  }

  lemma QuadrantKept(b: seq<int>, st: seq<int>, p: seq<int>, q0: seq<int>, q: seq<int>, ss: int, k: nat, x: int)
    requires Bytes(b) && Starts(b, st) && Bucketed(b, st, p) && 0 <= ss < 256 && 0 <= x < |b| && b[x] != ss
    requires Updating(b, p, q0, q, st[Small(ss, 0)], st[Small(ss + 1, 0)], st[Small(ss, 0)], k)
    ensures q[x] == q0[x]
  {
    forall a | st[Small(ss, 0)] <= a < st[Small(ss + 1, 0)] && 0 <= a < |p| ensures p[a] != x {
      KeyByte(b, p[a]);
      var c := Key(b, p[a]);
      StartsMono(st, c + 1, Small(ss, 0));
      StartsMono(st, Small(ss + 1, 0), c);
    }
    assert Absent(p, st[Small(ss, 0)], st[Small(ss + 1, 0)], x);
  }

  lemma DivMono(u: int, v: int, k: nat)
    requires k in {1, 2, 4, 8, 16} && u >= v
    ensures Shifted(u, k) >= Shifted(v, k)
  {
  }

  lemma BigQuadrant(b: seq<int>, st: seq<int>, p: seq<int>, q0: seq<int>, q: seq<int>, ss: int, k: nat, x: int, y: int)
    requires |b| > 0 && Bytes(b) && Starts(b, st) && Bucketed(b, st, p) && 0 <= ss < 256
    requires Ascending(b, p, st[Small(ss, 0)], st[Small(ss + 1, 0)])
    requires Updating(b, p, q0, q, st[Small(ss, 0)], st[Small(ss + 1, 0)], st[Small(ss, 0)], k)
    requires 0 <= x < |b| && 0 <= y < |b| && b[x] == ss && b[y] == ss && q[x] < q[y]
    ensures Rank(b, |b|)[x] <= Rank(b, |b|)[y]
  {
    var a := InBig(b, st, p, x, ss);
    var c := InBig(b, st, p, y, ss);
    var l := st[Small(ss, 0)];
    assert q[p[a]] == Shifted(a - l, k) && q[p[c]] == Shifted(c - l, k);
    hide Updating, Starts, Bucketed, Rank, Shifted;
    if a >= c { DivMono(a - l, c - l, k); }
  }

  lemma QuadrantsUpdated(b: seq<int>, st: seq<int>, p: seq<int>, ft: seq<int>, q0: seq<int>, q: seq<int>, ss: int,
                         k: nat)
    requires Progress(b, st, p, ft) && Quadrants(b, q0) && 0 <= ss < 256
    requires Ascending(b, p, st[Small(ss, 0)], st[Small(ss + 1, 0)])
    requires Updating(b, p, q0, q, st[Small(ss, 0)], st[Small(ss + 1, 0)], st[Small(ss, 0)], k)
    ensures Quadrants(b, q)
  {
    forall x, y | 0 <= x < |b| && 0 <= y < |b| && b[x] == b[y] && q[x] < q[y] ensures Le(b, x, y) {
      if b[x] == ss {
        BigQuadrant(b, st, p, q0, q, ss, k, x, y);
        RankOrder(b, |b|, x, y);
      } else {
        QuadrantKept(b, st, p, q0, q, ss, k, x);
        QuadrantKept(b, st, p, q0, q, ss, k, y);
      }
    }
  }

  /** The big buckets of the first i characters in the running order are done. */
  ghost predicate DoneFirst(order: seq<int>, bigDone: seq<bool>, i: int) {
    && |bigDone| == 256 && IsPermutation(order, 256)
    && (forall k :: 0 <= k < 256 ==> (bigDone[order[k]] <==> k < i))
  }

  lemma DoneNext(order: seq<int>, bigDone: seq<bool>, i: int)
    requires 0 <= i < 256 && DoneFirst(order, bigDone, i)
    ensures 0 <= order[i] < 256 && !bigDone[order[i]] && DoneFirst(order, bigDone[order[i] := true], i + 1)
  {
  }

  lemma DoneAll(order: seq<int>, bigDone: seq<bool>)
    requires DoneFirst(order, bigDone, 256)
    ensures forall c :: 0 <= c < 256 ==> bigDone[c]
  {
    forall c | 0 <= c < 256 ensures bigDone[c] { var k := Counting.Surjective(order, 256, c); }
  }

  /** With every big bucket done the whole block is in order. */
  lemma AllDone(b: seq<int>, st: seq<int>, p: seq<int>, ft: seq<int>, bigDone: seq<bool>)
    requires Progress(b, st, p, ft) && Marks(ft, bigDone, 0, 0) && forall c :: 0 <= c < 256 ==> bigDone[c]
    ensures IsSorted(b, p)
  {
    forall j, k | 0 <= j < k < |b| ensures Le(b, p[j], p[k]) {
      var ss := b[p[j]];
      KeyByte(b, p[j]);
      var c := Key(b, p[j]);
      StartsMono(st, Small(ss, 0), c);
      StartsMono(st, c + 1, Small(ss + 1, 0));
      DoneAscending(b, st, p, ft, bigDone, j, k, ss);
      RankOrder(b, |b|, p[j], p[k]);
    }
  }

  lemma ProgressStart(b: seq<int>, p: seq<int>, bigDone: seq<bool>)
    requires N_OVERSHOOT < |b| <= 900000 && Bytes(b) && Bucketed(b, Starting(b), p)
    requires |bigDone| == 256 && forall c :: 0 <= c < 256 ==> !bigDone[c]
    ensures Progress(b, Starting(b), p, Starting(b)) && Marks(Starting(b), bigDone, 0, 0)
  {
    StartingRight(b);
    forall c | 0 <= c <= 65536 ensures Starting(b)[c] < SETMASK { StartsMono(Starting(b), c, 65536); }
  }

  lemma MarksFor(ft: seq<int>, bigDone: seq<bool>, ss: int)
    requires Marks(ft, bigDone, 0, 0)
    ensures Marks(ft, bigDone, ss, 0)
  {
  }

  /** Take one big bucket through the three steps. */
  method DoBig(ptr: array<int>, block: array<int>, quadrant: array<int>, ftab: array<int>, bigDone: array<bool>,
               n: nat, ss: int, update: bool, budget: int, ghost b: seq<int>, ghost st: seq<int>)
    returns (left: int)
    requires ptr != block && ptr != quadrant && ptr != ftab && block != quadrant && block != ftab && quadrant != ftab
    requires n == |b| <= ptr.Length && ftab.Length == 65537 && bigDone.Length == 256 && budget >= 0
    requires n <= block.Length && b == block[..n] && Overshot(b, block[..]) && Quadrants(b, quadrant[..])
    requires Progress(b, st, ptr[..], ftab[..]) && Marks(ftab[..], bigDone[..], 0, 0)
    requires 0 <= ss < 256 && !bigDone[ss]
    modifies ptr, quadrant, ftab, bigDone
    ensures left <= budget
    ensures left >= 0 ==> Progress(b, st, ptr[..], ftab[..]) && Marks(ftab[..], bigDone[..], 0, 0)
    ensures left >= 0 ==> bigDone[..] == old(bigDone[..])[ss := true] && (update ==> Quadrants(b, quadrant[..]))
  {
    hide Progress, Marks, Overshot, Quadrants;
    ghost var done := bigDone[..];
    MarksFor(ftab[..], done, ss);
    left := SortBig(ptr, block, quadrant, ftab, n, ss, budget, b, st, done);
    if left < 0 { return; }
    assert !bigDone[ss];
    ScanBig(ptr, block, ftab, bigDone, n, ss, b, st);
    ghost var ft := ftab[..];
    bigDone[ss] := true;
    assert bigDone[..] == done[ss := true] && ftab[..] == ft;
    if update {
      UpdateQuadrants(ptr, quadrant, ftab, n, ss, b, st, bigDone[..]);
    }
  }

  /** The main sort. With a budget that is not used up, ptr ends as a sorted order of the
      rotations; the block is as it was, followed by a copy of its first cells. */
  method MainSort(ptr: array<int>, block: array<int>, quadrant: array<int>, ftab: array<int>, n: nat, budget: int)
    returns (left: int)
    requires ptr != block && ptr != quadrant && ptr != ftab && block != quadrant && block != ftab && quadrant != ftab
    requires N_OVERSHOOT < n <= 900000 && n <= ptr.Length && ftab.Length == 65537 && budget >= 0
    requires n + N_OVERSHOOT <= block.Length && n + N_OVERSHOOT <= quadrant.Length && Bytes(block[..n])
    modifies ptr, block, quadrant, ftab
    ensures block[..n] == old(block[..n]) && left <= budget
    ensures left >= 0 ==> IsSorted(block[..n], ptr[..])
  {
    hide Progress, Marks, Overshot, Quadrants, IsSorted;
    ghost var b := block[..n];
    ghost var st := Starting(b);
    var order, bigDone := Prepare(ptr, block, quadrant, ftab, n, b);
    left := budget;
    for i := 0 to 256
      invariant 0 <= left <= budget && fresh(order) && fresh(bigDone) && order.Length == 256 && bigDone.Length == 256
      invariant b == block[..n] && Overshot(b, block[..]) && (i < 256 ==> Quadrants(b, quadrant[..]))
      invariant Progress(b, st, ptr[..], ftab[..]) && Marks(ftab[..], bigDone[..], 0, 0)
      invariant DoneFirst(order[..], bigDone[..], i)
    {
      DoneNext(order[..], bigDone[..], i);
      left := DoBig(ptr, block, quadrant, ftab, bigDone, n, order[i], i < 255, left, b, st);
      if left < 0 { return; }
    }
    DoneAll(order[..], bigDone[..]);
    AllDone(b, st, ptr[..], ftab[..], bigDone[..]);
  }

  /** The radix sort, the copies beyond the block, and the running order. */
  method Prepare(ptr: array<int>, block: array<int>, quadrant: array<int>, ftab: array<int>, n: nat, ghost b: seq<int>)
    returns (order: array<int>, bigDone: array<bool>)
    requires ptr != block && ptr != quadrant && ptr != ftab && block != quadrant && block != ftab && quadrant != ftab
    requires N_OVERSHOOT < n <= 900000 && n <= ptr.Length && ftab.Length == 65537
    requires n + N_OVERSHOOT <= block.Length && n + N_OVERSHOOT <= quadrant.Length && Bytes(b) && b == block[..n]
    modifies ptr, block, quadrant, ftab
    ensures fresh(order) && fresh(bigDone) && order.Length == 256 && bigDone.Length == 256
    ensures b == block[..n] && Overshot(b, block[..]) && Quadrants(b, quadrant[..])
    ensures Progress(b, Starting(b), ptr[..], ftab[..]) && Marks(ftab[..], bigDone[..], 0, 0)
    ensures DoneFirst(order[..], bigDone[..], 0)
  {
    hide Overshot, Quadrants, Progress, Marks;
    CountKeys(block, quadrant, ftab, n, b);
    Overshoot(block, quadrant, n, b);
    PlaceKeys(ptr, block, ftab, n, b);
    order := RunningOrder(ftab);
    bigDone := new bool[256](_ => false);
    ProgressStart(b, ptr[..], bigDone[..]);
  }
}
