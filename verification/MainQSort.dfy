/** Sorting one small bucket in the main block sort: three-way string quicksort, then
    Shell sort for short ranges and deep prefixes. */
module MainQSort {
  import opened MainCompare
  import opened Partitioning
  import opened RangeStack
  import opened Rotations
  import opened Sequences

  const QSORT_SMALL_THRESH := 20
  const QSORT_DEPTH_THRESH := N_RADIX + N_QSORT
  const QSORT_STACK_SIZE := 100

  const INCS: seq<int> := [1, 4, 13, 40, 121, 364, 1093, 3280, 9841, 29524, 88573, 265720, 797161, 2391484]

  /** The rotations in cells lo..hi agree on their first d characters. */
  ghost predicate Agree(b: seq<int>, f: seq<int>, lo: int, hi: int, d: nat)
    requires |b| > 0
  {
    && 0 <= lo <= hi + 1 <= |f|
    && (forall k :: lo <= k <= hi ==> 0 <= f[k] < |b|)
    && forall j, k :: lo <= j <= hi && lo <= k <= hi ==> Cmp(b, f[j], f[k], d) == 0
  }

  lemma AgreeRearranged(b: seq<int>, f: seq<int>, g: seq<int>, lo: int, hi: int, d: nat)
    requires |b| > 0 && Agree(b, f, lo, hi, d) && Rearranged(f, g, lo, hi + 1)
    ensures Agree(b, g, lo, hi, d)
  {
    forall k | lo <= k <= hi ensures 0 <= g[k] < |b| {
      var j := RearrangedFrom(f, g, lo, hi + 1, k);
    }
    forall j, k | lo <= j <= hi && lo <= k <= hi ensures Cmp(b, g[j], g[k], d) == 0 {
      var j' := RearrangedFrom(f, g, lo, hi + 1, j);
      var k' := RearrangedFrom(f, g, lo, hi + 1, k);
    }
  }

  lemma AgreeKeyed(b: seq<int>, f: seq<int>, lo: int, hi: int, d: nat)
    requires |b| > 0 && Agree(b, f, lo, hi, d)
    ensures Keyed(Rank(b, |b|), f, lo, hi)
  {
  }

  /** Rotations that agree on d characters are ordered as they are d characters on. */
  lemma VerdictRank(b: seq<int>, x: nat, y: nat, d: nat, gt: bool)
    requires |b| > 0 && x < |b| && y < |b| && Cmp(b, x, y, d) == 0 && Verdict(b, x + d, y + d, gt)
    ensures if gt then Rank(b, |b|)[x] >= Rank(b, |b|)[y] else Rank(b, |b|)[x] <= Rank(b, |b|)[y]
  {
    VerdictThere(b, x, y, d, x + d, y + d, gt);
    RankOrder(b, |b|, x, y);
    RankOrder(b, |b|, y, x);
  }

  /** Does rotation x exceed rotation y, given that they agree on d characters? */
  method Exceeds(x: nat, y: nat, d: nat, block: array<int>, quadrant: array<int>, n: nat, budget: int,
                 ghost b: seq<int>, ghost r: seq<int>)
    returns (gt: bool, left: int)
    requires 0 < n == |b| && Overshot(b, block[..]) && Quadrants(b, quadrant[..]) && r == Rank(b, n)
    requires x < n && y < n && d <= 15 && Cmp(b, x, y, d) == 0
    ensures if gt then r[x] >= r[y] else r[x] <= r[y]
    ensures left <= budget
  {
    gt, left := GtU(x + d, y + d, block, quadrant, n, budget, b);
    VerdictRank(b, x, y, d, gt);
  }

  /** While v is held aside for the hole at j, any other cell k agrees with it. */
  lemma HoleAgrees(b: seq<int>, s: seq<int>, f: seq<int>, lo: int, hi: int, d: nat, j: int, v: int, k: int)
    requires |b| > 0 && Agree(b, s, lo, hi, d) && lo <= j <= hi < |f| && lo <= k <= hi && k != j
    requires Rearranged(s, f[j := v], lo, hi + 1)
    ensures 0 <= f[k] < |b| && 0 <= v < |b| && Cmp(b, f[k], v, d) == 0
  {
    var g := f[j := v];
    AgreeRearranged(b, s, g, lo, hi, d);
    assert g[k] == f[k] && g[j] == v;
  }

  /** Cells j+1..i have been moved up by one from j..i-1, and do not precede v. */
  ghost predicate Inserting(r: seq<int>, s: seq<int>, f: seq<int>, lo: int, j: int, i: int, h: int, v: int) {
    && 0 <= lo <= j <= i < |s| == |f| && 0 <= v < |r|
    && (forall k :: lo <= k < j ==> f[k] == s[k])
    && (h == 1 ==> forall k :: j < k <= i ==> f[k] == s[k - 1] && 0 <= f[k] < |r| && r[f[k]] >= r[v])
  }

  lemma InsertingStep(r: seq<int>, s: seq<int>, f: seq<int>, g: seq<int>, lo: int, j: int, i: int, h: int, v: int)
    requires Inserting(r, s, f, lo, j, i, h, v) && 0 < h <= j - lo
    requires g == f[j := f[j - h]] && 0 <= f[j - h] < |r| && r[f[j - h]] >= r[v]
    ensures Inserting(r, s, g, lo, j - h, i, h, v)
  {
  }

  lemma InsertingDone(r: seq<int>, s: seq<int>, f: seq<int>, lo: int, hi: int, j: int, i: int, v: int)
    requires Inserting(r, s, f, lo, j, i, 1, v) && Keyed(r, s, lo, hi) && i <= hi
    requires SortedBy(r, s, lo, i - 1)
    requires j == lo || r[s[j - 1]] <= r[v]
    ensures Keyed(r, f[j := v], lo, i) && SortedBy(r, f[j := v], lo, i)
  {
  }

  /** Move cell i down past the cells h apart that hold greater rotations. */
  method InsertDown(ptr: array<int>, block: array<int>, quadrant: array<int>, n: nat, lo: int, ghost hi: int,
                    d: nat, h: int, i: int, budget: int, ghost b: seq<int>, ghost r: seq<int>)
    returns (left: int)
    requires ptr != block && ptr != quadrant && 0 < n == |b| && Overshot(b, block[..]) && Quadrants(b, quadrant[..])
    requires 0 < h && lo + h <= i <= hi && d <= 15 && Agree(b, ptr[..], lo, hi, d)
    requires r == Rank(b, n) && Keyed(r, ptr[..], lo, hi)
    modifies ptr
    ensures Rearranged(old(ptr[..]), ptr[..], lo, hi + 1)
    ensures Keyed(r, ptr[..], lo, hi) && left <= budget
    ensures h == 1 && SortedBy(r, old(ptr[..]), lo, i - 1) ==> SortedBy(r, ptr[..], lo, i)
  {
    hide Rearranged, Agree, Rank, Overshot, Quadrants;
    ghost var s := ptr[..];
    RearrangedSelf(s, lo, hi + 1);
    var v := ptr[i];
    var j := i;
    left := budget;
    assert s[j := v] == s;
    while true
      invariant lo + h <= j <= i && left <= budget
      invariant Rearranged(s, ptr[..][j := v], lo, hi + 1)
      invariant Inserting(r, s, ptr[..], lo, j, i, h, v)
      decreases j
    {
      ghost var f := ptr[..];
      HoleAgrees(b, s, f, lo, hi, d, j, v, j - h);
      var gt;
      gt, left := Exceeds(ptr[j - h], v, d, block, quadrant, n, left, b, r);
      if !gt { break; }
      ptr[j] := ptr[j - h];
      RearrangedHole(s, f, ptr[..], lo, hi + 1, j, j - h, v);
      InsertingStep(r, s, f, ptr[..], lo, j, i, h, v);
      j := j - h;
      if j <= lo + h - 1 { break; }
    }
    if h == 1 && SortedBy(r, s, lo, i - 1) { InsertingDone(r, s, ptr[..], lo, hi, j, i, v); }
    ptr[j] := v;
    assert ptr[..] == ptr[..][j := v];
    KeyedRearranged(r, s, ptr[..], lo, hi, lo, hi);
  }

  /** One pass of the Shell sort, at distance h. Every third insertion the budget is
      looked at, and an exhausted one ends the sort. */
  method ShellPass(ptr: array<int>, block: array<int>, quadrant: array<int>, n: nat, lo: int, hi: int,
                   d: nat, h: int, budget: int, ghost b: seq<int>, ghost r: seq<int>, ghost s: seq<int>)
    returns (abandoned: bool, left: int)
    requires ptr != block && ptr != quadrant && 0 < n == |b| && Overshot(b, block[..]) && Quadrants(b, quadrant[..])
    requires 0 < h && lo <= hi && d <= 15 && r == Rank(b, n)
    requires Agree(b, s, lo, hi, d) && Keyed(r, ptr[..], lo, hi) && Rearranged(s, ptr[..], lo, hi + 1)
    modifies ptr
    ensures Rearranged(s, ptr[..], lo, hi + 1) && Keyed(r, ptr[..], lo, hi)
    ensures left <= budget && (abandoned ==> left < 0)
    ensures h == 1 && !abandoned ==> SortedBy(r, ptr[..], lo, hi)
  {
    hide Rearranged, Agree, Rank, Overshot, Quadrants;
    abandoned, left := false, budget;
    var i := lo + h;
    var copy := 0;
    while i <= hi
      invariant lo + h <= i && (i <= hi + 1 || i == lo + h) && 0 <= copy < 3 && left <= budget
      invariant Rearranged(s, ptr[..], lo, hi + 1) && Keyed(r, ptr[..], lo, hi)
      invariant h == 1 ==> SortedBy(r, ptr[..], lo, i - 1)
    {
      left := InsertNext(ptr, block, quadrant, n, lo, hi, d, h, i, left, b, r, s);
      i := i + 1;
      copy := copy + 1;
      if copy == 3 {
        copy := 0;
        if left < 0 { return true, left; }
      }
    }
  }

  /** An insertion, seen from the order s in which the range was first. */
  method InsertNext(ptr: array<int>, block: array<int>, quadrant: array<int>, n: nat, lo: int, ghost hi: int,
                    d: nat, h: int, i: int, budget: int, ghost b: seq<int>, ghost r: seq<int>, ghost s: seq<int>)
    returns (left: int)
    requires ptr != block && ptr != quadrant && 0 < n == |b| && Overshot(b, block[..]) && Quadrants(b, quadrant[..])
    requires 0 < h && lo + h <= i <= hi && d <= 15 && r == Rank(b, n)
    requires Agree(b, s, lo, hi, d) && Keyed(r, ptr[..], lo, hi) && Rearranged(s, ptr[..], lo, hi + 1)
    modifies ptr
    ensures Rearranged(s, ptr[..], lo, hi + 1) && Keyed(r, ptr[..], lo, hi)
    ensures left <= budget
    ensures h == 1 && SortedBy(r, old(ptr[..]), lo, i - 1) ==> SortedBy(r, ptr[..], lo, i)
  {
    hide Rearranged, Agree, Rank, Overshot, Quadrants, SortedBy;
    ghost var f := ptr[..];
    AgreeRearranged(b, s, f, lo, hi, d);
    left := InsertDown(ptr, block, quadrant, n, lo, hi, d, h, i, budget, b, r);
    RearrangedTrans(s, f, ptr[..], lo, hi + 1);
  }

  /** Shell sort of cells lo..hi, with Knuth's increments. */
  method SimpleSort(ptr: array<int>, block: array<int>, quadrant: array<int>, n: nat, lo: int, hi: int,
                    d: nat, budget: int, ghost b: seq<int>, ghost r: seq<int>)
    returns (left: int)
    requires ptr != block && ptr != quadrant && 0 < n == |b| && Overshot(b, block[..]) && Quadrants(b, quadrant[..])
    requires d <= 15 && r == Rank(b, n) && Agree(b, ptr[..], lo, hi, d) && hi - lo < 900000
    modifies ptr
    ensures Rearranged(old(ptr[..]), ptr[..], lo, hi + 1) && Keyed(r, ptr[..], lo, hi)
    ensures left <= budget
    ensures left >= 0 ==> SortedBy(r, ptr[..], lo, hi)
  {
    ghost var s := ptr[..];
    RearrangedSelf(s, lo, hi + 1);
    AgreeKeyed(b, s, lo, hi, d);
    hide Rearranged, Agree, Rank, Overshot, Quadrants;
    left := budget;
    var bigN := hi - lo + 1;
    if bigN < 2 { return; }
    var hp := 0;
    while INCS[hp] < bigN
      invariant 0 <= hp < 14
      decreases 14 - hp
    {
      hp := hp + 1;
    }
    hp := hp - 1;
    while hp >= 0
      invariant -1 <= hp < 13 && left <= budget
      invariant Rearranged(s, ptr[..], lo, hi + 1) && Keyed(r, ptr[..], lo, hi)
      invariant hp == -1 ==> SortedBy(r, ptr[..], lo, hi)
    {
      var abandoned;
      abandoned, left := ShellPass(ptr, block, quadrant, n, lo, hi, d, INCS[hp], left, b, r, s);
      if abandoned { return; }
      hp := hp - 1;
    }
  }

  /** What the quicksort of cells lo..hi keeps between steps. */
  ghost predicate Pending(b: seq<int>, r: seq<int>, s: seq<int>, f: seq<int>, st: seq<Range>, lo: int, hi: int)
    requires |b| > 0
  {
    && 0 <= lo <= hi < lo + 900000 && r == Rank(b, |b|)
    && Keyed(r, f, lo, hi) && Rearranged(s, f, lo, hi + 1)
    && |st| <= 22 && Within(st, lo, hi) && Disjoint(st, lo, hi) && Thirding(st, hi - lo + 1)
    && Ordered(r, f, st, lo, hi)
    && Prefixed(b, f, st)
  }

  /** Each range on the stack knows how many characters its rotations agree on. */
  ghost predicate Prefixed(b: seq<int>, f: seq<int>, st: seq<Range>)
    requires |b| > 0
  {
    forall i :: 0 <= i < |st| ==> st[i].d <= 15 && Agree(b, f, st[i].lo, st[i].hi, st[i].d)
  }

  lemma PendingStart(b: seq<int>, s: seq<int>, r: Range)
    requires |b| > 0 && 0 <= r.lo <= r.hi < r.lo + 900000 && r.d <= 15 && Agree(b, s, r.lo, r.hi, r.d)
    ensures Pending(b, Rank(b, |b|), s, s, [r], r.lo, r.hi)
  {
    AgreeKeyed(b, s, r.lo, r.hi, r.d);
    OrderedStart(Rank(b, |b|), s, r);
    RearrangedSelf(s, r.lo, r.hi + 1);
  }

  lemma PendingTop(b: seq<int>, k: seq<int>, s: seq<int>, f: seq<int>, rest: seq<Range>, r: Range, lo: int, hi: int)
    requires |b| > 0 && Pending(b, k, s, f, rest + [r], lo, hi)
    ensures lo <= r.lo <= r.hi + 1 <= hi + 1 && r.d <= 15 && Agree(b, f, r.lo, r.hi, r.d)
    ensures |rest| < 22 && DeepWork(rest, QSORT_DEPTH_THRESH) < DeepWork(rest + [r], QSORT_DEPTH_THRESH)
    ensures Thirding(rest + [r], hi - lo + 1) && 0 <= lo <= hi < lo + 900000 && k == Rank(b, |b|)
  {
    hide RangeWork, DeepWork, Rank, Ordered, Disjoint, Thirding, Rearranged;
    assert (rest + [r])[|rest|] == r;
    DeepWorkPush(rest, r, QSORT_DEPTH_THRESH);
  }

  /** The top range, once in order up to some smaller ranges inside it, is replaced by those. */
  lemma PendingReplace(b: seq<int>, k: seq<int>, s: seq<int>, f: seq<int>, g: seq<int>,
                       rest: seq<Range>, r: Range, pieces: seq<Range>, lo: int, hi: int)
    requires |b| > 0 && Pending(b, k, s, f, rest + [r], lo, hi)
    requires Rearranged(f, g, r.lo, r.hi + 1) && Keyed(k, g, r.lo, r.hi)
    requires Within(pieces, r.lo, r.hi) && Disjoint(pieces, r.lo, r.hi) && Ordered(k, g, pieces, r.lo, r.hi)
    requires Prefixed(b, g, pieces)
    requires Thirding(rest + pieces, hi - lo + 1) && |rest + pieces| <= 22
    ensures Pending(b, k, s, g, rest + pieces, lo, hi)
  {
    hide Ordered, Thirding, Rank, Prefixed, Agree, Disjoint, Keyed, Within;
    assert (rest + [r])[|rest|] == r;
    WithinReplace(rest, r, pieces, lo, hi);
    PrefixedReplace(b, f, g, rest, r, pieces, lo, hi);
    KeyedRearranged(k, f, g, lo, hi, r.lo, r.hi);
    Refine(k, f, g, rest, r, pieces, lo, hi);
    RearrangedWiden(f, g, r.lo, r.hi + 1, lo, hi + 1);
    RearrangedTrans(s, f, g, lo, hi + 1);
  }

  lemma WithinReplace(rest: seq<Range>, r: Range, pieces: seq<Range>, lo: int, hi: int)
    requires Within(rest + [r], lo, hi) && Within(pieces, r.lo, r.hi)
    ensures Within(rest + pieces, lo, hi) && lo <= r.lo <= r.hi + 1 <= hi + 1
  {
    var t := rest + pieces;
    assert (rest + [r])[|rest|] == r;
    forall i | 0 <= i < |t| ensures lo <= t[i].lo <= t[i].hi + 1 <= hi + 1 {
      if i < |rest| { assert t[i] == (rest + [r])[i]; }
    }
  }

  lemma PrefixedReplace(b: seq<int>, f: seq<int>, g: seq<int>, rest: seq<Range>, r: Range, pieces: seq<Range>,
                        lo: int, hi: int)
    requires |b| > 0 && Prefixed(b, f, rest + [r]) && Prefixed(b, g, pieces)
    requires Disjoint(rest + [r], lo, hi) && Rearranged(f, g, r.lo, r.hi + 1)
    ensures Prefixed(b, g, rest + pieces)
  {
    var t := rest + pieces;
    assert (rest + [r])[|rest|] == r;
    forall i | 0 <= i < |t| ensures t[i].d <= 15 && Agree(b, g, t[i].lo, t[i].hi, t[i].d) {
      if i < |rest| {
        assert t[i] == (rest + [r])[i];
        forall j | t[i].lo <= j <= t[i].hi ensures g[j] == f[j] {
          assert t[i].Holds(j) && !r.Holds(j);
        }
      }
    }
  }

  lemma PendingDrop(b: seq<int>, k: seq<int>, s: seq<int>, f: seq<int>, g: seq<int>, rest: seq<Range>, r: Range,
                    lo: int, hi: int)
    requires |b| > 0 && Pending(b, k, s, f, rest + [r], lo, hi)
    requires Rearranged(f, g, r.lo, r.hi + 1) && Keyed(k, g, r.lo, r.hi) && SortedBy(k, g, r.lo, r.hi)
    ensures Pending(b, k, s, g, rest, lo, hi)
  {
    hide Rearranged, Rank;
    assert rest + [] == rest;
    forall i | 0 <= i < |rest| ensures rest[i].Size() <= Thirded(hi - lo + 1, i) {
      assert rest[i] == (rest + [r])[i];
    }
    PendingReplace(b, k, s, f, g, rest, r, [], lo, hi);
  }

  lemma PendingEnd(b: seq<int>, k: seq<int>, s: seq<int>, f: seq<int>, lo: int, hi: int)
    requires |b| > 0 && Pending(b, k, s, f, [], lo, hi)
    ensures Rearranged(s, f, lo, hi + 1) && Keyed(k, f, lo, hi) && SortedBy(k, f, lo, hi)
  {
    OrderedEnd(k, f, lo, hi);
  }

  /** The next character decides between rotations that agree so far. */
  lemma NextChar(b: seq<int>, ext: seq<int>, x: nat, y: nat, d: nat)
    requires Overshot(b, ext) && x < |b| && y < |b| && d <= 15 && Cmp(b, x, y, d) == 0
    ensures ext[x + d] == ext[y + d] ==> Cmp(b, x, y, d + 1) == 0
    ensures ext[x + d] < ext[y + d] ==> Rank(b, |b|)[x] < Rank(b, |b|)[y]
  {
    CmpSplit(b, x, y, d, 1);
    assert Cmp(b, x + d + 1, y + d + 1, 0) == 0;
    if ext[x + d] < ext[y + d] {
      CmpSplit(b, x, y, d + 1, |b| - d - 1);
      RankOrder(b, |b|, x, y);
    }
  }

  lemma EqualAgree(b: seq<int>, ext: seq<int>, f: seq<int>, lo: int, hi: int, d: nat)
    requires Overshot(b, ext) && d <= 14 && Agree(b, f, lo, hi, d)
    requires forall j, k :: lo <= j <= hi && lo <= k <= hi ==> ext[f[j] + d] == ext[f[k] + d]
    ensures Agree(b, f, lo, hi, d + 1)
  {
    forall j, k | lo <= j <= hi && lo <= k <= hi ensures Cmp(b, f[j], f[k], d + 1) == 0 {
      NextChar(b, ext, f[j], f[k], d);
    }
  }

  ghost predicate Shuffled(x: Range, y: Range, z: Range, p: Range, q: Range, o: Range) {
    || (x == p && y == q && z == o) || (x == p && y == o && z == q)
    || (x == q && y == p && z == o) || (x == q && y == o && z == p)
    || (x == o && y == p && z == q) || (x == o && y == q && z == p)
  }

  lemma PartedPair(b: seq<int>, ext: seq<int>, f: seq<int>, med: int, lo: int, n: int, m: int, hi: int, d: nat,
                   x: Range, y: Range, z: Range, j: int, k: int)
    requires Overshot(b, ext) && d <= 14 && Agree(b, f, lo, hi, d) && |Rank(b, |b|)| == |b|
    requires Parted(ext[d..], f, med, lo, n, m, hi) && lo <= j < k <= hi && 0 <= f[j] < |b| && 0 <= f[k] < |b|
    requires Shuffled(x, y, z, Range(lo, n, d), Range(m, hi, d), Range(n + 1, m - 1, d + 1))
    ensures Rank(b, |b|)[f[j]] <= Rank(b, |b|)[f[k]] || Together([x, y, z], j, k)
  {
    hide Rank;
    var e, st := ext[d..], [x, y, z];
    assert st[0] == x && st[1] == y && st[2] == z;
    if !Together(st, j, k) {
      assert e[f[j]] < e[f[k]];
      NextChar(b, ext, f[j], f[k], d);
    }
  }

  /** Each part agrees: those beside as before, the middle on one character more. */
  lemma PartedAgree(b: seq<int>, ext: seq<int>, f: seq<int>, med: int, lo: int, n: int, m: int, hi: int, d: nat)
    requires Overshot(b, ext) && d <= 14 && Agree(b, f, lo, hi, d) && Parted(ext[d..], f, med, lo, n, m, hi)
    ensures |b| > 0 && lo <= n + 1 <= m <= hi + 1 && Agree(b, f, lo, n, d) && Agree(b, f, m, hi, d)
    ensures Agree(b, f, n + 1, m - 1, d + 1)
  {
    forall k | n < k < m ensures ext[f[k] + d] == med { assert ext[d..][f[k]] == med; }
    EqualAgree(b, ext, f, n + 1, m - 1, d);
  }

  lemma PartedPrefixed(b: seq<int>, f: seq<int>, lo: int, n: int, m: int, hi: int, d: nat, x: Range, y: Range, z: Range)
    requires |b| > 0 && d <= 14 && Agree(b, f, lo, n, d) && Agree(b, f, m, hi, d) && Agree(b, f, n + 1, m - 1, d + 1)
    requires Shuffled(x, y, z, Range(lo, n, d), Range(m, hi, d), Range(n + 1, m - 1, d + 1))
    ensures Prefixed(b, f, [x, y, z])
  {
    hide Agree;
    assert [x, y, z][0] == x && [x, y, z][1] == y && [x, y, z][2] == z;
  }

  lemma RankSize(b: seq<int>, f: seq<int>, lo: int, hi: int)
    requires |b| > 0 && Keyed(Rank(b, |b|), f, lo, hi)
    ensures |Rank(b, |b|)| == |b| && 0 <= lo <= hi + 1 <= |f| && forall k :: lo <= k <= hi ==> 0 <= f[k] < |b|
  {
  }

  /** Partitioned by the next character, a range is in order up to its three parts. */
  lemma PartedOrder(b: seq<int>, ext: seq<int>, f: seq<int>, med: int, lo: int, n: int, m: int, hi: int, d: nat,
                    x: Range, y: Range, z: Range)
    requires Overshot(b, ext) && d <= 14 && Agree(b, f, lo, hi, d)
    requires Parted(ext[d..], f, med, lo, n, m, hi)
    requires Shuffled(x, y, z, Range(lo, n, d), Range(m, hi, d), Range(n + 1, m - 1, d + 1))
    ensures Keyed(Rank(b, |b|), f, lo, hi) && Ordered(Rank(b, |b|), f, [x, y, z], lo, hi)
    ensures Prefixed(b, f, [x, y, z])
  {
    hide Rank, Agree, Overshot, Parted, Together, Prefixed, Keyed, Shuffled;
    PartedAgree(b, ext, f, med, lo, n, m, hi, d);
    AgreeKeyed(b, f, lo, hi, d);
    RankSize(b, f, lo, hi);
    forall j, k | lo <= j < k <= hi ensures Rank(b, |b|)[f[j]] <= Rank(b, |b|)[f[k]] || Together([x, y, z], j, k) {
      PartedPair(b, ext, f, med, lo, n, m, hi, d, x, y, z, j, k);
    }
    PartedPrefixed(b, f, lo, n, m, hi, d, x, y, z);
  }

  lemma PartedDisjoint(lo: int, n: int, m: int, hi: int, d: nat, x: Range, y: Range, z: Range)
    requires lo <= n + 1 <= m <= hi + 1
    requires Shuffled(x, y, z, Range(lo, n, d), Range(m, hi, d), Range(n + 1, m - 1, d + 1))
    ensures Disjoint([x, y, z], lo, hi) && Within([x, y, z], lo, hi)
  {
    var st := [x, y, z];
    assert st[0] == x && st[1] == y && st[2] == z;
  }

  lemma PartedWork(lo: int, n: int, m: int, hi: int, d: nat, x: Range, y: Range, z: Range)
    requires lo <= n + 1 < m <= hi + 1 && d <= QSORT_DEPTH_THRESH
    requires Shuffled(x, y, z, Range(lo, n, d), Range(m, hi, d), Range(n + 1, m - 1, d + 1))
    ensures RangeWork(x, QSORT_DEPTH_THRESH) + RangeWork(y, QSORT_DEPTH_THRESH) + RangeWork(z, QSORT_DEPTH_THRESH)
         < RangeWork(Range(lo, hi, d), QSORT_DEPTH_THRESH)
  {
    hide RangeWork;
    ThreeWork(lo, n, m, hi, d);
  }

  lemma ThreeWork(lo: int, n: int, m: int, hi: int, d: nat)
    requires lo <= n + 1 < m <= hi + 1 && d <= QSORT_DEPTH_THRESH
    ensures RangeWork(Range(lo, n, d), QSORT_DEPTH_THRESH) + RangeWork(Range(m, hi, d), QSORT_DEPTH_THRESH)
          + RangeWork(Range(n + 1, m - 1, d + 1), QSORT_DEPTH_THRESH)
         < RangeWork(Range(lo, hi, d), QSORT_DEPTH_THRESH)
  {
    ScaledSum(n - lo + 1, hi - m + 1, m - n - 1, 15 - d);
  }

  /** Three parts, the largest at the bottom, keep the stack low. */
  lemma PushThree(rest: seq<Range>, r: Range, x: Range, y: Range, z: Range, n: nat)
    requires Thirding(rest + [r], n) && n <= 900000 && r.Size() > 20
    requires x.Size() >= y.Size() >= z.Size() && x.Size() + y.Size() + z.Size() == r.Size()
    ensures Thirding(rest + [x, y, z], n) && |rest| < 20
  {
    var t, k := rest + [x, y, z], |rest|;
    assert (rest + [r])[k] == r;
    ThirdedHeight(n, k);
    ThirdedHalf(n, k);
    assert Thirded(n, k + 2) == Thirded(n, k) / 3;
    assert t[k] == x && t[k + 1] == y && t[k + 2] == z;
    forall i | 0 <= i < |t| ensures t[i].Size() <= Thirded(n, i) {
      if i < k { assert t[i] == (rest + [r])[i]; }
    }
  }

  /** The range on top is replaced by its three parts, in the order of their sizes. */
  lemma PendingSplit(b: seq<int>, ext: seq<int>, r: seq<int>, s: seq<int>, f: seq<int>, g: seq<int>, med: int,
                     rest: seq<Range>, top: Range, n: int, m: int, x: Range, y: Range, z: Range, lo: int, hi: int)
    requires Overshot(b, ext) && Pending(b, r, s, f, rest + [top], lo, hi)
    requires top.Size() > 20 && top.d <= QSORT_DEPTH_THRESH && n + 1 < m
    requires Rearranged(f, g, top.lo, top.hi + 1) && Parted(ext[top.d..], g, med, top.lo, n, m, top.hi)
    requires Shuffled(x, y, z, Range(top.lo, n, top.d), Range(m, top.hi, top.d), Range(n + 1, m - 1, top.d + 1))
    requires x.Size() >= y.Size() >= z.Size()
    ensures Pending(b, r, s, g, rest + [x, y, z], lo, hi)
    ensures DeepWork(rest + [x, y, z], QSORT_DEPTH_THRESH) < DeepWork(rest + [top], QSORT_DEPTH_THRESH)
  {
    hide *;
    assert |b| > 0 && top.lo <= n + 1 && m <= top.hi + 1 && top.d <= 14 &&
      x.Size() + y.Size() + z.Size() == top.Size() by {
      SplitFacts(b, ext, g, med, top, n, m, x, y, z);
    }
    PendingTop(b, r, s, f, rest, top, lo, hi);
    AgreeRearranged(b, f, g, top.lo, top.hi, top.d);
    PartedOrder(b, ext, g, med, top.lo, n, m, top.hi, top.d, x, y, z);
    PartedDisjoint(top.lo, n, m, top.hi, top.d, x, y, z);
    PushThree(rest, top, x, y, z, hi - lo + 1);
    PendingReplace(b, r, s, f, g, rest, top, [x, y, z], lo, hi);
    PartedWork(top.lo, n, m, top.hi, top.d, x, y, z);
    PushWork(rest, x, y, z, top, QSORT_DEPTH_THRESH);
  }

  lemma SplitFacts(b: seq<int>, ext: seq<int>, g: seq<int>, med: int, top: Range, n: int, m: int,
                   x: Range, y: Range, z: Range)
    requires Overshot(b, ext) && top.d <= QSORT_DEPTH_THRESH && n + 1 < m
    requires Parted(ext[top.d..], g, med, top.lo, n, m, top.hi)
    requires Shuffled(x, y, z, Range(top.lo, n, top.d), Range(m, top.hi, top.d), Range(n + 1, m - 1, top.d + 1))
    ensures |b| > 0 && top.lo <= n + 1 && m <= top.hi + 1 && top.d <= 14
    ensures x.Size() + y.Size() + z.Size() == top.Size()
  {
  }

  lemma PushWork(rest: seq<Range>, x: Range, y: Range, z: Range, top: Range, dmax: nat)
    ensures DeepWork(rest + [x, y, z], dmax)
         == DeepWork(rest, dmax) + RangeWork(x, dmax) + RangeWork(y, dmax) + RangeWork(z, dmax)
    ensures DeepWork(rest + [top], dmax) == DeepWork(rest, dmax) + RangeWork(top, dmax)
  {
    DeepWorkPush(rest, top, dmax);
    DeepWorkPush(rest, x, dmax);
    DeepWorkPush(rest + [x], y, dmax);
    DeepWorkPush(rest + [x] + [y], z, dmax);
    assert rest + [x, y, z] == rest + [x] + [y] + [z];
  }

  lemma DeeperWork(rest: seq<Range>, top: Range)
    requires top.Size() > 0 && top.d <= QSORT_DEPTH_THRESH
    ensures DeepWork(rest + [top.(d := top.d + 1)], QSORT_DEPTH_THRESH) < DeepWork(rest + [top], QSORT_DEPTH_THRESH)
  {
    DeepWorkPush(rest, top, QSORT_DEPTH_THRESH);
    DeepWorkPush(rest, top.(d := top.d + 1), QSORT_DEPTH_THRESH);
  }

  /** When all next characters are equal the range goes back one character deeper. */
  lemma PendingDeeper(b: seq<int>, ext: seq<int>, r: seq<int>, s: seq<int>, f: seq<int>, g: seq<int>,
                      rest: seq<Range>, top: Range, lo: int, hi: int)
    requires Overshot(b, ext) && Pending(b, r, s, f, rest + [top], lo, hi)
    requires top.Size() > 20 && top.d <= QSORT_DEPTH_THRESH
    requires Rearranged(f, g, top.lo, top.hi + 1)
    requires forall j, k :: top.lo <= j <= top.hi && top.lo <= k <= top.hi ==>
               0 <= g[j] < |b| && 0 <= g[k] < |b| && ext[g[j] + top.d] == ext[g[k] + top.d]
    ensures Pending(b, r, s, g, rest + [top.(d := top.d + 1)], lo, hi)
  {
    hide *;
    var deeper := top.(d := top.d + 1);
    assert |b| > 0 && top.d <= 14 by { assert Overshot(b, ext); DepthFacts(b, ext, top); }
    PendingTop(b, r, s, f, rest, top, lo, hi);
    DeeperFits(rest, top, hi - lo + 1);
    AgreeRearranged(b, f, g, top.lo, top.hi, top.d);
    DeeperPiece(b, ext, g, top);
    PendingReplace(b, r, s, f, g, rest, top, [deeper], lo, hi);
  }

  lemma DepthFacts(b: seq<int>, ext: seq<int>, top: Range)
    requires Overshot(b, ext) && top.d <= QSORT_DEPTH_THRESH
    ensures |b| > 0 && top.d <= 14
  {
  }

  lemma DeeperPiece(b: seq<int>, ext: seq<int>, g: seq<int>, top: Range)
    requires Overshot(b, ext) && top.d <= 14 && Agree(b, g, top.lo, top.hi, top.d)
    requires forall j, k :: top.lo <= j <= top.hi && top.lo <= k <= top.hi ==>
               0 <= g[j] < |b| && 0 <= g[k] < |b| && ext[g[j] + top.d] == ext[g[k] + top.d]
    ensures Keyed(Rank(b, |b|), g, top.lo, top.hi)
    ensures Prefixed(b, g, [top.(d := top.d + 1)]) && Within([top.(d := top.d + 1)], top.lo, top.hi)
    ensures Disjoint([top.(d := top.d + 1)], top.lo, top.hi)
    ensures Ordered(Rank(b, |b|), g, [top.(d := top.d + 1)], top.lo, top.hi)
  {
    EqualAgree(b, ext, g, top.lo, top.hi, top.d);
    AgreeKeyed(b, g, top.lo, top.hi, top.d);
    hide Rank, Overshot;
    OrderedStart(Rank(b, |b|), g, top.(d := top.d + 1));
  }

  lemma DeeperFits(rest: seq<Range>, top: Range, n: nat)
    requires Thirding(rest + [top], n)
    ensures Thirding(rest + [top.(d := top.d + 1)], n)
  {
    var t := rest + [top.(d := top.d + 1)];
    forall i | 0 <= i < |t| ensures t[i].Size() <= Thirded(n, i) {
      assert t[i].Size() == (rest + [top])[i].Size();
    }
  }

  /** The median of three. */
  method Med3(a0: int, b0: int, c0: int) returns (m: int)
    ensures m == a0 || m == b0 || m == c0
    ensures (a0 <= m || b0 <= m || c0 <= m) && (a0 <= b0 <= c0 || c0 <= b0 <= a0 ==> m == b0)
    ensures (b0 <= a0 <= c0 || c0 <= a0 <= b0 ==> m == a0) && (a0 <= c0 <= b0 || b0 <= c0 <= a0 ==> m == c0)
  {
    var a, b, c := a0, b0, c0;
    if a > b { a, b := b, a; }
    if b > c {
      b := c;
      if a > b { b := a; }
    }
    m := b;
  }

  /** The three parts, the largest first. */
  method OrderParts(p: Range, q: Range, o: Range) returns (x: Range, y: Range, z: Range)
    requires p.lo <= p.hi + 1 && q.lo <= q.hi + 1 && o.lo <= o.hi + 1
    ensures Shuffled(x, y, z, p, q, o)
    ensures x.Size() >= y.Size() >= z.Size()
  {
    x, y, z := p, q, o;
    if x.hi - x.lo < y.hi - y.lo { x, y := y, x; }
    if y.hi - y.lo < z.hi - z.lo { y, z := z, y; }
    if x.hi - x.lo < y.hi - y.lo { x, y := y, x; }
  }

  lemma AgreeKeyedChars(b: seq<int>, ext: seq<int>, f: seq<int>, lo: int, hi: int, d: nat)
    requires Overshot(b, ext) && d <= 14 && Agree(b, f, lo, hi, d)
    ensures d <= |ext| && Keyed(ext[d..], f, lo, hi)
    ensures forall k :: lo <= k <= hi ==> 0 <= f[k] + d < |ext| && ext[d..][f[k]] == ext[f[k] + d]
  {
  }

  /** All next characters equal, as the range goes back on the stack one deeper. */
  lemma AllEqualChars(b: seq<int>, ext: seq<int>, g: seq<int>, med: int, lo: int, hi: int, d: nat)
    requires Overshot(b, ext) && d <= 14 && Agree(b, g, lo, hi, d)
    requires Keyed(ext[d..], g, lo, hi) && AllEqual(ext[d..], g, med, lo, hi)
    ensures forall j, k :: lo <= j <= hi && lo <= k <= hi ==>
              0 <= g[j] < |b| && 0 <= g[k] < |b| && ext[g[j] + d] == ext[g[k] + d]
  {
    forall k | lo <= k <= hi ensures ext[g[k] + d] == med { assert ext[d..][g[k]] == med; }
  }

  lemma LargeTop(b: seq<int>, ext: seq<int>, top: Range)
    requires Overshot(b, ext) && top.Size() > 20 && top.d <= QSORT_DEPTH_THRESH
    ensures top.lo <= top.hi && top.d <= 14 && 0 < |b| && |b| + 34 <= |ext| && N_OVERSHOOT == 34
    ensures QSORT_DEPTH_THRESH == 14
  {
  }

  /** Partition the range on top of the stack by its next character. */
  method SplitTop(ptr: array<int>, block: array<int>, n: nat, rest: seq<Range>, top: Range,
                  ghost b: seq<int>, ghost r: seq<int>, ghost s: seq<int>, ghost lo: int, ghost hi: int)
    returns (next: seq<Range>)
    requires ptr != block && n == |b| && Overshot(b, block[..])
    requires Pending(b, r, s, ptr[..], rest + [top], lo, hi) && top.Size() > 20 && top.d <= QSORT_DEPTH_THRESH
    modifies ptr
    ensures Pending(b, r, s, ptr[..], next, lo, hi)
    ensures DeepWork(next, QSORT_DEPTH_THRESH) < DeepWork(rest + [top], QSORT_DEPTH_THRESH)
  {
    hide *;
    ghost var f, ext := ptr[..], block[..];
    LargeTop(b, ext, top);
    var d := top.d;
    PendingTop(b, r, s, f, rest, top, lo, hi);
    AgreeKeyedChars(b, ext, f, top.lo, top.hi, d);
    ghost var e := block[d..];
    assert e == ext[d..];
    var mid := (top.lo + top.hi) / 2;
    var med := Med3(block[ptr[top.lo] + d], block[ptr[top.hi] + d], block[ptr[mid] + d]);
    ghost var cell := if e[ptr[top.lo]] == med then top.lo else if e[ptr[top.hi]] == med then top.hi else mid;
    var done, k, m := ThreeWay(ptr, block, d, e, top.lo, top.hi, med, cell);
    if done {
      AgreeRearranged(b, f, ptr[..], top.lo, top.hi, d);
      AllEqualChars(b, ext, ptr[..], med, top.lo, top.hi, d);
      PendingDeeper(b, ext, r, s, f, ptr[..], rest, top, lo, hi);
      DeeperWork(rest, top);
      return rest + [top.(d := d + 1)];
    }
    PartedRanges(e, ptr[..], med, top.lo, k, m, top.hi);
    var x, y, z := OrderParts(Range(top.lo, k, d), Range(m, top.hi, d), Range(k + 1, m - 1, d + 1));
    PendingSplit(b, ext, r, s, f, ptr[..], med, rest, top, k, m, x, y, z, lo, hi);
    next := rest + [x, y, z];
  }

  lemma PartedRanges(e: seq<int>, f: seq<int>, med: int, lo: int, n: int, m: int, hi: int)
    requires Parted(e, f, med, lo, n, m, hi)
    ensures lo <= n + 1 <= m <= hi + 1
  {
  }

  /** Three-way string quicksort of cells loSt..hiSt, whose rotations agree on dSt characters.
      A negative budget at the end means the sort was abandoned. */
  method QSort3(ptr: array<int>, block: array<int>, quadrant: array<int>, n: nat, loSt: int, hiSt: int,
                dSt: nat, budget: int, ghost b: seq<int>)
    returns (left: int)
    requires ptr != block && ptr != quadrant && 0 < n == |b| && Overshot(b, block[..]) && Quadrants(b, quadrant[..])
    requires dSt <= 15 && loSt <= hiSt < loSt + 900000 && Agree(b, ptr[..], loSt, hiSt, dSt) && budget >= 0
    modifies ptr
    ensures Rearranged(old(ptr[..]), ptr[..], loSt, hiSt + 1)
    ensures left <= budget
    ensures left >= 0 ==> Keyed(Rank(b, n), ptr[..], loSt, hiSt) && SortedBy(Rank(b, n), ptr[..], loSt, hiSt)
  {
    ghost var s, r := ptr[..], Rank(b, n);
    left := budget;
    var stack := [Range(loSt, hiSt, dSt)];
    PendingStart(b, s, stack[0]);
    hide Rearranged, Overshot, Quadrants, Rank, Agree, Keyed, SortedBy;
    while |stack| > 0
      invariant Pending(b, r, s, ptr[..], stack, loSt, hiSt) && 0 <= left <= budget
      decreases DeepWork(stack, QSORT_DEPTH_THRESH)
    {
      assert |stack| < QSORT_STACK_SIZE - 2;
      stack, left := SortStep(ptr, block, quadrant, n, stack, left, b, r, s, loSt, hiSt);
      if left < 0 { return; }
    }
    PendingEnd(b, r, s, ptr[..], loSt, hiSt);
  }

  /** Sort the range on top of the stack by comparisons. */
  method SortTop(ptr: array<int>, block: array<int>, quadrant: array<int>, n: nat, ghost rest: seq<Range>, top: Range,
                 budget: int, ghost b: seq<int>, ghost r: seq<int>, ghost s: seq<int>, ghost lo: int, ghost hi: int)
    returns (left: int)
    requires ptr != block && ptr != quadrant && 0 < n == |b| && Overshot(b, block[..]) && Quadrants(b, quadrant[..])
    requires Pending(b, r, s, ptr[..], rest + [top], lo, hi)
    modifies ptr
    ensures left <= budget && Rearranged(s, ptr[..], lo, hi + 1)
    ensures left >= 0 ==> Pending(b, r, s, ptr[..], rest, lo, hi)
  {
    hide *;
    ghost var f := ptr[..];
    PendingTop(b, r, s, f, rest, top, lo, hi);
    PendingWhole(b, r, s, f, rest + [top], lo, hi);
    left := SimpleSort(ptr, block, quadrant, n, top.lo, top.hi, top.d, budget, b, r);
    if left >= 0 { PendingDrop(b, r, s, f, ptr[..], rest, top, lo, hi); }
    RearrangedWiden(f, ptr[..], top.lo, top.hi + 1, lo, hi + 1);
    RearrangedTrans(s, f, ptr[..], lo, hi + 1);
  }

  /** Sort the range on top of the stack, or replace it by its parts. */
  method SortStep(ptr: array<int>, block: array<int>, quadrant: array<int>, n: nat, stack: seq<Range>, budget: int,
                  ghost b: seq<int>, ghost r: seq<int>, ghost s: seq<int>, ghost lo: int, ghost hi: int)
    returns (next: seq<Range>, left: int)
    requires ptr != block && ptr != quadrant && 0 < n == |b| && Overshot(b, block[..]) && Quadrants(b, quadrant[..])
    requires Pending(b, r, s, ptr[..], stack, lo, hi) && |stack| > 0 && budget >= 0
    modifies ptr
    ensures left <= budget && Rearranged(s, ptr[..], lo, hi + 1)
    ensures left >= 0 ==> Pending(b, r, s, ptr[..], next, lo, hi)
    ensures DeepWork(next, QSORT_DEPTH_THRESH) < DeepWork(stack, QSORT_DEPTH_THRESH)
  {
    hide Pending, Overshot, Quadrants, Rank, Agree, Rearranged, Thirding, DeepWork;
    left := budget;
    var top, rest := stack[|stack| - 1], stack[..|stack| - 1];
    assert stack == rest + [top];
    if top.hi - top.lo < QSORT_SMALL_THRESH || top.d > QSORT_DEPTH_THRESH {
      PendingTop(b, r, s, ptr[..], rest, top, lo, hi);
      left := SortTop(ptr, block, quadrant, n, rest, top, left, b, r, s, lo, hi);
      next := rest;
    } else {
      next := SplitTop(ptr, block, n, rest, top, b, r, s, lo, hi);
      PendingWhole(b, r, s, ptr[..], next, lo, hi);
    }
  }

  lemma PendingWhole(b: seq<int>, r: seq<int>, s: seq<int>, f: seq<int>, st: seq<Range>, lo: int, hi: int)
    requires |b| > 0 && Pending(b, r, s, f, st, lo, hi)
    ensures Rearranged(s, f, lo, hi + 1) && hi < |f|
  {
  }
}
