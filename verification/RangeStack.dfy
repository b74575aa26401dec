/** The proof of a quicksort with an explicit stack of ranges still to be sorted. */
module RangeStack {
  import opened Sequences

  /** The cells lo..hi, whose members agree on their first d characters. */
  datatype Range = Range(lo: int, hi: int, d: nat) {
    predicate Holds(k: int) {
      lo <= k <= hi
    }

    function Size(): nat {
      if lo <= hi then hi - lo + 1 else 0
    }
  }

  /** All cells lo..hi of f hold indices of keys. */
  ghost predicate Keyed(e: seq<int>, f: seq<int>, lo: int, hi: int) {
    0 <= lo <= hi + 1 <= |f| && forall k :: lo <= k <= hi ==> 0 <= f[k] < |e|
  }

  /** The keys of cells lo..hi are in non-decreasing order. */
  ghost predicate SortedBy(e: seq<int>, f: seq<int>, lo: int, hi: int)
    requires Keyed(e, f, lo, hi)
  {
    forall j, k :: lo <= j < k <= hi ==> e[f[j]] <= e[f[k]]
  }

  ghost predicate Together(st: seq<Range>, j: int, k: int) {
    exists i :: 0 <= i < |st| && st[i].Holds(j) && st[i].Holds(k)
  }

  ghost predicate Disjoint(st: seq<Range>, lo: int, hi: int) {
    && (forall i, k :: 0 <= i < |st| && st[i].Holds(k) ==> lo <= k <= hi)
    && (forall i, j, k :: 0 <= i < j < |st| && st[i].Holds(k) ==> !st[j].Holds(k))
  }

  /** Any two cells are in order unless one range on the stack holds both. */
  ghost predicate Ordered(e: seq<int>, f: seq<int>, st: seq<Range>, lo: int, hi: int)
    requires Keyed(e, f, lo, hi)
  {
    forall j, k :: lo <= j < k <= hi ==> e[f[j]] <= e[f[k]] || Together(st, j, k)
  }

  lemma OrderedStart(e: seq<int>, f: seq<int>, r: Range)
    requires Keyed(e, f, r.lo, r.hi)
    ensures Ordered(e, f, [r], r.lo, r.hi) && Disjoint([r], r.lo, r.hi)
  {
    forall j, k | r.lo <= j < k <= r.hi ensures Together([r], j, k) {
      assert [r][0].Holds(j) && [r][0].Holds(k);
    }
  }

  lemma OrderedEnd(e: seq<int>, f: seq<int>, lo: int, hi: int)
    requires Keyed(e, f, lo, hi) && Ordered(e, f, [], lo, hi)
    ensures SortedBy(e, f, lo, hi)
  {
  }

  lemma KeyedRearranged(e: seq<int>, f: seq<int>, g: seq<int>, lo: int, hi: int, l: int, h: int)
    requires Keyed(e, f, lo, hi) && lo <= l <= h + 1 <= hi + 1
    requires Rearranged(f, g, l, h + 1)
    ensures Keyed(e, g, lo, hi)
  {
    forall k | lo <= k <= hi ensures 0 <= g[k] < |e| {
      if l <= k <= h { var j := RearrangedFrom(f, g, l, h + 1, k); }
    }
  }

  /** The range on top of the stack may be replaced by ranges inside it once its
      cells are in order up to those. */
  lemma Refine(e: seq<int>, f: seq<int>, g: seq<int>, rest: seq<Range>, r: Range, pieces: seq<Range>, lo: int, hi: int)
    requires Keyed(e, f, lo, hi) && Keyed(e, g, lo, hi)
    requires lo <= r.lo <= r.hi + 1 <= hi + 1
    requires Disjoint(rest + [r], lo, hi) && Ordered(e, f, rest + [r], lo, hi)
    requires Rearranged(f, g, r.lo, r.hi + 1)
    requires Disjoint(pieces, r.lo, r.hi) && Ordered(e, g, pieces, r.lo, r.hi)
    ensures Disjoint(rest + pieces, lo, hi) && Ordered(e, g, rest + pieces, lo, hi)
  {
    hide Rearranged, Disjoint, Together;
    RefineDisjoint(rest, r, pieces, lo, hi);
    forall j, k | lo <= j < k <= hi ensures e[g[j]] <= e[g[k]] || Together(rest + pieces, j, k) {
      if r.Holds(j) && r.Holds(k) {
        if Together(pieces, j, k) { TogetherIn(rest, pieces, j, k); }
      } else {
        RefineOutside(e, f, g, rest, r, pieces, lo, hi, j, k);
      }
    }
  }

  lemma TogetherIn(rest: seq<Range>, pieces: seq<Range>, j: int, k: int)
    ensures Together(pieces, j, k) ==> Together(rest + pieces, j, k)
    ensures Together(rest, j, k) ==> Together(rest + pieces, j, k)
  {
    if Together(pieces, j, k) {
      var i :| 0 <= i < |pieces| && pieces[i].Holds(j) && pieces[i].Holds(k);
      assert (rest + pieces)[|rest| + i] == pieces[i];
    }
    if Together(rest, j, k) {
      var i :| 0 <= i < |rest| && rest[i].Holds(j) && rest[i].Holds(k);
      assert (rest + pieces)[i] == rest[i];
    }
  }

  lemma RefineOutside(e: seq<int>, f: seq<int>, g: seq<int>, rest: seq<Range>, r: Range, pieces: seq<Range>,
                      lo: int, hi: int, j: int, k: int)
    requires Keyed(e, f, lo, hi) && Keyed(e, g, lo, hi)
    requires lo <= r.lo <= r.hi + 1 <= hi + 1
    requires Disjoint(rest + [r], lo, hi) && Ordered(e, f, rest + [r], lo, hi)
    requires Rearranged(f, g, r.lo, r.hi + 1)
    requires lo <= j < k <= hi && !(r.Holds(j) && r.Holds(k))
    ensures e[g[j]] <= e[g[k]] || Together(rest + pieces, j, k)
  {
    var j', k' := j, k;
    if r.Holds(j) { j' := RearrangedFrom(f, g, r.lo, r.hi + 1, j); }
    if r.Holds(k) { k' := RearrangedFrom(f, g, r.lo, r.hi + 1, k); }
    assert f[j'] == g[j] && f[k'] == g[k] && j' < k';
    if Together(rest + [r], j', k') {
      OutsideTogether(rest, r, lo, hi, j', k');
      TogetherIn(rest, pieces, j, k);
    }
  }

  lemma OutsideTogether(rest: seq<Range>, r: Range, lo: int, hi: int, j: int, k: int)
    requires Disjoint(rest + [r], lo, hi) && Together(rest + [r], j, k) && !(r.Holds(j) && r.Holds(k))
    ensures Together(rest, j, k) && !r.Holds(j) && !r.Holds(k)
  {
    var t := rest + [r];
    var i :| 0 <= i < |t| && t[i].Holds(j) && t[i].Holds(k);
    assert t[|rest|] == r;
    assert t[i] == rest[i];
  }

  lemma RefineDisjoint(rest: seq<Range>, r: Range, pieces: seq<Range>, lo: int, hi: int)
    requires Disjoint(rest + [r], lo, hi) && lo <= r.lo && r.hi <= hi
    requires Disjoint(pieces, r.lo, r.hi)
    ensures Disjoint(rest + pieces, lo, hi)
  {
    var s, t := rest + pieces, rest + [r];
    assert forall i :: 0 <= i < |rest| ==> s[i] == rest[i] == t[i];
    assert forall i :: |rest| <= i < |s| ==> s[i] == pieces[i - |rest|];
    assert t[|rest|] == r;
  }

  /** n halved k times: the size bound of the range at height k of a two-way quicksort's stack. */
  function Halved(n: nat, k: nat): nat {
    if k == 0 then n else Halved(n, k - 1) / 2
  }

  lemma {:induction false} HalvedMono(n: nat, j: nat, k: nat)
    requires j <= k
    ensures Halved(n, k) <= Halved(n, j)
  {
    if j < k { HalvedMono(n, j, k - 1); }
  }

  lemma {:induction false} HalvedBound(n: nat, m: nat, k: nat)
    requires n <= m
    ensures Halved(n, k) <= Halved(m, k)
  {
    if k > 0 { HalvedBound(n, m, k - 1); }
  }

  ghost predicate Halving(st: seq<Range>, n: nat) {
    forall i :: 0 <= i < |st| ==> st[i].Size() <= Halved(n, i)
  }

  /** A range of more than ten cells is never found high on the stack. */
  lemma HeightBound(n: nat, k: nat)
    requires n <= 900000 && Halved(n, k) > 10
    ensures k < 17
  {
    assert Halved(900000, 2) == 225000 && Halved(900000, 4) == 56250;
    assert Halved(900000, 6) == 14062 && Halved(900000, 8) == 3515;
    assert Halved(900000, 10) == 878 && Halved(900000, 12) == 219;
    assert Halved(900000, 14) == 54 && Halved(900000, 16) == 13;
    HalvedBound(n, 900000, k);
    if k >= 17 { HalvedMono(900000, 17, k); }
  }

  /** Every range lies within lo..hi. */
  ghost predicate Within(st: seq<Range>, lo: int, hi: int) {
    forall i :: 0 <= i < |st| ==> lo <= st[i].lo <= st[i].hi + 1 <= hi + 1
  }

  /** The work left: enough for each range to be split, or emptied of its pivots. */
  function Work(st: seq<Range>): nat {
    if st == [] then 0 else Work(st[..|st| - 1]) + 1 + 2 * st[|st| - 1].Size()
  }

  lemma WorkPush(st: seq<Range>, r: Range)
    ensures Work(st + [r]) == Work(st) + 1 + 2 * r.Size()
  {
    assert (st + [r])[..|st|] == st;
  }

  /** Replacing a range of more than ten cells by two disjoint smaller ones, the
      larger below the smaller, keeps the stack low and makes progress. */
  lemma PushTwo(rest: seq<Range>, r: Range, a: Range, b: Range, n: nat)
    requires Halving(rest + [r], n) && n <= 900000
    requires r.Size() > 10 && a.Size() >= b.Size() && a.Size() + b.Size() < r.Size()
    ensures Halving(rest + [a] + [b], n)
    ensures |rest| < 17
    ensures Work(rest + [a] + [b]) < Work(rest + [r])
  {
    hide Work;
    var t := rest + [a] + [b];
    assert (rest + [r])[|rest|] == r;
    HeightBound(n, |rest|);
    forall i | 0 <= i < |t| ensures t[i].Size() <= Halved(n, i) {
      if i < |rest| { assert t[i] == (rest + [r])[i]; }
    }
    WorkPush(rest, r);
    WorkPush(rest, a);
    WorkPush(rest + [a], b);
  }

  /** The size bound at height k of the stack of a quicksort that pushes three ranges,
      the largest first: two levels up it is a third, one level up at least a half. */
  function Thirded(n: nat, k: nat): nat {
    if k == 0 then n else if k == 1 then n / 2 else Thirded(n, k - 2) / 3
  }

  lemma {:induction false} ThirdedHalf(n: nat, k: nat)
    ensures Thirded(n, k) / 2 <= Thirded(n, k + 1) <= Thirded(n, k)
  {
    if k >= 2 { ThirdedHalf(n, k - 2); }
  }

  lemma {:induction false} ThirdedBound(n: nat, m: nat, k: nat)
    requires n <= m
    ensures Thirded(n, k) <= Thirded(m, k)
  {
    if k >= 2 { ThirdedBound(n, m, k - 2); }
  }

  lemma {:induction false} ThirdedMono(n: nat, j: nat, k: nat)
    requires j <= k
    ensures Thirded(n, k) <= Thirded(n, j)
  {
    if j < k {
      ThirdedMono(n, j, k - 1);
      ThirdedHalf(n, k - 1);
    }
  }

  ghost predicate Thirding(st: seq<Range>, n: nat) {
    forall i :: 0 <= i < |st| ==> st[i].Size() <= Thirded(n, i)
  }

  /** A range of more than twenty cells is never found high on the stack. */
  lemma ThirdedHeight(n: nat, k: nat)
    requires n <= 900000 && Thirded(n, k) > 20
    ensures k < 20
  {
    assert Thirded(900000, 4) == 100000 && Thirded(900000, 8) == 11111;
    assert Thirded(900000, 12) == 1234 && Thirded(900000, 16) == 137 && Thirded(900000, 20) == 15;
    ThirdedBound(n, 900000, k);
    if k >= 20 { ThirdedMono(900000, 20, k); }
  }

  /** The work left when ranges of greater depth, up to dmax, need less of it. */
  function DeepWork(st: seq<Range>, dmax: nat): nat {
    if st == [] then 0 else DeepWork(st[..|st| - 1], dmax) + RangeWork(st[|st| - 1], dmax)
  }

  function RangeWork(r: Range, dmax: nat): (w: nat)
    ensures w > 0
  {
    if r.d > dmax then 1 else 1 + 3 * Scaled(r.Size(), dmax + 1 - r.d)
  }

  /** size * k, by addition */
  function Scaled(size: nat, k: nat): nat {
    if k == 0 then 0 else size + Scaled(size, k - 1)
  }

  lemma {:induction false} ScaledSum(u: nat, v: nat, t: nat, k: nat)
    ensures Scaled(u + v + t, k) == Scaled(u, k) + Scaled(v, k) + Scaled(t, k)
  {
    if k > 0 { ScaledSum(u, v, t, k - 1); }
  }

  lemma DeepWorkPush(st: seq<Range>, r: Range, dmax: nat)
    ensures DeepWork(st + [r], dmax) == DeepWork(st, dmax) + RangeWork(r, dmax)
  {
    assert (st + [r])[..|st|] == st;
  }
}
