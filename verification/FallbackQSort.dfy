/** The quicksort of the fallback block sort, with its own stack. */
module FallbackQSort {
  import opened Partitioning
  import opened RangeStack
  import opened Sequences

  /** Insertion sort, after a pass at distance four. */
  method SimpleSort(fmap: array<int>, eclass: array<int>, ghost e: seq<int>, lo: int, hi: int)
    requires fmap != eclass && e == eclass[..] && Keyed(e, fmap[..], lo, hi)
    modifies fmap
    ensures Rearranged(old(fmap[..]), fmap[..], lo, hi + 1)
    ensures Keyed(e, fmap[..], lo, hi) && SortedBy(e, fmap[..], lo, hi)
  {
    hide Rearranged;
    ghost var s := fmap[..];
    RearrangedSelf(s, lo, hi + 1);
    if lo == hi { return; }
    if hi - lo > 3 {
      var i := hi - 4;
      while i >= lo
        invariant lo - 1 <= i <= hi - 4
        invariant Rearranged(s, fmap[..], lo, hi + 1)
        invariant Keyed(e, fmap[..], lo, hi)
      {
        ghost var t := fmap[..];
        Insert(fmap, eclass, e, lo, hi, i, 4);
        RearrangedTrans(s, t, fmap[..], lo, hi + 1);
        i := i - 1;
      }
    }
    var i := hi - 1;
    while i >= lo
      invariant i <= hi - 1 && (lo <= hi ==> lo - 1 <= i)
      invariant Rearranged(s, fmap[..], lo, hi + 1)
      invariant Keyed(e, fmap[..], lo, hi)
      invariant lo <= hi ==> SortedBy(e, fmap[..], i + 1, hi)
    {
      ghost var t := fmap[..];
      Insert(fmap, eclass, e, lo, hi, i, 1);
      RearrangedTrans(s, t, fmap[..], lo, hi + 1);
      i := i - 1;
    }
  }

  /** Move cell i up past the cells at multiples of h that hold smaller keys. */
  method Insert(fmap: array<int>, eclass: array<int>, ghost e: seq<int>, lo: int, hi: int, i: int, h: int)
    requires fmap != eclass && e == eclass[..] && Keyed(e, fmap[..], lo, hi)
    requires lo <= i <= hi && h > 0
    modifies fmap
    ensures Rearranged(old(fmap[..]), fmap[..], lo, hi + 1)
    ensures Keyed(e, fmap[..], lo, hi)
    ensures h == 1 && old(SortedBy(e, fmap[..], i + 1, hi)) ==> SortedBy(e, fmap[..], i, hi)
  {
    hide Rearranged;
    ghost var s := fmap[..];
    RearrangedSelf(s, lo, hi + 1);
    var tmp := fmap[i];
    var ecTmp := eclass[tmp];
    var j := i + h;
    assert s[i := tmp] == s;
    while j <= hi && ecTmp > eclass[fmap[j]]
      invariant i + h <= j <= hi + h
      invariant Rearranged(s, fmap[..][j - h := tmp], lo, hi + 1)
      invariant Keyed(e, fmap[..], lo, hi)
      invariant forall k :: j <= k <= hi ==> fmap[k] == s[k]
      invariant h == 1 ==> forall k :: i <= k < j - 1 ==> fmap[k] == s[k + 1] && e[fmap[k]] < ecTmp
    {
      ghost var f := fmap[..];
      fmap[j - h] := fmap[j];
      RearrangedHole(s, f, fmap[..], lo, hi + 1, j - h, j, tmp);
      j := j + h;
    }
    fmap[j - h] := tmp;
    assert fmap[..] == fmap[..][j - h := tmp];
  }

  const QSORT_SMALL_THRESH := 10
  const QSORT_STACK_SIZE := 100

  /** Partitioned around a pivot, a range is in order up to its two outer parts. */
  lemma PartedPieces(e: seq<int>, f: seq<int>, med: int, lo: int, n: int, m: int, hi: int)
    requires Parted(e, f, med, lo, n, m, hi)
    ensures Ordered(e, f, [Range(lo, n, 0), Range(m, hi, 0)], lo, hi)
    ensures Ordered(e, f, [Range(m, hi, 0), Range(lo, n, 0)], lo, hi)
    ensures Disjoint([Range(lo, n, 0), Range(m, hi, 0)], lo, hi)
    ensures Disjoint([Range(m, hi, 0), Range(lo, n, 0)], lo, hi)
  {
    var a, b := Range(lo, n, 0), Range(m, hi, 0);
    assert [a, b][0] == a && [a, b][1] == b && [b, a][0] == b && [b, a][1] == a;
    forall j, k | lo <= j < k <= hi
      ensures e[f[j]] <= e[f[k]] || (Together([a, b], j, k) && Together([b, a], j, k))
    {
    }
  }

  /** What the quicksort of cells lo..hi keeps between steps. */
  ghost predicate Pending(e: seq<int>, s: seq<int>, f: seq<int>, st: seq<Range>, lo: int, hi: int) {
    && 0 <= lo <= hi < lo + 900000
    && Keyed(e, f, lo, hi) && Rearranged(s, f, lo, hi + 1)
    && |st| <= 19 && Within(st, lo, hi) && Disjoint(st, lo, hi) && Halving(st, hi - lo + 1)
    && Ordered(e, f, st, lo, hi)
  }

  lemma PendingStart(e: seq<int>, s: seq<int>, r: Range)
    requires 0 <= r.lo <= r.hi < r.lo + 900000 && Keyed(e, s, r.lo, r.hi)
    ensures Pending(e, s, s, [r], r.lo, r.hi)
  {
    OrderedStart(e, s, r);
    RearrangedSelf(s, r.lo, r.hi + 1);
  }

  lemma PendingTop(e: seq<int>, s: seq<int>, f: seq<int>, rest: seq<Range>, r: Range, lo: int, hi: int)
    requires Pending(e, s, f, rest + [r], lo, hi)
    ensures lo <= r.lo <= r.hi + 1 <= hi + 1 && Keyed(e, f, r.lo, r.hi)
    ensures |rest| < 19 && Work(rest) < Work(rest + [r])
  {
    assert (rest + [r])[|rest|] == r;
    WorkPush(rest, r);
  }

  /** The top range, once in order up to some smaller ranges inside it, is replaced by those. */
  lemma PendingReplace(e: seq<int>, s: seq<int>, f: seq<int>, g: seq<int>,
                       rest: seq<Range>, r: Range, pieces: seq<Range>, lo: int, hi: int)
    requires Pending(e, s, f, rest + [r], lo, hi)
    requires Rearranged(f, g, r.lo, r.hi + 1) && Keyed(e, g, r.lo, r.hi)
    requires Within(pieces, r.lo, r.hi) && Disjoint(pieces, r.lo, r.hi) && Ordered(e, g, pieces, r.lo, r.hi)
    requires Halving(rest + pieces, hi - lo + 1) && |rest + pieces| <= 19
    ensures Pending(e, s, g, rest + pieces, lo, hi)
  {
    hide Ordered, Disjoint, Rearranged, Halving;
    assert (rest + [r])[|rest|] == r;
    KeyedRearranged(e, f, g, lo, hi, r.lo, r.hi);
    Refine(e, f, g, rest, r, pieces, lo, hi);
    RearrangedWiden(f, g, r.lo, r.hi + 1, lo, hi + 1);
    RearrangedTrans(s, f, g, lo, hi + 1);
    forall i | 0 <= i < |rest + pieces|
      ensures lo <= (rest + pieces)[i].lo <= (rest + pieces)[i].hi + 1 <= hi + 1
    {
      if i < |rest| { assert (rest + pieces)[i] == (rest + [r])[i]; }
    }
  }

  lemma PendingDrop(e: seq<int>, s: seq<int>, f: seq<int>, g: seq<int>, rest: seq<Range>, r: Range, lo: int, hi: int)
    requires Pending(e, s, f, rest + [r], lo, hi)
    requires Rearranged(f, g, r.lo, r.hi + 1) && Keyed(e, g, r.lo, r.hi) && SortedBy(e, g, r.lo, r.hi)
    ensures Pending(e, s, g, rest, lo, hi)
  {
    assert rest + [] == rest;
    forall i | 0 <= i < |rest| ensures rest[i].Size() <= Halved(hi - lo + 1, i) {
      assert rest[i] == (rest + [r])[i];
    }
    PendingReplace(e, s, f, g, rest, r, [], lo, hi);
  }

  /** The larger part is pushed first, so the smaller one is sorted next. */
  lemma PendingSplit(e: seq<int>, s: seq<int>, f: seq<int>, g: seq<int>, med: int,
                     rest: seq<Range>, r: Range, n: int, m: int, st: seq<Range>, lo: int, hi: int)
    requires Pending(e, s, f, rest + [r], lo, hi)
    requires r.hi - r.lo >= 10 && n + 1 < m
    requires Rearranged(f, g, r.lo, r.hi + 1) && Parted(e, g, med, r.lo, n, m, r.hi)
    requires st == if n - r.lo > r.hi - m then rest + [Range(r.lo, n, 0)] + [Range(m, r.hi, 0)]
                   else rest + [Range(m, r.hi, 0)] + [Range(r.lo, n, 0)]
    ensures Pending(e, s, g, st, lo, hi) && Work(st) < Work(rest + [r])
  {
    hide Disjoint, Halving, Ordered, Pending, Rearranged, Work;
    var low, high := Range(r.lo, n, 0), Range(m, r.hi, 0);
    PartedPieces(e, g, med, r.lo, n, m, r.hi);
    if n - r.lo > r.hi - m {
      PendingTwo(e, s, f, g, rest, r, low, high, lo, hi);
    } else {
      PendingTwo(e, s, f, g, rest, r, high, low, lo, hi);
    }
  }

  lemma PendingTwo(e: seq<int>, s: seq<int>, f: seq<int>, g: seq<int>,
                   rest: seq<Range>, r: Range, a: Range, b: Range, lo: int, hi: int)
    requires Pending(e, s, f, rest + [r], lo, hi)
    requires r.Size() > 10 && a.Size() >= b.Size() && a.Size() + b.Size() < r.Size()
    requires Rearranged(f, g, r.lo, r.hi + 1) && Keyed(e, g, r.lo, r.hi)
    requires Within([a, b], r.lo, r.hi) && Disjoint([a, b], r.lo, r.hi) && Ordered(e, g, [a, b], r.lo, r.hi)
    ensures Pending(e, s, g, rest + [a] + [b], lo, hi) && Work(rest + [a] + [b]) < Work(rest + [r])
  {
    hide Disjoint, Halving, Ordered, Rearranged, Within, Work;
    PushTwo(rest, r, a, b, hi - lo + 1);
    assert rest + [a, b] == rest + [a] + [b];
    PendingReplace(e, s, f, g, rest, r, [a, b], lo, hi);
  }

  lemma AllEqualSorted(e: seq<int>, f: seq<int>, med: int, lo: int, hi: int)
    requires Keyed(e, f, lo, hi) && AllEqual(e, f, med, lo, hi)
    ensures SortedBy(e, f, lo, hi)
  {
  }

  lemma PendingEnd(e: seq<int>, s: seq<int>, f: seq<int>, lo: int, hi: int)
    requires Pending(e, s, f, [], lo, hi)
    ensures Rearranged(s, f, lo, hi + 1) && Keyed(e, f, lo, hi) && SortedBy(e, f, lo, hi)
  {
    OrderedEnd(e, f, lo, hi);
  }

  /** Pseudo-random choice of the cell whose key becomes the pivot. */
  method PickPivot(r: int, lo: int, hi: int) returns (next: int, mid: int)
    requires lo <= hi
    ensures lo <= mid <= hi
  {
    next := (r * 7621 + 1) % 32768;
    var r3 := next % 3;
    mid := if r3 == 0 then lo else if r3 == 1 then (lo + hi) / 2 else hi;
  }

  /** Sort the range on top of the stack, or replace it by its two outer parts. */
  method SortStep(fmap: array<int>, eclass: array<int>, ghost e: seq<int>, ghost s: seq<int>,
                  stack: seq<Range>, seed: int, ghost loSt: int, ghost hiSt: int)
    returns (next: seq<Range>, r: int)
    requires fmap != eclass && e == eclass[..]
    requires Pending(e, s, fmap[..], stack, loSt, hiSt) && 0 < |stack| < QSORT_STACK_SIZE - 1
    modifies fmap
    ensures Pending(e, s, fmap[..], next, loSt, hiSt) && Work(next) < Work(stack)
  {
    hide Pending, Rearranged, Keyed, SortedBy, Parted, AllEqual, Work;
    ghost var f := fmap[..];
    r := seed;
    var top, rest := stack[|stack| - 1], stack[..|stack| - 1];
    assert stack == rest + [top];
    PendingTop(e, s, f, rest, top, loSt, hiSt);
    var lo, hi := top.lo, top.hi;
    if hi - lo < QSORT_SMALL_THRESH {
      SimpleSort(fmap, eclass, e, lo, hi);
      PendingDrop(e, s, f, fmap[..], rest, top, loSt, hiSt);
      return rest, r;
    }
    var mid;
    r, mid := PickPivot(r, lo, hi);
    var med := eclass[fmap[mid]];
    assert e == eclass[0..];
    var done, n, m := ThreeWay(fmap, eclass, 0, e, lo, hi, med, mid);
    if done {
      assert SortedBy(e, fmap[..], lo, hi) by { AllEqualSorted(e, fmap[..], med, lo, hi); }
      PendingDrop(e, s, f, fmap[..], rest, top, loSt, hiSt);
      return rest, r;
    }
    if n - lo > hi - m {
      next := rest + [Range(lo, n, 0)] + [Range(m, hi, 0)];
    } else {
      next := rest + [Range(m, hi, 0)] + [Range(lo, n, 0)];
    }
    PendingSplit(e, s, f, fmap[..], med, rest, top, n, m, next, loSt, hiSt);
  }

  /** Quicksort with its own stack, sorting cells loSt..hiSt of fmap by their keys. */
  method QSort3(fmap: array<int>, eclass: array<int>, ghost e: seq<int>, loSt: int, hiSt: int)
    requires fmap != eclass && e == eclass[..] && Keyed(e, fmap[..], loSt, hiSt)
    requires loSt <= hiSt < loSt + 900000
    modifies fmap
    ensures Rearranged(old(fmap[..]), fmap[..], loSt, hiSt + 1)
    ensures Keyed(e, fmap[..], loSt, hiSt) && SortedBy(e, fmap[..], loSt, hiSt)
  {
    ghost var s := fmap[..];
    var r := 0;
    var stack := [Range(loSt, hiSt, 0)];
    PendingStart(e, s, stack[0]);
    while |stack| > 0
      invariant Pending(e, s, fmap[..], stack, loSt, hiSt)
      decreases Work(stack)
    {
      assert |stack| < QSORT_STACK_SIZE - 1;
      stack, r := SortStep(fmap, eclass, e, s, stack, r, loSt, hiSt);
    }
    PendingEnd(e, s, fmap[..], loSt, hiSt);
  }
}
