/** Three-way partitioning of a range of cells, common to both quicksorts.

    A cell holds an index x; its key is keys[x + d], for a fixed offset d.
 */
module Partitioning {
  import opened RangeStack
  import opened Sequences

  /** `t` is `s` with the n cells from p exchanged with the n cells from q. */
  ghost predicate Exchanged(s: seq<int>, t: seq<int>, p: int, q: int, n: int) {
    && 0 <= p && 0 <= n && p + n <= q && q + n <= |s| == |t|
    && (forall k {:trigger t[k]} :: p <= k < p + n ==> t[k] == s[k + (q - p)])
    && (forall k {:trigger t[k]} :: q <= k < q + n ==> t[k] == s[k - (q - p)])
    && (forall k {:trigger t[k]} :: 0 <= k < p || p + n <= k < q || q + n <= k < |s| ==> t[k] == s[k])
  }

  lemma ExchangedStep(s: seq<int>, f: seq<int>, g: seq<int>, p: int, q: int, i: int)
    requires Exchanged(s, f, p, q, i) && p + i < q && q + i < |s|
    requires |g| == |f| && g[p + i] == f[q + i] && g[q + i] == f[p + i]
    requires forall k :: 0 <= k < |f| && k != p + i && k != q + i ==> g[k] == f[k]
    ensures Exchanged(s, g, p, q, i + 1)
  {
  }

  /** Exchange the n cells from p with the n cells from q. */
  method SwapCells(fmap: array<int>, p: int, q: int, n: int, ghost s: seq<int>, ghost lo: int, ghost hi: int)
    requires 0 <= lo <= p && 0 <= n && p + n <= q && q + n <= hi <= fmap.Length
    requires Rearranged(s, fmap[..], lo, hi)
    modifies fmap
    ensures Rearranged(s, fmap[..], lo, hi)
    ensures Exchanged(old(fmap[..]), fmap[..], p, q, n)
  {
    hide Rearranged;
    ghost var t := fmap[..];
    assert Exchanged(t, t, p, q, 0);
    hide Exchanged;
    var i := 0;
    while i < n
      invariant 0 <= i <= n
      invariant Rearranged(s, fmap[..], lo, hi)
      invariant Exchanged(t, fmap[..], p, q, i)
    {
      ghost var f := fmap[..];
      Swap(fmap, p + i, q + i, s, lo, hi);
      ExchangedStep(t, f, fmap[..], p, q, i);
      i := i + 1;
    }
  }

  method Swap(a: array<int>, i: int, j: int, ghost s: seq<int>, ghost lo: int, ghost hi: int)
    requires 0 <= lo <= i < hi && lo <= j < hi && hi <= a.Length
    requires Rearranged(s, a[..], lo, hi)
    modifies a
    ensures Rearranged(s, a[..], lo, hi)
    ensures a[i] == old(a[j]) && a[j] == old(a[i])
    ensures forall k :: 0 <= k < a.Length && k != i && k != j ==> a[k] == old(a[k])
  {
    ghost var f := a[..];
    a[i], a[j] := a[j], a[i];
    RearrangedSwap(f, lo, hi, i, j);
    RearrangedTrans(s, f, a[..], lo, hi);
  }

  /** Cells lo..hi around a pivot key, while being partitioned from both ends: equal
      keys at the far ends, then smaller (larger) ones, then those not yet looked at. */
  ghost predicate Split(e: seq<int>, f: seq<int>, med: int,
                        lo: int, ltLo: int, unLo: int, unHi: int, gtHi: int, hi: int)
  {
    && Keyed(e, f, lo, hi)
    && lo <= ltLo <= unLo <= unHi + 1 <= gtHi + 1 <= hi + 1
    && (forall k :: lo <= k < ltLo ==> e[f[k]] == med)
    && (forall k :: ltLo <= k < unLo ==> e[f[k]] < med)
    && (forall k :: unHi < k <= gtHi ==> e[f[k]] > med)
    && (forall k :: gtHi < k <= hi ==> e[f[k]] == med)
  }

  lemma SplitSwap(e: seq<int>, f: seq<int>, g: seq<int>, med: int,
                  lo: int, ltLo: int, unLo: int, unHi: int, gtHi: int, hi: int)
    requires Split(e, f, med, lo, ltLo, unLo, unHi, gtHi, hi)
    requires unLo < unHi && e[f[unLo]] > med && e[f[unHi]] < med
    requires |g| == |f| && g[unLo] == f[unHi] && g[unHi] == f[unLo]
    requires forall k :: 0 <= k < |f| && k != unLo && k != unHi ==> g[k] == f[k]
    ensures Split(e, g, med, lo, ltLo, unLo + 1, unHi - 1, gtHi, hi)
  {
  }

  /** Partition cells lo..hi around the key med. */
  method Partition(fmap: array<int>, keys: array<int>, d: nat, ghost e: seq<int>, lo: int, hi: int, med: int)
    returns (ltLo: int, unLo: int, unHi: int, gtHi: int)
    requires fmap != keys && d <= keys.Length && e == keys[d..] && Keyed(e, fmap[..], lo, hi) && lo <= hi
    modifies fmap
    ensures Rearranged(old(fmap[..]), fmap[..], lo, hi + 1)
    ensures Split(e, fmap[..], med, lo, ltLo, unLo, unHi, gtHi, hi)
    ensures unHi == unLo - 1
  {
    ghost var s := fmap[..];
    RearrangedSelf(s, lo, hi + 1);
    unLo, ltLo := lo, lo;
    unHi, gtHi := hi, hi;
    assert Split(e, s, med, lo, ltLo, unLo, unHi, gtHi, hi);
    hide Rearranged, Split, Keyed;
    while true
      invariant Rearranged(s, fmap[..], lo, hi + 1)
      invariant Split(e, fmap[..], med, lo, ltLo, unLo, unHi, gtHi, hi)
      decreases unHi - unLo
    {
      ltLo, unLo := ScanUp(fmap, keys, d, e, lo, hi, med, ltLo, unLo, unHi, gtHi, s);
      unHi, gtHi := ScanDown(fmap, keys, d, e, lo, hi, med, ltLo, unLo, unHi, gtHi, s);
      if unLo > unHi { break; }
      SwapEnds(fmap, e, lo, hi, med, ltLo, unLo, unHi, gtHi, s);
      unLo, unHi := unLo + 1, unHi - 1;
    }
  }

  method SwapEnds(fmap: array<int>, ghost e: seq<int>, ghost lo: int, ghost hi: int, ghost med: int,
                  ghost ltLo: int, unLo: int, unHi: int, ghost gtHi: int, ghost s: seq<int>)
    requires 0 <= lo <= unLo < unHi <= hi < fmap.Length
    requires Rearranged(s, fmap[..], lo, hi + 1)
    requires Split(e, fmap[..], med, lo, ltLo, unLo, unHi, gtHi, hi)
    requires e[fmap[unLo]] > med && e[fmap[unHi]] < med
    modifies fmap
    ensures Rearranged(s, fmap[..], lo, hi + 1)
    ensures Split(e, fmap[..], med, lo, ltLo, unLo + 1, unHi - 1, gtHi, hi)
  {
    hide Rearranged;
    ghost var f := fmap[..];
    Swap(fmap, unLo, unHi, s, lo, hi + 1);
    SplitSwap(e, f, fmap[..], med, lo, ltLo, unLo, unHi, gtHi, hi);
  }

  method ScanUp(fmap: array<int>, keys: array<int>, d: nat, ghost e: seq<int>, lo: int, hi: int, med: int,
                ltLo0: int, unLo0: int, unHi: int, gtHi: int, ghost s: seq<int>)
    returns (ltLo: int, unLo: int)
    requires fmap != keys && d <= keys.Length && e == keys[d..] && 0 <= lo <= hi && Rearranged(s, fmap[..], lo, hi + 1)
    requires Split(e, fmap[..], med, lo, ltLo0, unLo0, unHi, gtHi, hi)
    modifies fmap
    ensures Rearranged(s, fmap[..], lo, hi + 1)
    ensures Split(e, fmap[..], med, lo, ltLo, unLo, unHi, gtHi, hi)
    ensures unLo0 <= unLo && (unLo <= unHi ==> e[fmap[unLo]] > med)
  {
    hide Rearranged;
    ltLo, unLo := ltLo0, unLo0;
    while unLo <= unHi
      invariant Rearranged(s, fmap[..], lo, hi + 1)
      invariant Split(e, fmap[..], med, lo, ltLo, unLo, unHi, gtHi, hi)
      invariant unLo0 <= unLo
    {
      var n := keys[fmap[unLo] + d] - med;
      assert n == e[fmap[unLo]] - med;
      if n == 0 {
        Swap(fmap, unLo, ltLo, s, lo, hi + 1);
        ltLo, unLo := ltLo + 1, unLo + 1;
        continue;
      }
      if n > 0 { break; }
      unLo := unLo + 1;
    }
  }

  method ScanDown(fmap: array<int>, keys: array<int>, d: nat, ghost e: seq<int>, lo: int, hi: int, med: int,
                  ltLo: int, unLo: int, unHi0: int, gtHi0: int, ghost s: seq<int>)
    returns (unHi: int, gtHi: int)
    requires fmap != keys && d <= keys.Length && e == keys[d..] && 0 <= lo <= hi && Rearranged(s, fmap[..], lo, hi + 1)
    requires Split(e, fmap[..], med, lo, ltLo, unLo, unHi0, gtHi0, hi)
    requires unLo <= unHi0 ==> e[fmap[unLo]] > med
    modifies fmap
    ensures Rearranged(s, fmap[..], lo, hi + 1)
    ensures Split(e, fmap[..], med, lo, ltLo, unLo, unHi, gtHi, hi)
    ensures unLo - 1 <= unHi <= unHi0
    ensures unLo <= unHi ==>
              lo <= unLo < unHi <= hi && e[fmap[unLo]] > med && e[fmap[unHi]] < med
  {
    hide Rearranged;
    unHi, gtHi := unHi0, gtHi0;
    while unLo <= unHi
      invariant Rearranged(s, fmap[..], lo, hi + 1)
      invariant Split(e, fmap[..], med, lo, ltLo, unLo, unHi, gtHi, hi)
      invariant unHi <= unHi0
      invariant unLo <= unHi ==> e[fmap[unLo]] > med
    {
      var n := keys[fmap[unHi] + d] - med;
      assert n == e[fmap[unHi]] - med;
      if n == 0 {
        Swap(fmap, unHi, gtHi, s, lo, hi + 1);
        unHi, gtHi := unHi - 1, gtHi - 1;
        continue;
      }
      if n < 0 { break; }
      unHi := unHi - 1;
    }
  }

  /** Cells lo..n hold smaller keys than the pivot, n+1..m-1 equal ones, m..hi larger ones. */
  ghost predicate Parted(e: seq<int>, f: seq<int>, med: int, lo: int, n: int, m: int, hi: int) {
    && Keyed(e, f, lo, hi)
    && lo <= n + 1 <= m <= hi + 1
    && (forall k :: lo <= k <= n ==> e[f[k]] < med)
    && (forall k :: n < k < m ==> e[f[k]] == med)
    && (forall k :: m <= k <= hi ==> e[f[k]] > med)
  }

  lemma GatherLow(e: seq<int>, s: seq<int>, t: seq<int>, med: int,
                  lo: int, ltLo: int, unLo: int, unHi: int, gtHi: int, hi: int, n: int)
    requires Split(e, s, med, lo, ltLo, unLo, unHi, gtHi, hi) && unHi == unLo - 1
    requires n == if ltLo - lo < unLo - ltLo then ltLo - lo else unLo - ltLo
    requires Exchanged(s, t, lo, unLo - n, n)
    ensures forall k :: lo <= k < lo + unLo - ltLo ==> 0 <= t[k] < |e| && e[t[k]] < med
    ensures forall k :: lo + unLo - ltLo <= k < unLo ==> 0 <= t[k] < |e| && e[t[k]] == med
    ensures forall k :: unLo <= k <= hi ==> t[k] == s[k]
  {
  }

  lemma GatherParted(e: seq<int>, s: seq<int>, t: seq<int>, u: seq<int>, med: int,
                     lo: int, ltLo: int, unLo: int, unHi: int, gtHi: int, hi: int, n: int, m: int)
    requires Split(e, s, med, lo, ltLo, unLo, unHi, gtHi, hi) && unHi == unLo - 1
    requires n == if ltLo - lo < unLo - ltLo then ltLo - lo else unLo - ltLo
    requires m == if hi - gtHi < gtHi - unHi then hi - gtHi else gtHi - unHi
    requires Exchanged(s, t, lo, unLo - n, n) && Exchanged(t, u, unLo, hi - m + 1, m)
    ensures Parted(e, u, med, lo, lo + unLo - ltLo - 1, hi - (gtHi - unHi) + 1, hi)
  {
    GatherLow(e, s, t, med, lo, ltLo, unLo, unHi, gtHi, hi, n);
    var high := hi - (gtHi - unHi) + 1;
    assert forall k :: unLo <= k < high ==> 0 <= u[k] < |e| && e[u[k]] == med;
    assert forall k :: high <= k <= hi ==> 0 <= u[k] < |e| && e[u[k]] > med;
    assert forall k :: lo <= k < unLo ==> u[k] == t[k];
  }

  /** Bring the equal keys from both ends into the middle. */
  method Gather(fmap: array<int>, ghost e: seq<int>, med: int,
                lo: int, ltLo: int, unLo: int, unHi: int, gtHi: int, hi: int)
    returns (n: int, m: int)
    requires Split(e, fmap[..], med, lo, ltLo, unLo, unHi, gtHi, hi)
    requires unHi == unLo - 1 && lo <= hi
    modifies fmap
    ensures Rearranged(old(fmap[..]), fmap[..], lo, hi + 1)
    ensures Parted(e, fmap[..], med, lo, n, m, hi)
  {
    hide Rearranged;
    hide Exchanged;
    hide Parted;
    assert 0 <= lo <= ltLo <= unLo <= gtHi + 1 <= hi + 1 <= fmap.Length;
    hide Split;
    ghost var s := fmap[..];
    RearrangedSelf(s, lo, hi + 1);
    n := if ltLo - lo < unLo - ltLo then ltLo - lo else unLo - ltLo;
    SwapCells(fmap, lo, unLo - n, n, s, lo, hi + 1);
    ghost var t := fmap[..];
    m := if hi - gtHi < gtHi - unHi then hi - gtHi else gtHi - unHi;
    SwapCells(fmap, unLo, hi - m + 1, m, s, lo, hi + 1);
    GatherParted(e, s, t, fmap[..], med, lo, ltLo, unLo, unHi, gtHi, hi, n, m);
    n := lo + unLo - ltLo - 1;
    m := hi - (gtHi - unHi) + 1;
  }

  ghost predicate AllEqual(e: seq<int>, f: seq<int>, med: int, lo: int, hi: int)
    requires Keyed(e, f, lo, hi)
  {
    forall k :: lo <= k <= hi ==> e[f[k]] == med
  }

  lemma SplitAllEqual(e: seq<int>, f: seq<int>, med: int,
                      lo: int, ltLo: int, unLo: int, unHi: int, gtHi: int, hi: int)
    requires Split(e, f, med, lo, ltLo, unLo, unHi, gtHi, hi) && gtHi < ltLo
    ensures Keyed(e, f, lo, hi) && AllEqual(e, f, med, lo, hi)
  {
  }

  /** A rearrangement keeps the pivot, so it ends up among the equal keys. */
  lemma PivotStays(e: seq<int>, s: seq<int>, t: seq<int>, med: int, lo: int, n: int, m: int, hi: int, mid: int)
    requires Keyed(e, s, lo, hi) && Rearranged(s, t, lo, hi + 1) && lo <= mid <= hi && e[s[mid]] == med
    requires Parted(e, t, med, lo, n, m, hi)
    ensures n + 1 < m
  {
    var j := RearrangedFrom(t, s, lo, hi + 1, mid);
    assert e[t[j]] == med;
  }

  /** Partition cells lo..hi around the key of one of them; `done` when all keys are equal. */
  method ThreeWay(fmap: array<int>, keys: array<int>, d: nat, ghost e: seq<int>, lo: int, hi: int, med: int,
                  ghost mid: int)
    returns (done: bool, n: int, m: int)
    requires fmap != keys && d <= keys.Length && e == keys[d..] && Keyed(e, fmap[..], lo, hi)
    requires lo <= mid <= hi && e[fmap[mid]] == med
    modifies fmap
    ensures Rearranged(old(fmap[..]), fmap[..], lo, hi + 1) && Keyed(e, fmap[..], lo, hi)
    ensures done ==> AllEqual(e, fmap[..], med, lo, hi)
    ensures !done ==> Parted(e, fmap[..], med, lo, n, m, hi) && n + 1 < m
  {
    hide Rearranged, Split, Parted, AllEqual;
    ghost var s := fmap[..];
    var ltLo, unLo, unHi, gtHi := Partition(fmap, keys, d, e, lo, hi, med);
    ghost var t := fmap[..];
    KeyedRearranged(e, s, t, lo, hi, lo, hi);
    if gtHi < ltLo {
      SplitAllEqual(e, t, med, lo, ltLo, unLo, unHi, gtHi, hi);
      return true, 0, 0;
    }
    done := false;
    n, m := Gather(fmap, e, med, lo, ltLo, unLo, unHi, gtHi, hi);
    RearrangedTrans(s, t, fmap[..], lo, hi + 1);
    KeyedRearranged(e, s, fmap[..], lo, hi, lo, hi);
    PivotStays(e, s, fmap[..], med, lo, n, m, hi, mid);
  }
}
