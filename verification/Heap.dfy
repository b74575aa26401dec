/** The binary heap of tree nodes, least weight on top, that builds Huffman trees.

    Cells run from 1; cell 0 holds node 0, whose weight 0 stops the upward search.
 */
module Heap {
  import opened Sequences

  /** Cells 1..n hold nodes that have weights. */
  ghost predicate Noded(w: seq<int>, h: seq<int>, n: int) {
    0 <= n < |h| && forall k :: 1 <= k <= n ==> 0 <= h[k] < |w|
  }

  ghost predicate HeapOrder(w: seq<int>, h: seq<int>, n: int)
    requires Noded(w, h, n)
  {
    forall j, k :: 1 <= j <= n && 2 <= k <= n && k / 2 == j ==> w[h[j]] <= w[h[k]]
  }

  lemma {:induction false} TopLeast(w: seq<int>, h: seq<int>, n: int, k: int)
    requires Noded(w, h, n) && HeapOrder(w, h, n) && 1 <= k <= n
    ensures w[h[1]] <= w[h[k]]
    decreases k
  {
    if k > 1 { TopLeast(w, h, n, k / 2); }
  }

  /** In order but perhaps between cell z and its parent. */
  ghost predicate Rising(w: seq<int>, g: seq<int>, n: int, z: int)
    requires Noded(w, g, n)
  {
    && 1 <= z <= n
    && (forall k :: 2 <= k <= n && k != z ==> w[g[k / 2]] <= w[g[k]])
    && (forall k :: 2 <= k <= n && k / 2 == z && z > 1 ==> w[g[z / 2]] <= w[g[k]])
  }

  lemma RisingStep(w: seq<int>, g: seq<int>, g': seq<int>, n: int, z: int)
    requires Noded(w, g, n) && Rising(w, g, n, z) && z > 1 && w[g[z]] < w[g[z / 2]]
    requires g' == g[z := g[z / 2]][z / 2 := g[z]]
    ensures Noded(w, g', n) && Rising(w, g', n, z / 2)
  {
  }

  lemma RisingStart(w: seq<int>, g: seq<int>, n: int)
    requires 1 <= n && Noded(w, g, n) && HeapOrder(w, g, n - 1)
    ensures Rising(w, g, n, n)
  {
  }

  lemma RisingDone(w: seq<int>, g: seq<int>, n: int, z: int)
    requires Noded(w, g, n) && Rising(w, g, n, z) && (z == 1 || w[g[z]] >= w[g[z / 2]])
    ensures HeapOrder(w, g, n)
  {
  }

  lemma ParentIn(w: seq<int>, g: seq<int>, f: seq<int>, n: int, z: int, tmp: int)
    requires Noded(w, g, n) && 1 <= z <= n && |f| == |g| && g == f[z := tmp] && f[0] == 0 && |w| > 0
    ensures 0 <= f[z / 2] < |w|
  {
    if z / 2 > 0 { assert f[z / 2] == g[z / 2]; }
  }

  lemma NodedInside(w: seq<int>, g: seq<int>, n: int)
    requires Noded(w, g, n)
    ensures n < |g| && forall k :: 1 <= k <= n ==> 0 <= g[k] < |w|
  {
  }

  lemma RiseMove(w: seq<int>, s: seq<int>, f: seq<int>, g: seq<int>, n: int, z: int, v: int)
    requires 1 < z <= n < |f| && g == f[z := v] && Rearranged(s, g, 1, n + 1)
    requires Noded(w, g, n) && Rising(w, g, n, z) && 0 <= v < |w| && 0 <= f[z / 2] < |w| && w[v] < w[f[z / 2]]
    ensures Rearranged(s, f[z := f[z / 2]][z / 2 := v], 1, n + 1)
    ensures Noded(w, f[z := f[z / 2]][z / 2 := v], n) && Rising(w, f[z := f[z / 2]][z / 2 := v], n, z / 2)
  {
    hide Rearranged, Noded, Rising;
    NodedInside(w, g, n);
    HoleSwap(f, g, z, z / 2, v);
    RisingStep(w, g, g[z := g[z / 2]][z / 2 := g[z]], n, z);
    RearrangedHole(s, f, f[z := f[z / 2]], 1, n + 1, z, z / 2, v);
  }

  /** Cell z, given a node that may be lighter than those above it, finds its place. */
  method UpHeap(heap: array<int>, weight: array<int>, z: int, ghost w: seq<int>)
    requires heap != weight && w == weight[..] && 1 <= z < heap.Length && |w| > 0
    requires Noded(w, heap[..], z) && HeapOrder(w, heap[..], z - 1)
    requires heap[0] == 0 && w[0] == 0 && w[heap[z]] >= 0
    modifies heap
    ensures Rearranged(old(heap[..]), heap[..], 1, z + 1)
    ensures Noded(w, heap[..], z) && HeapOrder(w, heap[..], z)
    ensures heap[0] == 0
  {
    hide Rearranged, Rising, Noded, HeapOrder;
    ghost var s := heap[..];
    NodedInside(w, s, z);
    RearrangedSelf(s, 1, z + 1);
    RisingStart(w, s, z);
    var zz := z;
    var tmp := heap[zz];
    ghost var g := s;
    ParentIn(w, g, s, z, zz, tmp);
    while weight[tmp] < weight[heap[zz / 2]]
      invariant 1 <= zz <= z && 0 <= heap[zz / 2] < |w| && heap[0] == 0 && g == heap[..][zz := tmp] && 0 <= tmp < |w|
      invariant w[tmp] >= 0
      invariant Rearranged(s, g, 1, z + 1)
      invariant Noded(w, g, z) && Rising(w, g, z, zz)
      decreases zz
    {
      ghost var f := heap[..];
      RiseMove(w, s, f, g, z, zz, tmp);
      heap[zz] := heap[zz / 2];
      g := heap[..][zz / 2 := tmp];
      zz := zz / 2;
      ParentIn(w, g, heap[..], z, zz, tmp);
    }
    heap[zz] := tmp;
    assert heap[..] == g;
    RisingDone(w, g, z, zz);
  }

  /** In order but perhaps between cell z and its children. */
  ghost predicate Sinking(w: seq<int>, g: seq<int>, n: int, z: int)
    requires Noded(w, g, n)
  {
    && 1 <= z
    && (forall k :: 2 <= k <= n && k / 2 != z ==> w[g[k / 2]] <= w[g[k]])
    && (forall k :: 2 <= k <= n && k / 2 == z && z > 1 ==> w[g[z / 2]] <= w[g[k]])
  }

  lemma SinkingStep(w: seq<int>, g: seq<int>, g': seq<int>, n: int, z: int, y: int)
    requires Noded(w, g, n) && Sinking(w, g, n, z) && y / 2 == z && 2 <= y <= n
    requires forall k :: 2 <= k <= n && k / 2 == z ==> w[g[y]] <= w[g[k]]
    requires w[g[z]] >= w[g[y]]
    requires g' == g[z := g[y]][y := g[z]]
    ensures Noded(w, g', n) && Sinking(w, g', n, y)
  {
  }

  lemma SinkingDone(w: seq<int>, g: seq<int>, n: int, z: int)
    requires Noded(w, g, n) && Sinking(w, g, n, z)
    requires forall k :: 2 <= k <= n && k / 2 == z ==> w[g[z]] <= w[g[k]]
    ensures HeapOrder(w, g, n)
  {
  }

  /** The children of a cell. */
  lemma Children(k: int, z: int)
    requires 1 <= z && k / 2 == z
    ensures k == 2 * z || k == 2 * z + 1
  {
  }

  lemma SinkMove(w: seq<int>, s: seq<int>, f: seq<int>, g: seq<int>, n: int, z: int, y: int, v: int)
    requires 1 <= z <= n < |f| && g == f[z := v] && Rearranged(s, g, 1, n + 1)
    requires Noded(w, g, n) && Sinking(w, g, n, z) && y / 2 == z && 2 <= y <= n
    requires forall k :: 2 <= k <= n && k / 2 == z ==> w[g[y]] <= w[g[k]]
    requires w[g[z]] >= w[g[y]]
    ensures Rearranged(s, f[z := f[y]][y := v], 1, n + 1)
    ensures Noded(w, f[z := f[y]][y := v], n) && Sinking(w, f[z := f[y]][y := v], n, y)
  {
    hide Rearranged, Noded, Sinking;
    NodedInside(w, g, n);
    HoleSwap(f, g, z, y, v);
    SinkingStep(w, g, g[z := g[y]][y := g[z]], n, z, y);
    RearrangedHole(s, f, f[z := f[y]], 1, n + 1, z, y, v);
  }

  /** The lighter child of cell zz. */
  method LighterChild(heap: array<int>, weight: array<int>, n: int, zz: int, ghost tmp: int,
                      ghost w: seq<int>, ghost g: seq<int>)
    returns (yy: int)
    requires heap != weight && w == weight[..] && 1 <= zz && 2 * zz <= n < heap.Length
    requires g == heap[..][zz := tmp] && Noded(w, g, n)
    ensures yy / 2 == zz && 2 <= yy <= n && g[yy] == heap[yy]
    ensures forall k :: 2 <= k <= n && k / 2 == zz ==> w[g[yy]] <= w[g[k]]
  {
    yy := 2 * zz;
    assert g[yy] == heap[yy] && (yy < n ==> g[yy + 1] == heap[yy + 1]);
    if yy < n && weight[heap[yy + 1]] < weight[heap[yy]] { yy := yy + 1; }
    LeastChild(w, g, n, zz, yy);
  }

  /** The top cell, given another node, finds its place among the n in the heap. */
  method DownHeap(heap: array<int>, weight: array<int>, n: int, ghost w: seq<int>)
    requires heap != weight && w == weight[..] && 2 <= heap.Length
    requires Noded(w, heap[..], n) && (n >= 1 ==> Sinking(w, heap[..], n, 1)) && 0 <= heap[1] < |w|
    modifies heap
    ensures Rearranged(old(heap[..]), heap[..], 1, n + 1) && heap[0] == old(heap[0])
    ensures Noded(w, heap[..], n) && HeapOrder(w, heap[..], n)
  {
    ghost var s := heap[..];
    RearrangedSelf(s, 1, n + 1);
    var zz := 1;
    var tmp := heap[zz];
    ghost var g := s;
    if n == 0 { return; }
    hide Rearranged, Sinking, HeapOrder;
    while true
      invariant 1 <= zz <= n && g == heap[..][zz := tmp] && heap[0] == s[0] && 0 <= tmp < |w|
      invariant Rearranged(s, g, 1, n + 1)
      invariant Noded(w, g, n) && Sinking(w, g, n, zz)
      decreases n - zz
    {
      var yy := 2 * zz;
      if yy > n {
        SinkingDone(w, g, n, zz);
        break;
      }
      yy := LighterChild(heap, weight, n, zz, tmp, w, g);
      if weight[tmp] < weight[heap[yy]] {
        SinkingDone(w, g, n, zz);
        break;
      }
      ghost var f := heap[..];
      SinkMove(w, s, f, g, n, zz, yy, tmp);
      heap[zz] := heap[yy];
      g := heap[..][yy := tmp];
      zz := yy;
    }
    heap[zz] := tmp;
    assert heap[..] == g;
  }

  lemma LeastChild(w: seq<int>, g: seq<int>, n: int, z: int, y: int)
    requires Noded(w, g, n) && 1 <= z && 2 * z <= n
    requires y == if 2 * z < n && w[g[2 * z + 1]] < w[g[2 * z]] then 2 * z + 1 else 2 * z
    ensures forall k :: 2 <= k <= n && k / 2 == z ==> w[g[y]] <= w[g[k]]
  {
    forall k | 2 <= k <= n && k / 2 == z ensures w[g[y]] <= w[g[k]] { Children(k, z); }
  }
}
