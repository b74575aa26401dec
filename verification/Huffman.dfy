/** The lengths of Huffman codes, from symbol frequencies.

    Nodes and heap cells are numbered from 1; cell 0 of each array is a sentinel. A weight
    keeps the height of its tree in its low byte.
 */
module Huffman {
  import opened Heap
  import opened HuffmanForest
  import opened PrefixCost
  import opened Sequences
  import opened Sums
  import opened Words

  const MAX_ALPHA_SIZE: int := 258

  /** What a weight must stay below for its sum with a byte to fit a signed 32-bit word. */
  const WEIGHT_LIMIT: int := 0x80_0000

  // Parent links.

  ghost predicate Upward(p: seq<int>) {
    |p| >= 1 && p[0] < 0 && forall k :: 1 <= k < |p| ==> p[k] == -1 || k < p[k] < |p|
  }

  function Hops(p: seq<int>, k: int): nat
    requires Upward(p) && 0 <= k < |p|
    decreases |p| - k
  {
    if p[k] < 0 then 0 else 1 + Hops(p, p[k])
  }

  function Root(p: seq<int>, k: int): int
    requires Upward(p) && 0 <= k < |p|
    decreases |p| - k
  {
    if p[k] < 0 then k else Root(p, p[k])
  }

  function Joined(p: seq<int>, x: int, y: int): seq<int>
    requires 0 <= x < |p| && 0 <= y < |p|
  {
    p[x := |p|][y := |p|] + [-1]
  }

  /** The array of links once m, next in number, is a root and the parent of x and y. */
  function Adopted(p: seq<int>, x: int, y: int, m: int): seq<int>
    requires 0 <= x < m && 0 <= y < m < |p|
  {
    p[x := m][y := m][m := -1]
  }

  lemma {:induction false} JoinedHops(p: seq<int>, x: int, y: int, k: int)
    requires Upward(p) && 1 <= x < |p| && 1 <= y < |p| && x != y && p[x] == p[y] == -1 && 0 <= k < |p|
    ensures Upward(Joined(p, x, y))
    ensures Root(Joined(p, x, y), k) == if Root(p, k) == x || Root(p, k) == y then |p| else Root(p, k)
    ensures Hops(Joined(p, x, y), k) == Hops(p, k) + if Root(p, k) == x || Root(p, k) == y then 1 else 0
    decreases |p| - k
  {
    var q := Joined(p, x, y);
    assert Upward(q);
    if k == x || k == y {
      assert q[k] == |p| && Hops(q, |p|) == 0 && Root(q, |p|) == |p|;
    } else if p[k] >= 0 {
      JoinedHops(p, x, y, p[k]);
    }
  }

  /** The links lead from each symbol to its root in as many steps as it is deep. */
  ghost predicate Linked(p: seq<int>, f: Forest) {
    && Upward(p) && |f.top| == |f.dep| <= |p|
    && (forall r :: r in f.live ==> 0 <= r < |p| && p[r] == -1)
    && (forall i :: 0 <= i < |f.top| ==> Root(p, i) == f.top[i] && Hops(p, i) == f.dep[i])
  }

  lemma LinkMerge(p: seq<int>, f: Forest, x: int, y: int, m: int)
    requires Linked(p, f) && Least(f, x, y, m) && m == |p|
    ensures Linked(Joined(p, x, y), Merge(f, x, y, m))
  {
    var g := Merge(f, x, y, m);
    var q := Joined(p, x, y);
    forall i | 0 <= i < |f.top| ensures Root(q, i) == g.top[i] && Hops(q, i) == g.dep[i] {
      JoinedHops(p, x, y, i);
    }
    JoinedHops(p, x, y, 0);
  }

  // Packed weights.

  /** The weight proper, with the low byte cleared. */
  function WeightOf(z: nat): nat {
    z - z % 256
  }

  /** The low byte. */
  function DepthOf(z: nat): nat {
    z % 256
  }

  function AddWeights(a: nat, b: nat): nat {
    Or(WeightOf(a) + WeightOf(b), 1 + if DepthOf(a) > DepthOf(b) then DepthOf(a) else DepthOf(b))
  }

  lemma Unpacked(m: nat, h: nat)
    requires h < 256
    ensures WeightOf(256 * m + h) == 256 * m && DepthOf(256 * m + h) == h
  {
  }

  lemma Pow2Eight()
    ensures Pow2(8) == 256
  {
    assert Pow2(4) == 16;
    Pow2Add(4, 4);
  }

  lemma AddPacked(m1: nat, h1: nat, m2: nat, h2: nat)
    requires h1 < 255 && h2 < 255
    ensures AddWeights(256 * m1 + h1, 256 * m2 + h2) == 256 * (m1 + m2) + 1 + if h1 > h2 then h1 else h2
  {
    hide Or, WeightOf, DepthOf, Pow2;
    Unpacked(m1, h1);
    Unpacked(m2, h2);
    Pow2Eight();
    OrIsSum(m1 + m2, 1 + if h1 > h2 then h1 else h2, 8);
  }

  ghost predicate Packed(w: seq<int>, f: Forest) {
    && |w| == |f.mass| == |f.height|
    && forall r :: r in f.live ==> 0 <= r < |w| && f.height[r] <= 45 && w[r] == 256 * f.mass[r] + f.height[r]
  }

  // The heap of roots.

  ghost function Cells(h: seq<int>, n: int): multiset<int>
    requires 0 <= n < |h|
  {
    multiset(h[1..n + 1])
  }

  ghost function Once(live: set<int>): multiset<int> {
    multiset(live)
  }

  ghost predicate Heaped(h: seq<int>, n: int, live: set<int>) {
    0 <= n < |h| && Cells(h, n) == Once(live)
  }

  /** An ordered heap of exactly the live roots. */
  ghost predicate Rooted(w: seq<int>, h: seq<int>, n: int, live: set<int>) {
    Heaped(h, n, live) && Noded(w, h, n) && HeapOrder(w, h, n)
  }

  lemma HeapedMember(h: seq<int>, n: int, live: set<int>, k: int)
    requires Heaped(h, n, live) && 1 <= k <= n
    ensures h[k] in live
  {
    assert h[k] == h[1..n + 1][k - 1];
    assert h[k] in multiset(live);
  }

  lemma HeapedPlace(h: seq<int>, n: int, live: set<int>, r: int) returns (k: int)
    requires Heaped(h, n, live) && r in live
    ensures 1 <= k <= n && h[k] == r
  {
    assert r in multiset(h[1..n + 1]);
    var j :| 0 <= j < n && h[1..n + 1][j] == r;
    k := j + 1;
  }

  lemma HeapedLeast(w: seq<int>, h: seq<int>, n: int, live: set<int>)
    requires Rooted(w, h, n, live) && n >= 1
    ensures forall r :: r in live ==> 0 <= r < |w| && w[h[1]] <= w[r]
  {
    forall r | r in live ensures 0 <= r < |w| && w[h[1]] <= w[r] {
      var k := HeapedPlace(h, n, live, r);
      TopLeast(w, h, n, k);
    }
  }

  lemma HeapedRearranged(s: seq<int>, h: seq<int>, n: int, live: set<int>)
    requires Heaped(s, n, live) && Rearranged(s, h, 1, n + 1)
    ensures Heaped(h, n, live)
  {
  }

  /** Dropping the top root and putting the last one in its place. */
  lemma HeapedDrop(s: seq<int>, n: int, live: set<int>)
    requires Heaped(s, n, live) && n >= 1
    ensures s[1] in live && Heaped(s[1 := s[n]], n - 1, live - {s[1]})
  {
    HeapedMember(s, n, live, 1);
    DroppedCells(s, n);
    OnceLess(live, s[1]);
  }

  lemma DroppedCells(s: seq<int>, n: int)
    requires 1 <= n < |s|
    ensures Cells(s[1 := s[n]], n - 1) == Cells(s, n) - multiset{s[1]}
  {
    var h, t := s[1 := s[n]], s[1..n + 1];
    if n == 1 {
      assert t == [s[1]] && h[1..n] == [];
    } else {
      assert t == [s[1]] + (s[2..n] + [s[n]]);
      assert h[1..n] == [s[n]] + s[2..n];
    }
  }

  lemma OnceLess(live: set<int>, r: int)
    requires r in live
    ensures Once(live - {r}) == Once(live) - multiset{r}
  {
  }

  lemma HeapedPush(s: seq<int>, n: int, live: set<int>, m: int)
    requires Heaped(s, n, live) && n + 1 < |s| && m !in live
    ensures Heaped(s[n + 1 := m], n + 1, live + {m})
  {
    assert s[n + 1 := m][1..n + 2] == s[1..n + 1] + [m];
  }

  lemma DropSinking(w: seq<int>, s: seq<int>, n: int)
    requires 1 <= n < |s| && Noded(w, s, n) && HeapOrder(w, s, n)
    ensures Noded(w, s[1 := s[n]], n - 1)
    ensures n >= 2 ==> Sinking(w, s[1 := s[n]], n - 1, 1)
    ensures 0 <= s[n] < |w|
  {
  }

  /** Takes a lightest root from the heap. */
  method TakeLeast(heap: array<int>, weight: array<int>, nHeap: int, ghost w: seq<int>, ghost live: set<int>)
    returns (n1: int)
    requires heap != weight && w == weight[..] && 1 <= nHeap < heap.Length && 2 <= heap.Length
    requires Rooted(w, heap[..], nHeap, live)
    modifies heap
    ensures heap[0] == old(heap[0])
    ensures n1 in live && 0 <= n1 < |w| && forall r :: r in live ==> 0 <= r < |w| && w[n1] <= w[r]
    ensures Rooted(w, heap[..], nHeap - 1, live - {n1})
  {
    hide HeapOrder, Heaped, Noded, Rearranged, Sinking;
    ghost var s := heap[..];
    HeapedLeast(w, s, nHeap, live);
    HeapedDrop(s, nHeap, live);
    DropSinking(w, s, nHeap);
    n1 := heap[1];
    heap[1] := heap[nHeap];
    ghost var t := heap[..];
    assert t == s[1 := s[nHeap]];
    DownHeap(heap, weight, nHeap - 1, w);
    HeapedRearranged(t, heap[..], nHeap - 1, live - {n1});
  }

  // Building the tree.

  /** The symbols' own packed weights. */
  ghost predicate Leafy(w: seq<int>, w0: seq<nat>) {
    |w0| <= |w| && forall i :: 0 <= i < |w0| ==> w[i] == 256 * w0[i]
  }

  /** The state between two joins: n roots in the heap, nodes in all. */
  ghost predicate Building(h: seq<int>, w: seq<int>, p: seq<int>, n: int, nodes: int, f: Forest,
                           w0: seq<nat>, start: Forest) {
    && Rooted(w, h, n, f.live) && h[0] == 0 && |w| > 0 && w[0] == 0
    && Packed(w, f) && 0 <= nodes < |p| == |w| && Linked(p[..nodes + 1], f) && Grown(f, nodes, w0, start)
    && |f.mass| == |start.mass| && Total(w0) < WEIGHT_LIMIT && Leafy(w, w0) && |w0| <= nodes + 1
  }

  /** What the two roots taken from the heap are. */
  ghost predicate Taken(w: seq<int>, f: Forest, x: int, y: int) {
    && x in f.live && y in f.live - {x} && 0 <= x < |w| && 0 <= y < |w|
    && (forall r :: r in f.live ==> 0 <= r < |w| && w[x] <= w[r])
    && (forall r :: r in f.live - {x} ==> w[y] <= w[r])
  }

  lemma TakenLeast(w: seq<int>, f: Forest, nodes: int, x: int, y: int)
    requires Packed(w, f) && Formed(f, nodes) && nodes + 1 < |f.mass| && Taken(w, f, x, y)
    ensures Least(f, x, y, nodes + 1)
  {
  }

  lemma MergePacked(w: seq<int>, f: Forest, x: int, y: int, m: int)
    requires Packed(w, f) && Least(f, x, y, m) && Merge(f, x, y, m).height[m] <= 45
    ensures w[x] >= 0 && w[y] >= 0
    ensures Packed(w[m := AddWeights(w[x], w[y])], Merge(f, x, y, m))
  {
    hide AddWeights;
    AddPacked(f.mass[x], f.height[x], f.mass[y], f.height[y]);
  }

  lemma BuildingFacts(h: seq<int>, w: seq<int>, p: seq<int>, n: int, nodes: int, f: Forest,
                      w0: seq<nat>, start: Forest)
    requires Building(h, w, p, n, nodes, f, w0, start)
    ensures 0 <= nodes < |p| == |w| == |f.mass| == |start.mass| && Total(w0) < WEIGHT_LIMIT
    ensures Packed(w, f) && Formed(f, nodes) && Linked(p[..nodes + 1], f) && Grown(f, nodes, w0, start)
    ensures Leafy(w, w0) && |w0| <= nodes + 1
  {
  }

  lemma {:induction false} FibDoubles(k: nat)
    ensures Fib(2 * k) >= Pow2(k)
  {
    if k > 0 {
      FibDoubles(k - 1);
      FibMono(2 * k - 2, 2 * k - 1);
    }
  }

  lemma TooHeavy()
    ensures Fib(2 * 23) >= WEIGHT_LIMIT
  {
    hide Fib;
    Pow2Add(11, 12);
    assert Pow2(11) == 2048 && Pow2(12) == 4096;
    FibDoubles(23);
  }

  lemma MergeHeight(f: Forest, x: int, y: int, m: int, w0: seq<nat>, start: Forest)
    requires Least(f, x, y, m) && Grown(Merge(f, x, y, m), m, w0, start) && Total(w0) < WEIGHT_LIMIT
    ensures Merge(f, x, y, m).height[m] <= 45
  {
    hide Fib;
    TooHeavy();
    HeightWithin(Merge(f, x, y, m), m, w0, m, 45);
  }

  /** What is known of the forest once two roots are to be joined. */
  ghost predicate Ready(w: seq<int>, p: seq<int>, nodes: int, rest: set<int>, g: Forest, x: int, y: int,
                        w0: seq<nat>, start: Forest) {
    && 1 <= x <= nodes && 1 <= y <= nodes && x != y && nodes + 1 < |p| == |w| && w[x] >= 0 && w[y] >= 0
    && g.live == rest + {nodes + 1} && nodes + 1 !in rest && |g.mass| == |start.mass|
    && Packed(w[nodes + 1 := AddWeights(w[x], w[y])], g)
    && Linked(Joined(p[..nodes + 1], x, y), g)
    && Grown(g, nodes + 1, w0, start) && Total(w0) < WEIGHT_LIMIT && Leafy(w, w0) && |w0| <= nodes + 1
  }

  /** Joining the two: the packed weights add up to the packed weight of the joint root. */
  lemma JoinFacts(h: seq<int>, w: seq<int>, p: seq<int>, n: int, nodes: int, f: Forest,
                  w0: seq<nat>, start: Forest, x: int, y: int) returns (g: Forest)
    requires Building(h, w, p, n, nodes, f, w0, start) && Taken(w, f, x, y) && nodes + 1 < |w|
    ensures Ready(w, p, nodes, f.live - {x, y}, g, x, y, w0, start)
  {
    hide AddWeights, Building, Formed, Grown, Joined, Leafy, Least, Linked, Merge, Packed, Rooted, Taken, Total;
    var m := nodes + 1;
    BuildingFacts(h, w, p, n, nodes, f, w0, start);
    TakenLeast(w, f, nodes, x, y);
    LeastBounds(f, x, y, m);
    g := Merge(f, x, y, m);
    LinkMerge(p[..m], f, x, y, m);
    MergeGrown(f, x, y, m, w0, start);
    MergeHeight(f, x, y, m, w0, start);
    MergePacked(w, f, x, y, m);
  }

  lemma LeastBounds(f: Forest, x: int, y: int, m: int)
    requires Least(f, x, y, m)
    ensures 1 <= x < m && 1 <= y < m && x != y && m < |f.mass| == |f.height| && m !in f.live
    ensures Formed(f, m - 1) && x in f.live && y in f.live
    ensures |Merge(f, x, y, m).height| == |f.height| && Merge(f, x, y, m).live == f.live - {x, y} + {m}
    ensures |Merge(f, x, y, m).mass| == |f.mass|
  {
  }

  /** Setting the weight of a node that is not in the heap leaves the heap in order. */
  lemma OrderFramed(h: seq<int>, w: seq<int>, n: int, live: set<int>, m: int, v: int)
    requires Rooted(w, h, n, live) && m !in live && 0 <= m < |w|
    ensures Rooted(w[m := v], h, n, live)
  {
    forall k | 1 <= k <= n ensures h[k] != m { HeapedMember(h, n, live, k); }
  }

  /** Putting a node at the end of an ordered heap. */
  lemma PushFacts(h: seq<int>, w: seq<int>, n: int, live: set<int>, m: int)
    requires Rooted(w, h, n, live) && m !in live && 0 <= m < |w|
    requires n + 1 < |h|
    ensures var t := h[n + 1 := m];
      Heaped(t, n + 1, live + {m}) && Noded(w, t, n + 1) && HeapOrder(w, t, n)
  {
    HeapedPush(h, n, live, m);
  }

  lemma BuildingRoots(h: seq<int>, w: seq<int>, p: seq<int>, n: int, nodes: int, f: Forest,
                      w0: seq<nat>, start: Forest)
    requires Building(h, w, p, n, nodes, f, w0, start)
    ensures Rooted(w, h, n, f.live) && h[0] == 0 && w[0] == 0
    ensures forall r :: r in f.live ==> 1 <= r <= nodes && r < |w|
    ensures nodes < |p| == |w| && n < |h| && |w| > 0
  {
  }

  /** Takes the two lightest roots. */
  method TakeTwo(heap: array<int>, weight: array<int>, nHeap: int, ghost w: seq<int>, ghost f: Forest)
    returns (n1: int, n2: int, ghost rest: set<int>)
    requires heap != weight && w == weight[..] && 2 <= nHeap < heap.Length
    requires Rooted(w, heap[..], nHeap, f.live)
    modifies heap
    ensures heap[0] == old(heap[0]) && Taken(w, f, n1, n2)
    ensures rest == f.live - {n1, n2} && Rooted(w, heap[..], nHeap - 2, rest)
  {
    hide Rooted;
    n1 := TakeLeast(heap, weight, nHeap, w, f.live);
    n2 := TakeLeast(heap, weight, nHeap - 1, w, f.live - {n1});
    rest := f.live - {n1, n2};
    assert rest == f.live - {n1} - {n2};
  }

  /** Adds a node as the last of nHeap. */
  method Push(heap: array<int>, weight: array<int>, nHeap: int, m: int, ghost w: seq<int>, ghost live: set<int>)
    requires heap != weight && w == weight[..] && 1 <= nHeap < heap.Length && heap[0] == 0
    requires Rooted(w, heap[..], nHeap - 1, live)
    requires 0 < |w| && w[0] == 0 && m !in live && 0 <= m < |w| && w[m] >= 0
    modifies heap
    ensures heap[0] == 0 && Rooted(w, heap[..], nHeap, live + {m})
  {
    hide HeapOrder, Heaped, Noded, Rearranged;
    PushFacts(heap[..], w, nHeap - 1, live, m);
    heap[nHeap] := m;
    ghost var t := heap[..];
    assert t == old(heap[..])[nHeap := m];
    UpHeap(heap, weight, nHeap, w);
    HeapedRearranged(t, heap[..], nHeap, live + {m});
  }

  /** Makes node m, a new root, the parent of two roots, with their joint weight. */
  method LinkTwo(weight: array<int>, parent: array<int>, n1: int, n2: int, m: int, ghost w: seq<int>, ghost p: seq<int>)
    returns (ghost w': seq<int>, ghost p': seq<int>)
    requires weight != parent && 1 <= n1 < m && 1 <= n2 < m < parent.Length && n1 != n2 && m < weight.Length
    requires w == weight[..] && p == parent[..] && w[n1] >= 0 && w[n2] >= 0
    modifies weight, parent
    ensures w' == weight[..] && p' == parent[..] && LinkedUp(w, p, w', p', n1, n2, m)
  {
    parent[n1], parent[n2] := m, m;
    weight[m] := AddWeights(weight[n1], weight[n2]);
    parent[m] := -1;
    w', p' := weight[..], parent[..];
  }

  /** Node m has become the parent of x and y, with their joint weight. */
  ghost predicate LinkedUp(w: seq<int>, p: seq<int>, w': seq<int>, p': seq<int>, x: int, y: int, m: int) {
    && 1 <= x < m && 1 <= y < m < |p| && m < |w| && w[x] >= 0 && w[y] >= 0
    && w' == w[m := AddWeights(w[x], w[y])] && p' == Adopted(p, x, y, m)
  }

  lemma ReadyFacts(w: seq<int>, p: seq<int>, nodes: int, rest: set<int>, g: Forest, x: int, y: int,
                   w0: seq<nat>, start: Forest)
    requires Ready(w, p, nodes, rest, g, x, y, w0, start)
    ensures 1 <= x <= nodes && 1 <= y <= nodes && x != y && nodes + 1 < |p| == |w| && w[x] >= 0 && w[y] >= 0
    ensures nodes + 1 !in rest
  {
  }

  lemma AttachFacts(h: seq<int>, w: seq<int>, p: seq<int>, w': seq<int>, p': seq<int>, n: int, m: int,
                    rest: set<int>, x: int, y: int)
    requires LinkedUp(w, p, w', p', x, y, m) && Rooted(w, h, n, rest) && m !in rest && w[0] == 0
    ensures |w'| == |w| && w'[0] == 0 && w'[m] >= 0 && Rooted(w', h, n, rest)
  {
    hide AddWeights, Rooted;
    OrderFramed(h, w, n, rest, m, AddWeights(w[x], w[y]));
  }

  lemma AdoptedJoined(p: seq<int>, x: int, y: int, m: int)
    requires 0 <= x < m && 0 <= y < m < |p|
    ensures |Adopted(p, x, y, m)| == |p| && Adopted(p, x, y, m)[..m + 1] == Joined(p[..m], x, y)
  {
  }

  lemma LeafyUpdate(w: seq<int>, w0: seq<nat>, m: int, v: int)
    requires Leafy(w, w0) && |w0| <= m < |w|
    ensures Leafy(w[m := v], w0)
  {
  }

  lemma LinkedFacts(w: seq<int>, p: seq<int>, w': seq<int>, p': seq<int>, nodes: int, rest: set<int>,
                    g: Forest, x: int, y: int, w0: seq<nat>, start: Forest)
    requires Ready(w, p, nodes, rest, g, x, y, w0, start) && w[0] == 0
    requires LinkedUp(w, p, w', p', x, y, nodes + 1)
    ensures |w'| > 0 && w'[0] == 0 && 0 <= nodes + 1 < |p'| == |w'| && Packed(w', g)
    ensures Linked(p'[..nodes + 2], g) && Grown(g, nodes + 1, w0, start)
    ensures |g.mass| == |start.mass| && Total(w0) < WEIGHT_LIMIT && Leafy(w', w0) && |w0| <= nodes + 2
    ensures g.live == rest + {nodes + 1}
  {
    hide Adopted, Joined, AddWeights, Leafy, Packed, Linked, Grown;
    AdoptedJoined(p, x, y, nodes + 1);
    LeafyUpdate(w, w0, nodes + 1, AddWeights(w[x], w[y]));
  }

  lemma Built(h: seq<int>, w: seq<int>, p: seq<int>, n: int, nodes: int, f: Forest, w0: seq<nat>, start: Forest)
    requires Rooted(w, h, n, f.live) && h != [] && h[0] == 0 && |w| > 0 && w[0] == 0
    requires Packed(w, f) && 0 <= nodes < |p| == |w| && Linked(p[..nodes + 1], f) && Grown(f, nodes, w0, start)
    requires |f.mass| == |start.mass| && Total(w0) < WEIGHT_LIMIT && Leafy(w, w0) && |w0| <= nodes + 1
    ensures Building(h, w, p, n, nodes, f, w0, start)
  {
  }

  /** Joins two roots taken from the heap, which then holds nHeap. */
  method Attach(heap: array<int>, weight: array<int>, parent: array<int>, nHeap: int, nNodes: int, n1: int, n2: int,
                ghost w: seq<int>, ghost p: seq<int>, ghost rest: set<int>, ghost g: Forest,
                ghost w0: seq<nat>, ghost start: Forest)
    returns (ghost w': seq<int>, ghost p': seq<int>)
    requires heap != weight && weight != parent && heap != parent && 1 <= nHeap < heap.Length
    requires 1 <= nNodes < weight.Length - 1 && weight.Length == parent.Length && heap[0] == 0
    requires w == weight[..] && p == parent[..] && |w| > 0 && w[0] == 0
    requires Ready(w, p, nNodes, rest, g, n1, n2, w0, start)
    requires Rooted(w, heap[..], nHeap - 1, rest)
    modifies heap, weight, parent
    ensures w' == weight[..] && p' == parent[..]
    ensures Building(heap[..], w', p', nHeap, nNodes + 1, g, w0, start)
  {
    hide *;
    ghost var h := heap[..];
    ReadyFacts(w, p, nNodes, rest, g, n1, n2, w0, start);
    w', p' := LinkTwo(weight, parent, n1, n2, nNodes + 1, w, p);
    AttachFacts(h, w, p, w', p', nHeap - 1, nNodes + 1, rest, n1, n2);
    LinkedFacts(w, p, w', p', nNodes, rest, g, n1, n2, w0, start);
    assert heap[..] == h;
    Push(heap, weight, nHeap, nNodes + 1, w', rest);
    assert weight[..] == w' && parent[..] == p';
    Built(heap[..], w', p', nHeap, nNodes + 1, g, w0, start);
  }

  /** Joins the two lightest roots. */
  method JoinLeast(heap: array<int>, weight: array<int>, parent: array<int>, nHeap: int, nNodes: int,
                   ghost w: seq<int>, ghost p: seq<int>, ghost f: Forest, ghost w0: seq<nat>, ghost start: Forest)
    returns (ghost w': seq<int>, ghost p': seq<int>, ghost f': Forest)
    requires heap != weight && weight != parent && heap != parent && 2 <= nHeap < heap.Length
    requires 1 <= nNodes < weight.Length - 1 && weight.Length == parent.Length
    requires w == weight[..] && p == parent[..]
    requires Building(heap[..], w, p, nHeap, nNodes, f, w0, start)
    modifies heap, weight, parent
    ensures w' == weight[..] && p' == parent[..]
    ensures Building(heap[..], w', p', nHeap - 1, nNodes + 1, f', w0, start)
  {
    hide *;
    ghost var h := heap[..];
    BuildingRoots(h, w, p, nHeap, nNodes, f, w0, start);
    var n1, n2, rest := TakeTwo(heap, weight, nHeap, w, f);
    f' := JoinFacts(h, w, p, nHeap, nNodes, f, w0, start, n1, n2);
    assert weight[..] == w && parent[..] == p;
    assert Rooted(w, heap[..], nHeap - 1 - 1, rest);
    w', p' := Attach(heap, weight, parent, nHeap - 1, nNodes, n1, n2, w, p, rest, f', w0, start);
  }
}
