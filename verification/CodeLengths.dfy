/** Length-limited Huffman code lengths: the tree is rebuilt from scaled-down weights until
    no code is too long.
 */
module CodeLengths {
  import opened Heap
  import opened Huffman
  import opened HuffmanForest
  import opened PrefixCost
  import opened Sums

  // What a finished tree says.

  /** The entries of symbols 0..k-1 as those of nodes 1..k, of n. */
  function Padded(w: seq<nat>, n: nat): (p: seq<nat>)
    requires |w| < n
    ensures |p| == n
  {
    [0] + w + seq(n - 1 - |w|, i => 0)
  }

  lemma PaddedTerm(ls: seq<nat>, n: nat, k: int)
    requires |ls| < n && 0 <= k < n
    ensures KraftTerms(Nodes(|ls|), Padded(ls, n))[k] == if 1 <= k <= |ls| then Half(ls[k - 1]) else 0.0
  {
    hide Half;
  }

  lemma SplitTerm(h: seq<real>, y: seq<real>, k: int)
    requires 0 <= k < 1 + |h| + |y| && forall i :: 0 <= i < |y| ==> y[i] == 0.0
    ensures ([0.0] + h + y)[k] == if 1 <= k <= |h| then h[k - 1] else 0.0
  {
  }

  lemma PaddedTerms(ls: seq<nat>, n: nat)
    requires |ls| < n
    ensures KraftTerms(Nodes(|ls|), Padded(ls, n)) == [0.0] + Halves(ls) + seq(n - 1 - |ls|, i => 0.0)
  {
    hide Half, Padded, Nodes;
    var h, y, t := Halves(ls), seq(n - 1 - |ls|, i => 0.0), KraftTerms(Nodes(|ls|), Padded(ls, n));
    forall k | 0 <= k < n ensures t[k] == ([0.0] + h + y)[k] {
      PaddedTerm(ls, n, k);
      SplitTerm(h, y, k);
    }
  }

  lemma PaddedKraft(ls: seq<nat>, n: nat)
    requires |ls| < n
    ensures Kraft(Nodes(|ls|), Padded(ls, n)) == KraftSum(ls)
  {
    hide Half, Halves, KraftTerms, Sum, Padded, Nodes;
    PaddedTerms(ls, n);
    SumPadded(Halves(ls), seq(n - 1 - |ls|, i => 0.0));
  }

  lemma PaddedCost(w: seq<nat>, ls: seq<nat>, n: nat)
    requires |w| == |ls| < n
    ensures Cost(Nodes(|w|), Padded(w, n), Padded(ls, n)) == WeightedLength(w, ls)
  {
    hide Total;
    var z := seq(n - 1 - |w|, i => 0);
    forall k | 0 <= k < n
      ensures CostTerms(Nodes(|w|), Padded(w, n), Padded(ls, n))[k] == ([0] + Lengths(w, ls) + z)[k]
    {
    }
    assert CostTerms(Nodes(|w|), Padded(w, n), Padded(ls, n)) == [0] + Lengths(w, ls) + z;
    TotalPadded(Lengths(w, ls), z);
  }

  lemma BoundOptimal(w: seq<nat>, ls: seq<nat>, n: nat)
    requires |w| == |ls| < n && KraftSum(ls) <= 1.0
    requires LowerBound(Nodes(|w|), Padded(w, n), WeightedLength(w, ls))
    ensures Optimal(w, ls)
  {
    hide WeightedLength, KraftSum, Kraft, Cost, Padded;
    forall any: seq<nat> | |any| == |w| && KraftSum(any) <= 1.0
      ensures WeightedLength(w, ls) <= WeightedLength(w, any)
    {
      PaddedKraft(any, n);
      PaddedCost(w, any, n);
      PaddedLength(w, n);
      PaddedLength(any, n);
    }
  }

  lemma PaddedLength(w: seq<nat>, n: nat)
    requires |w| < n
    ensures |Padded(w, n)| == n
  {
  }

  lemma TreeKraft(f: Forest, r: int)
    requires |f.top| == |f.dep| >= 1 && f.top[0] != r && forall i :: 1 <= i < |f.top| ==> f.top[i] == r
    ensures KraftSum(f.dep[1..]) == Sum(UnderHalf(f.dep, f.top, r))
  {
    hide Half, Sum;
    assert UnderHalf(f.dep, f.top, r) == [0.0] + Halves(f.dep[1..]) + [];
    SumPadded(Halves(f.dep[1..]), []);
  }

  lemma TreeCost(w: seq<nat>, dep: seq<nat>)
    requires |dep| == |w| + 1 && dep[0] == 0
    ensures Total(Lengths([0] + w, dep)) == WeightedLength(w, dep[1..])
  {
    hide Total;
    assert Lengths([0] + w, dep) == [0] + Lengths(w, dep[1..]) + [];
    TotalPadded(Lengths(w, dep[1..]), []);
  }

  /** Once one root is left, the depths are an optimal code that uses up all prefixes. */
  lemma TreeOptimal(w: seq<nat>, n: nat, nodes: int, f: Forest, r: int)
    requires 1 <= |w| < n && |f.dep| == |w| + 1
    requires Grown(f, nodes, [0] + w, Start([0] + w, n)) && f.live == {r}
    ensures KraftSum(f.dep[1..]) == 1.0 && Optimal(w, f.dep[1..])
  {
    hide *;
    TreeFacts(w, n, nodes, f, r);
    TreeKraft(f, r);
    TreeCost(w, f.dep);
    BoundOptimal(w, f.dep[1..], n);
  }

  lemma TreeFacts(w: seq<nat>, n: nat, nodes: int, f: Forest, r: int)
    requires 1 <= |w| < n && |f.dep| == |w| + 1
    requires Grown(f, nodes, [0] + w, Start([0] + w, n)) && f.live == {r}
    ensures |f.top| == |f.dep| && f.top[0] != r && forall i :: 1 <= i < |f.top| ==> f.top[i] == r
    ensures f.dep[0] == 0 && Sum(UnderHalf(f.dep, f.top, r)) == 1.0
    ensures LowerBound(Nodes(|w|), Padded(w, n), Total(Lengths([0] + w, f.dep)))
  {
    LastRoot(f, nodes, [0] + w, Start([0] + w, n), r);
    assert Start([0] + w, n).mass == Padded(w, n);
  }

  /** No depth exceeds what the total weight allows. */
  lemma TreeDepth(w: seq<nat>, nodes: int, f: Forest, h: nat, i: int)
    requires Weighed(f, nodes, w) && Deep(f, nodes) && Heavy(f, nodes) && Total(w) < Fib(h + 1)
    requires 1 <= i < |f.dep|
    ensures f.dep[i] <= h
  {
    HeightWithin(f, nodes, w, f.top[i], h);
  }

  // Building a tree from the weights of the symbols.

  const HEAP_CELLS: int := MAX_ALPHA_SIZE + 2
  const NODES: int := MAX_ALPHA_SIZE * 2

  /** Weights small enough for their packed sums to fit. */
  ghost predicate Weighable(w: seq<nat>) {
    && 2 <= |w| <= MAX_ALPHA_SIZE && Total(w) < WEIGHT_LIMIT
    && forall i :: 0 <= i < |w| ==> w[i] >= 1
  }

  lemma NumberedTotal(w: seq<nat>)
    ensures Total([0] + w) == Total(w)
  {
    TotalConcat([0], w);
    TotalZeros([0]);
  }

  /** The state before the first join. */
  lemma Planted(h: seq<int>, wt: seq<int>, p: seq<int>, w: seq<nat>)
    requires Weighable(w) && |wt| == |p| == NODES && h != [] && h[0] == 0
    requires Leafy(wt, [0] + w) && Rooted(wt, h, |w|, Nodes(|w|))
    requires p[0] < 0 && forall i :: 1 <= i <= |w| ==> p[i] == -1
    ensures Building(h, wt, p, |w|, |w|, Start([0] + w, NODES), [0] + w, Start([0] + w, NODES))
  {
    hide Rooted, Grown, Leafy, Linked, Packed, Total;
    LeafyBounds(wt, w);
    NumberedTotal(w);
    StartGrown([0] + w, NODES);
    PlantedLinks(p, w);
    PlantedWeights(wt, w);
  }

  lemma PlantedLinks(p: seq<int>, w: seq<nat>)
    requires 1 <= |w| < |p| && |w| < NODES && p[0] < 0 && forall i :: 1 <= i <= |w| ==> p[i] == -1
    ensures Linked(p[..|w| + 1], Start([0] + w, NODES))
  {
  }

  lemma PlantedWeights(wt: seq<int>, w: seq<nat>)
    requires 1 <= |w| < NODES == |wt| && Leafy(wt, [0] + w)
    ensures Packed(wt, Start([0] + w, NODES))
  {
  }

  /** Puts the symbols into the heap, each a root. */
  method FillHeap(heap: array<int>, weight: array<int>, parent: array<int>, alphaSize: int,
                  ghost wt: seq<int>, ghost w: seq<nat>)
    requires heap != weight && heap != parent && weight != parent && weight.Length == parent.Length == NODES
    requires heap.Length == HEAP_CELLS && |w| == alphaSize && Weighable(w)
    requires wt == weight[..] && Leafy(wt, [0] + w)
    modifies heap, parent
    ensures weight[..] == wt
    ensures Building(heap[..], wt, parent[..], alphaSize, alphaSize, Start([0] + w, NODES), [0] + w,
                     Start([0] + w, NODES))
  {
    hide *;
    LeafyBounds(wt, w);
    heap[0] := 0;
    parent[0] := -2;
    RootedEmpty(wt, heap[..]);
    for i := 1 to alphaSize + 1
      invariant heap[0] == 0 && parent[0] == -2 && weight[..] == wt
      invariant forall k :: 1 <= k < i ==> parent[k] == -1
      invariant Rooted(wt, heap[..], i - 1, Nodes(i - 1))
    {
      parent[i] := -1;
      NextNode(i);
      LeafyWeight(wt, w, i);
      Push(heap, weight, i, i, wt, Nodes(i - 1));
    }
    Planted(heap[..], wt, parent[..], w);
  }

  lemma LeafyBounds(wt: seq<int>, w: seq<nat>)
    requires Weighable(w) && Leafy(wt, [0] + w)
    ensures 2 <= |w| <= MAX_ALPHA_SIZE && |w| < |wt| && wt[0] == 0
    ensures HEAP_CELLS == MAX_ALPHA_SIZE + 2 && NODES == 2 * MAX_ALPHA_SIZE
  {
  }

  lemma RootedEmpty(wt: seq<int>, h: seq<int>)
    requires h != []
    ensures Rooted(wt, h, 0, Nodes(0))
  {
    assert multiset(h[1..1]) == multiset(Nodes(0));
  }

  lemma NextNode(i: nat)
    requires i >= 1
    ensures Nodes(i) == Nodes(i - 1) + {i} && i !in Nodes(i - 1)
  {
  }

  lemma LeafyWeight(wt: seq<int>, w: seq<nat>, i: int)
    requires Leafy(wt, [0] + w) && 1 <= i <= |w|
    ensures 0 <= i < |wt| && wt[i] == 256 * w[i - 1] >= 0
  {
  }

  lemma LastOne(h: seq<int>, wt: seq<int>, live: set<int>)
    requires Rooted(wt, h, 1, live)
    ensures live == {h[1]}
  {
    HeapedMember(h, 1, live, 1);
    forall r | r in live ensures r == h[1] { var k := HeapedPlace(h, 1, live, r); }
  }

  /** Joins roots until one is left. */
  method BuildTree(heap: array<int>, weight: array<int>, parent: array<int>, alphaSize: int, ghost wt: seq<int>,
                   ghost w: seq<nat>)
    returns (nNodes: int, ghost f: Forest, ghost wt': seq<int>, ghost p: seq<int>, ghost r: int)
    requires heap != weight && heap != parent && weight != parent && weight.Length == parent.Length == NODES
    requires heap.Length == HEAP_CELLS && |w| == alphaSize && Weighable(w)
    requires wt == weight[..] && Leafy(wt, [0] + w)
    modifies heap, weight, parent
    ensures wt' == weight[..] && p == parent[..] && f.live == {r} && |wt'| == |wt|
    ensures Building(heap[..], wt', p, 1, nNodes, f, [0] + w, Start([0] + w, NODES))
  {
    hide *;
    LeafyBounds(wt, w);
    FillHeap(heap, weight, parent, alphaSize, wt, w);
    nNodes := alphaSize;
    var nHeap := alphaSize;
    ghost var start := Start([0] + w, NODES);
    f, wt', p := start, wt, parent[..];
    while nHeap > 1
      invariant 1 <= nHeap <= alphaSize && nNodes + nHeap == 2 * alphaSize
      invariant wt' == weight[..] && p == parent[..]
      invariant Building(heap[..], wt', p, nHeap, nNodes, f, [0] + w, start)
    {
      wt', p, f := JoinLeast(heap, weight, parent, nHeap, nNodes, wt', p, f, [0] + w, start);
      nHeap, nNodes := nHeap - 1, nNodes + 1;
    }
    BuildingRoots(heap[..], wt', p, 1, nNodes, f, [0] + w, start);
    LastOne(heap[..], wt', f.live);
    r := heap[1];
  }

  // Reading off the code lengths.

  /** Follows the links up from every symbol. */
  method ReadLengths(parent: array<int>, len: array<nat>, alphaSize: int, maxLen: int, ghost q: seq<int>,
                     ghost f: Forest)
    returns (tooLong: bool, ghost at: int)
    requires 0 < alphaSize <= len.Length && |f.dep| == alphaSize + 1
    requires |q| <= parent.Length && q == parent[..|q|] && Linked(q, f)
    modifies len
    ensures forall i :: 0 <= i < alphaSize ==> len[i] == f.dep[i + 1]
    ensures tooLong ==> 0 <= at < alphaSize && len[at] > maxLen
    ensures !tooLong ==> forall i :: 0 <= i < alphaSize ==> len[i] <= maxLen
  {
    tooLong, at := false, 0;
    for i := 1 to alphaSize + 1
      invariant forall k :: 0 <= k < i - 1 ==> len[k] == f.dep[k + 1]
      invariant tooLong ==> 0 <= at < i - 1 && len[at] > maxLen
      invariant !tooLong ==> forall k :: 0 <= k < i - 1 ==> len[k] <= maxLen
    {
      var j, k := 0, i;
      while parent[k] >= 0
        invariant 0 <= k < |q| && j + Hops(q, k) == f.dep[i]
        decreases |q| - k
      {
        assert q[k] == parent[k];
        k := parent[k];
        j := j + 1;
      }
      assert q[k] == parent[k];
      len[i - 1] := j;
      if j > maxLen {
        tooLong := true;
        at := i - 1;
      }
    }
  }

  lemma TreeResult(h: seq<int>, wt: seq<int>, p: seq<int>, nodes: int, f: Forest, w: seq<nat>, r: int)
    requires Weighable(w) && f.live == {r}
    requires Building(h, wt, p, 1, nodes, f, [0] + w, Start([0] + w, NODES))
    ensures 0 <= nodes < |p| && Linked(p[..nodes + 1], f) && Leafy(wt, [0] + w) && |f.dep| == |w| + 1
    ensures KraftSum(f.dep[1..]) == 1.0 && Optimal(w, f.dep[1..])
    ensures Total(w) < Fib(13) ==> forall i :: 1 <= i <= |w| ==> f.dep[i] <= 12
  {
    hide *;
    WeighableBounds(w);
    BuildingFacts(h, wt, p, 1, nodes, f, [0] + w, Start([0] + w, NODES));
    GrownFacts(f, nodes, [0] + w, Start([0] + w, NODES));
    NumberedTotal(w);
    TreeOptimal(w, NODES, nodes, f, r);
    if Total(w) < Fib(13) {
      forall i | 1 <= i <= |w| ensures f.dep[i] <= 12 { TreeDepth([0] + w, nodes, f, 12, i); }
    }
  }

  lemma GrownFacts(f: Forest, n: int, w: seq<nat>, start: Forest)
    requires Grown(f, n, w, start)
    ensures Weighed(f, n, w) && Deep(f, n) && Heavy(f, n) && |f.dep| == |w|
  {
  }

  lemma WeighableBounds(w: seq<nat>)
    requires Weighable(w)
    ensures 2 <= |w| < NODES && NODES >= 0
  {
  }

  // Scaling down.

  /** The frequencies as weights: a symbol that does not occur counts as occurring once. */
  function Counted(freq: seq<nat>): seq<nat> {
    seq(|freq|, i requires 0 <= i < |freq| => if freq[i] == 0 then 1 else freq[i])
  }

  function Halved(w: seq<nat>): seq<nat> {
    seq(|w|, i requires 0 <= i < |w| => 1 + w[i] / 2)
  }

  function Rescaled(w: seq<nat>, rounds: nat): seq<nat> {
    if rounds == 0 then w else Halved(Rescaled(w, rounds - 1))
  }

  ghost predicate TooLong(ls: seq<nat>, maxLen: int) {
    exists i :: 0 <= i < |ls| && ls[i] > maxLen
  }

  /** Some optimal code for these weights is too long. */
  ghost predicate Overflows(w: seq<nat>, maxLen: int) {
    exists ls :: Optimal(w, ls) && TooLong(ls, maxLen)
  }

  /** The lengths are optimal for the weights after some rounds of scaling, each of them forced. */
  ghost predicate FittedAfter(freq: seq<nat>, ls: seq<nat>, maxLen: int, rounds: nat) {
    && Optimal(Rescaled(Counted(freq), rounds), ls)
    && forall k :: 0 <= k < rounds ==> Overflows(Rescaled(Counted(freq), k), maxLen)
  }

  ghost predicate Fitted(freq: seq<nat>, ls: seq<nat>, maxLen: int) {
    exists rounds: nat :: FittedAfter(freq, ls, maxLen, rounds)
  }

  /** For symbols that all occur and whose optimal codes are not too long, they are optimal for how
      often the symbols occur. */
  lemma FittedPlain(freq: seq<nat>, ls: seq<nat>, maxLen: int)
    requires Fitted(freq, ls, maxLen) && forall i :: 0 <= i < |freq| ==> freq[i] >= 1
    requires forall any :: Optimal(freq, any) ==> !TooLong(any, maxLen)
    ensures Optimal(freq, ls)
  {
    hide Optimal, TooLong, FittedAfter;
    assert Counted(freq) == freq;
    RescaledStart(freq);
    var rounds: nat :| FittedAfter(freq, ls, maxLen, rounds);
    FirstForced(freq, ls, maxLen, rounds);
  }

  lemma FirstForced(freq: seq<nat>, ls: seq<nat>, maxLen: int, rounds: nat)
    requires FittedAfter(freq, ls, maxLen, rounds)
    ensures if rounds > 0 then Overflows(Counted(freq), maxLen) else Optimal(Counted(freq), ls)
  {
    hide Optimal, Overflows;
    RescaledStart(Counted(freq));
    assert Rescaled(Counted(freq), 0) == Counted(freq);
  }

  /** Scaling down halves a weight and adds at most one, or one half. */
  lemma HalvedBounds(w: seq<nat>, i: int)
    requires 0 <= i < |w|
    ensures |Halved(w)| == |w| && w[i] + 1 <= 2 * Halved(w)[i] <= w[i] + 2
  {
  }

  lemma {:induction false} SmallTotal(w: seq<nat>)
    requires forall i :: 0 <= i < |w| ==> w[i] <= 2
    ensures Total(w) <= 2 * |w|
  {
    if w != [] { SmallTotal(w[..|w| - 1]); }
  }

  /** Scaling down lowers the total weight as long as some weight is above 2. */
  lemma HalvedLess(w: seq<nat>)
    requires Weighable(w)
    ensures Weighable(Halved(w)) && 0 <= Total(Halved(w)) <= Total(w)
    ensures (exists i :: 0 <= i < |w| && w[i] > 2) ==> Total(Halved(w)) < Total(w)
  {
    TotalMono(Halved(w), w);
    var z := seq(|w|, i => 0);
    TotalZeros(z);
    TotalMono(z, Halved(w));
    if i :| 0 <= i < |w| && w[i] > 2 { assert Halved(w)[i] < w[i]; }
  }

  lemma FibThirteen()
    ensures Fib(13) == 610
  {
  }

  /** An over-long code means some weight is above 2: otherwise the total is below the least
      total weight of a tree of height 13. */
  lemma OverlongHeavy(w: seq<nat>, dep: seq<nat>, maxLen: int, at: int)
    requires Weighable(w) && maxLen >= 12 && |dep| == |w| + 1
    requires Total(w) < Fib(13) ==> forall i :: 1 <= i <= |w| ==> dep[i] <= 12
    requires 0 <= at < |w| && dep[at + 1] > maxLen
    ensures exists i :: 0 <= i < |w| && w[i] > 2
  {
    if forall i :: 0 <= i < |w| ==> w[i] <= 2 {
      SmallTotal(w);
      FibThirteen();
      assert false;
    }
  }

  /** Scales the symbols' weights. */
  method Rescale(weight: array<int>, alphaSize: int, ghost w: seq<nat>)
    requires |w| == alphaSize < weight.Length && Leafy(weight[..], [0] + w)
    modifies weight
    ensures Leafy(weight[..], [0] + Halved(w))
  {
    for i := 1 to alphaSize + 1
      invariant weight[0] == 0
      invariant forall k :: 1 <= k < i ==> weight[k] == 256 * Halved(w)[k - 1]
      invariant forall k :: i <= k <= alphaSize ==> weight[k] == 256 * w[k - 1]
    {
      var j := weight[i] / 256;
      j := 1 + j / 2;
      weight[i] := j * 256;
    }
  }

  /** Packs the weights of the symbols. */
  method SetWeights(weight: array<int>, freq: array<nat>, alphaSize: int, ghost w: seq<nat>)
    requires 0 <= alphaSize < weight.Length && alphaSize <= freq.Length
    requires w == Counted(freq[..alphaSize])
    modifies weight
    ensures Leafy(weight[..], [0] + w)
  {
    weight[0] := 0;
    for i := 0 to alphaSize
      invariant weight[0] == 0 && forall k :: 1 <= k <= i ==> weight[k] == 256 * w[k - 1]
    {
      weight[i + 1] := (if freq[i] == 0 then 1 else freq[i]) * 256;
    }
  }

  /** Builds one tree and reads the lengths from it. */
  method OneRound(heap: array<int>, weight: array<int>, parent: array<int>, len: array<nat>,
                  alphaSize: int, maxLen: int, ghost w: seq<nat>)
    returns (tooLong: bool)
    requires heap != weight && heap != parent && weight != parent
    requires weight.Length == parent.Length == NODES && heap.Length == HEAP_CELLS
    requires |w| == alphaSize <= len.Length && Weighable(w) && Leafy(weight[..], [0] + w) && maxLen >= 12
    modifies heap, weight, parent, len
    ensures Leafy(weight[..], [0] + w)
    ensures KraftSum(len[..alphaSize]) == 1.0 && Optimal(w, len[..alphaSize])
    ensures !tooLong ==> forall i :: 0 <= i < alphaSize ==> 1 <= len[i] <= maxLen
    ensures tooLong ==> Overflows(w, maxLen) && exists i :: 0 <= i < alphaSize && w[i] > 2
  {
    hide *;
    WeighableBounds(w);
    var nNodes, f, wt, p, r := BuildTree(heap, weight, parent, alphaSize, weight[..], w);
    TreeResult(heap[..], wt, p, nNodes, f, w, r);
    ghost var at;
    tooLong, at := ReadLengths(parent, len, alphaSize, maxLen, p[..nNodes + 1], f);
    assert len[..alphaSize] == f.dep[1..];
    assert weight[..] == wt;
    if tooLong {
      OverlongHeavy(w, f.dep, maxLen, at);
      OverflowAt(w, f.dep[1..], maxLen, at);
    } else {
      forall i | 0 <= i < alphaSize ensures 1 <= len[i] { NoneEmpty(f.dep[1..], i); }
    }
  }

  lemma OverflowAt(w: seq<nat>, ls: seq<nat>, maxLen: int, at: int)
    requires Optimal(w, ls) && 0 <= at < |ls| && ls[at] > maxLen
    ensures Overflows(w, maxLen)
  {
  }

  lemma ArraySizes()
    ensures HEAP_CELLS > 0 && NODES > MAX_ALPHA_SIZE > 0
  {
  }

  lemma CountedWeighable(freq: seq<nat>)
    requires 2 <= |freq| <= MAX_ALPHA_SIZE && Total(Counted(freq)) < WEIGHT_LIMIT
    ensures |Counted(freq)| == |freq| && Weighable(Counted(freq))
  {
  }

  lemma RescaledStart(w: seq<nat>)
    ensures Rescaled(w, 0) == w
  {
  }

  lemma RescaledNext(w: seq<nat>, rounds: nat)
    ensures Rescaled(w, rounds + 1) == Halved(Rescaled(w, rounds))
    ensures |Halved(Rescaled(w, rounds))| == |Rescaled(w, rounds)|
  {
  }

  /** Computes code lengths for the symbols. The lengths are optimal for the frequencies
      halved `rounds` times; each halving was because an optimal code was too long. */
  method MakeCodeLengths(len: array<nat>, freq: array<nat>, alphaSize: int, maxLen: int)
    returns (ghost rounds: nat)
    requires len != freq && 2 <= alphaSize <= MAX_ALPHA_SIZE && alphaSize <= len.Length && alphaSize <= freq.Length
    requires Total(Counted(freq[..alphaSize])) < WEIGHT_LIMIT
    requires maxLen >= 12
    modifies len
    ensures forall i :: 0 <= i < alphaSize ==> 1 <= len[i] <= maxLen
    ensures KraftSum(len[..alphaSize]) == 1.0
    ensures Optimal(Rescaled(Counted(freq[..alphaSize]), rounds), len[..alphaSize])
    ensures forall k :: 0 <= k < rounds ==> Overflows(Rescaled(Counted(freq[..alphaSize]), k), maxLen)
    ensures Fitted(freq[..alphaSize], len[..alphaSize], maxLen)
  {
    hide *;
    ArraySizes();
    CountedWeighable(freq[..alphaSize]);
    var heap := new int[HEAP_CELLS];
    var weight := new int[NODES];
    var parent := new int[NODES];
    ghost var counted := Counted(freq[..alphaSize]);
    ghost var w := counted;
    SetWeights(weight, freq, alphaSize, w);
    rounds := 0;
    RescaledStart(w);
    var tooLong := true;
    while tooLong
      invariant |w| == alphaSize && Weighable(w) && w == Rescaled(counted, rounds)
      invariant Leafy(weight[..], [0] + w)
      invariant !tooLong ==> forall i :: 0 <= i < alphaSize ==> 1 <= len[i] <= maxLen
      invariant !tooLong ==> KraftSum(len[..alphaSize]) == 1.0 && Optimal(w, len[..alphaSize])
      invariant forall k :: 0 <= k < rounds ==> Overflows(Rescaled(counted, k), maxLen)
      decreases Total(w), tooLong
    {
      tooLong := OneRound(heap, weight, parent, len, alphaSize, maxLen, w);
      if tooLong {
        Rescale(weight, alphaSize, w);
        HalvedLess(w);
        RescaledNext(counted, rounds);
        w := Halved(w);
        rounds := rounds + 1;
      }
    }
    FittedBy(freq[..alphaSize], len[..alphaSize], maxLen, rounds);
  }

  lemma FittedBy(freq: seq<nat>, ls: seq<nat>, maxLen: int, rounds: nat)
    requires Optimal(Rescaled(Counted(freq), rounds), ls)
    requires forall k :: 0 <= k < rounds ==> Overflows(Rescaled(Counted(freq), k), maxLen)
    ensures Fitted(freq, ls, maxLen)
  {
    hide Counted, Optimal, Overflows, Rescaled;
    assert FittedAfter(freq, ls, maxLen, rounds);
  }
}
