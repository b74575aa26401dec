/** The forest of partial code trees that a Huffman construction grows.

    Symbols are the nodes 1..A. Every symbol lies under one live root, at some depth.
 */
module HuffmanForest {
  import opened Sums
  import opened PrefixCost

  /** live: the roots; top, dep: the root and depth of each symbol;
      mass, height: of each node; cost: the sum of the masses of all joined nodes. */
  datatype Forest = Forest(live: set<int>, top: seq<int>, dep: seq<nat>,
                           mass: seq<nat>, height: seq<nat>, cost: int)

  ghost predicate Formed(f: Forest, n: int) {
    && |f.top| == |f.dep| >= 2 && n < |f.mass| == |f.height|
    && (forall r :: r in f.live ==> 1 <= r <= n)
    && f.top[0] == 0 && f.dep[0] == 0
    && (forall i :: 1 <= i < |f.top| ==> f.top[i] in f.live)
  }

  function UnderMass(w: seq<nat>, top: seq<int>, r: int): seq<int>
    requires |w| == |top|
  {
    seq(|w|, i requires 0 <= i < |w| => if top[i] == r then w[i] else 0)
  }

  function UnderHalf(dep: seq<nat>, top: seq<int>, r: int): seq<real>
    requires |dep| == |top|
  {
    seq(|dep|, i requires 0 <= i < |dep| => if top[i] == r then Half(dep[i]) else 0.0)
  }

  /** Each root's mass is that of the symbols under it. */
  ghost predicate Weighed(f: Forest, n: int, w: seq<nat>) {
    && Formed(f, n) && |w| == |f.top|
    && forall r :: r in f.live ==> f.mass[r] == Total(UnderMass(w, f.top, r))
  }

  /** Each root's symbols share out all codes among them. */
  ghost predicate Shared(f: Forest, n: int) {
    && Formed(f, n)
    && forall r :: r in f.live ==> Sum(UnderHalf(f.dep, f.top, r)) == 1.0
  }

  /** The cost is the weighted length of the codes so far. */
  ghost predicate Costed(f: Forest, n: int, w: seq<nat>) {
    Formed(f, n) && |w| == |f.top| && f.cost == Total(Lengths(w, f.dep))
  }

  /** No symbol is deeper than its root is high. */
  ghost predicate Deep(f: Forest, n: int) {
    && Formed(f, n)
    && forall i :: 1 <= i < |f.top| ==> f.dep[i] <= f.height[f.top[i]]
  }

  function Fib(k: nat): (r: nat)
    ensures r >= 1
  {
    if k == 0 then 1 else if k == 1 then 2 else Fib(k - 1) + Fib(k - 2)
  }

  /** A high tree is heavy, and so is every other root beside it. */
  ghost predicate Heavy(f: Forest, n: int) {
    && Formed(f, n)
    && (forall r :: r in f.live ==> f.mass[r] >= Fib(f.height[r]))
    && (forall r, s :: r in f.live && s in f.live && r != s && f.height[r] >= 1
          ==> f.mass[s] >= Fib(f.height[r] - 1))
  }

  /** A bound on joining what is left bounds the whole. */
  ghost predicate Bounded(f: Forest, n: int, start: Forest) {
    && Formed(f, n) && Formed(start, n)
    && forall c :: LowerBound(f.live, f.mass, c) ==> LowerBound(start.live, start.mass, c + f.cost)
  }

  ghost predicate Grown(f: Forest, n: int, w: seq<nat>, start: Forest) {
    Weighed(f, n, w) && Shared(f, n) && Costed(f, n, w) && Deep(f, n) && Heavy(f, n) && Bounded(f, n, start)
  }

  function Nodes(a: nat): (s: set<int>)
    ensures forall r :: r in s <==> 1 <= r <= a
  {
    if a == 0 then {} else Nodes(a - 1) + {a}
  }

  /** The symbols 1..a, each a root, with weights w[1..], in room for n nodes. */
  function Start(w: seq<nat>, n: nat): Forest
    requires 2 <= |w| <= n
  {
    Forest(Nodes(|w| - 1),
           seq(|w|, i => i), seq(|w|, i => 0), w + seq(n - |w|, i => 0), seq(n, i => 0), 0)
  }

  function Merge(f: Forest, p: int, q: int, m: int): Forest
    requires Formed(f, m - 1) && 1 <= m < |f.mass| && p in f.live && q in f.live
  {
    Forest(f.live - {p, q} + {m},
           seq(|f.top|, i requires 0 <= i < |f.top| => if f.top[i] == p || f.top[i] == q then m else f.top[i]),
           seq(|f.dep|, i requires 0 <= i < |f.dep| =>
               if f.top[i] == p || f.top[i] == q then f.dep[i] + 1 else f.dep[i]),
           f.mass[m := f.mass[p] + f.mass[q]],
           f.height[m := 1 + if f.height[p] > f.height[q] then f.height[p] else f.height[q]],
           f.cost + f.mass[p] + f.mass[q])
  }

  /** What p and q must be: two lightest roots. */
  ghost predicate Least(f: Forest, p: int, q: int, m: int) {
    && Formed(f, m - 1) && 1 <= m < |f.mass| && p in f.live && q in f.live && p != q
    && (forall r :: r in f.live ==> f.mass[p] <= f.mass[r])
    && (forall r :: r in f.live && r != p ==> f.mass[q] <= f.mass[r])
  }

  lemma MergeFormed(f: Forest, p: int, q: int, m: int)
    requires Least(f, p, q, m)
    ensures Formed(Merge(f, p, q, m), m)
  {
  }

  lemma MergeWeighed(f: Forest, p: int, q: int, m: int, w: seq<nat>)
    requires Least(f, p, q, m) && Weighed(f, m - 1, w)
    ensures Weighed(Merge(f, p, q, m), m, w)
  {
    hide Heavy, Deep;
    var g := Merge(f, p, q, m);
    forall r | r in g.live ensures g.mass[r] == Total(UnderMass(w, g.top, r)) {
      if r == m {
        TotalAdd(UnderMass(w, f.top, p), UnderMass(w, f.top, q), UnderMass(w, g.top, m));
      } else {
        assert UnderMass(w, g.top, r) == UnderMass(w, f.top, r);
      }
    }
  }

  /** The symbols under p and q come to lie under m, one level deeper. */
  ghost predicate Joins(dep: seq<nat>, top: seq<int>, dep': seq<nat>, top': seq<int>, p: int, q: int, m: int) {
    && |dep| == |top| == |dep'| == |top'| && p != q
    && forall i :: 0 <= i < |dep| ==>
      && top[i] != m
      && (if top[i] == p || top[i] == q then top'[i] == m && dep'[i] == dep[i] + 1
          else top'[i] == top[i] && dep'[i] == dep[i])
  }

  lemma MergeJoins(f: Forest, p: int, q: int, m: int)
    requires Least(f, p, q, m)
    ensures var g := Merge(f, p, q, m); Joins(f.dep, f.top, g.dep, g.top, p, q, m)
  {
  }

  lemma JoinShared(dep: seq<nat>, top: seq<int>, dep': seq<nat>, top': seq<int>, p: int, q: int, m: int)
    requires Joins(dep, top, dep', top', p, q, m)
    ensures Sum(UnderHalf(dep', top', m)) == (Sum(UnderHalf(dep, top, p)) + Sum(UnderHalf(dep, top, q))) / 2.0
    ensures forall r :: r != p && r != q && r != m ==> UnderHalf(dep', top', r) == UnderHalf(dep, top, r)
  {
    var a, b, c := UnderHalf(dep, top, p), UnderHalf(dep, top, q), UnderHalf(dep', top', m);
    forall i | 0 <= i < |dep| ensures c[i] == (a[i] + b[i]) / 2.0 {
      assert top[i] != m;
      if top[i] == p || top[i] == q { assert Half(dep[i] + 1) == Half(dep[i]) / 2.0; }
    }
    SumMean(a, b, c);
  }

  lemma MergeShared(f: Forest, p: int, q: int, m: int)
    requires Least(f, p, q, m) && Shared(f, m - 1)
    ensures Shared(Merge(f, p, q, m), m)
  {
    hide UnderHalf, Joins, Formed;
    var g := Merge(f, p, q, m);
    MergeFormed(f, p, q, m);
    MergeJoins(f, p, q, m);
    assert forall r :: r in g.live ==> r == m || (r in f.live && r != p && r != q);
    JoinShared(f.dep, f.top, g.dep, g.top, p, q, m);
  }

  lemma Longer(w: int, d: int)
    ensures w * (d + 1) == w * d + w
  {
  }

  lemma MergeCosted(f: Forest, p: int, q: int, m: int, w: seq<nat>)
    requires Least(f, p, q, m) && Weighed(f, m - 1, w) && Costed(f, m - 1, w)
    ensures Costed(Merge(f, p, q, m), m, w)
  {
    var g := Merge(f, p, q, m);
    var a, b, c := Lengths(w, f.dep), UnderMass(w, f.top, p), UnderMass(w, f.top, q);
    var ab := seq(|a|, i requires 0 <= i < |a| => a[i] + b[i]);
    forall i | 0 <= i < |a| ensures Lengths(w, g.dep)[i] == ab[i] + c[i] { Longer(w[i], f.dep[i]); }
    TotalAdd(a, b, ab);
    TotalAdd(ab, c, Lengths(w, g.dep));
  }

  lemma MergeDeep(f: Forest, p: int, q: int, m: int)
    requires Least(f, p, q, m) && Deep(f, m - 1)
    ensures Deep(Merge(f, p, q, m), m)
  {
  }

  lemma {:induction false} FibMono(j: nat, k: nat)
    requires j <= k
    ensures Fib(j) <= Fib(k)
  {
    if j < k { FibMono(j, k - 1); }
  }

  /** Two joined trees, hi the higher of them, weigh enough for the height they get. */
  lemma HeavySum(f: Forest, n: int, hi: int, lo: int)
    requires Heavy(f, n) && hi in f.live && lo in f.live && hi != lo && f.height[lo] <= f.height[hi]
    ensures f.mass[hi] + f.mass[lo] >= Fib(1 + f.height[hi])
  {
  }

  lemma MergeBeside(f: Forest, p: int, q: int, m: int, g: Forest, r: int, s: int)
    requires Least(f, p, q, m) && Heavy(f, m - 1) && g == Merge(f, p, q, m) && Formed(g, m)
    requires r in g.live && s in g.live && r != s && g.height[r] >= 1
    ensures g.mass[s] >= Fib(g.height[r] - 1)
  {
    hide Fib;
    if s == m { assert f.mass[p] >= Fib(f.height[r] - 1); }
  }

  lemma MergeHeavy(f: Forest, p: int, q: int, m: int)
    requires Least(f, p, q, m) && Heavy(f, m - 1)
    ensures Heavy(Merge(f, p, q, m), m)
  {
    hide Fib;
    MergeFormed(f, p, q, m);
    var g := Merge(f, p, q, m);
    if f.height[p] > f.height[q] { HeavySum(f, m - 1, p, q); } else { HeavySum(f, m - 1, q, p); }
    assert g.mass[m] >= Fib(g.height[m]);
    forall r, s | r in g.live && s in g.live && r != s && g.height[r] >= 1
      ensures g.mass[s] >= Fib(g.height[r] - 1)
    {
      MergeBeside(f, p, q, m, g, r, s);
    }
  }

  lemma MergeBounded(f: Forest, p: int, q: int, m: int, start: Forest)
    requires Least(f, p, q, m) && Bounded(f, m - 1, start) && m < |start.mass|
    ensures Bounded(Merge(f, p, q, m), m, start)
  {
    hide LowerBound;
    MergeFormed(f, p, q, m);
    var g := Merge(f, p, q, m);
    forall c | LowerBound(g.live, g.mass, c) ensures LowerBound(start.live, start.mass, c + g.cost) {
      MergeBound(f.live, f.mass, p, q, m, c);
      assert LowerBound(f.live, f.mass, c + f.mass[p] + f.mass[q]);
      assert c + f.mass[p] + f.mass[q] + f.cost == c + g.cost;
    }
  }

  lemma MergeGrown(f: Forest, p: int, q: int, m: int, w: seq<nat>, start: Forest)
    requires Least(f, p, q, m) && Grown(f, m - 1, w, start) && m < |start.mass|
    ensures Grown(Merge(f, p, q, m), m, w, start)
  {
    hide Least, Weighed, Shared, Costed, Deep, Heavy, Bounded, Merge;
    MergeWeighed(f, p, q, m, w);
    MergeShared(f, p, q, m);
    MergeCosted(f, p, q, m, w);
    MergeDeep(f, p, q, m);
    MergeHeavy(f, p, q, m);
    MergeBounded(f, p, q, m, start);
  }

  /** The weights of symbols, none of them zero; entry 0 is no symbol. */
  ghost predicate Weights(w: seq<nat>) {
    |w| >= 2 && w[0] == 0 && forall i :: 1 <= i < |w| ==> w[i] >= 1
  }

  lemma StartUnder(w: seq<nat>, n: nat, r: int)
    requires Weights(w) && |w| <= n && 1 <= r < |w|
    ensures var f := Start(w, n); Total(UnderMass(w, f.top, r)) == w[r] && Sum(UnderHalf(f.dep, f.top, r)) == 1.0
  {
    var f := Start(w, n);
    var z, y := seq(|w|, i => 0), seq(|w|, i => 0.0);
    TotalZeros(z);
    TotalUpdate(z, r, w[r]);
    assert UnderMass(w, f.top, r) == z[r := w[r]];
    SumZeros(y);
    SumUpdate(y, r, 1.0);
    assert UnderHalf(f.dep, f.top, r) == y[r := 1.0];
  }

  lemma StartFormed(w: seq<nat>, n: nat)
    requires Weights(w) && |w| <= n
    ensures Formed(Start(w, n), |w| - 1) && |w| == |Start(w, n).top|
  {
  }

  lemma StartRoots(w: seq<nat>, n: nat)
    requires Weights(w) && |w| <= n
    ensures Weighed(Start(w, n), |w| - 1, w) && Shared(Start(w, n), |w| - 1)
  {
    hide Total, Sum, UnderMass, UnderHalf;
    StartFormed(w, n);
    var f := Start(w, n);
    forall r | r in f.live
      ensures f.mass[r] == Total(UnderMass(w, f.top, r)) && Sum(UnderHalf(f.dep, f.top, r)) == 1.0
    {
      StartUnder(w, n, r);
    }
  }

  lemma StartCosted(w: seq<nat>, n: nat)
    requires Weights(w) && |w| <= n
    ensures Costed(Start(w, n), |w| - 1, w)
  {
    hide Total;
    StartFormed(w, n);
    TotalZeros(Lengths(w, Start(w, n).dep));
  }

  lemma StartHeavy(w: seq<nat>, n: nat)
    requires Weights(w) && |w| <= n
    ensures Deep(Start(w, n), |w| - 1) && Heavy(Start(w, n), |w| - 1)
  {
    hide Fib;
    StartFormed(w, n);
    FibNone();
  }

  lemma FibNone()
    ensures Fib(0) == 1
  {
  }

  lemma StartBounded(w: seq<nat>, n: nat)
    requires Weights(w) && |w| <= n
    ensures Bounded(Start(w, n), |w| - 1, Start(w, n))
  {
    hide LowerBound;
    StartFormed(w, n);
  }

  lemma StartGrown(w: seq<nat>, n: nat)
    requires Weights(w) && |w| <= n
    ensures Grown(Start(w, n), |w| - 1, w, Start(w, n))
  {
    hide Weighed, Shared, Costed, Deep, Heavy, Bounded, Start;
    StartRoots(w, n);
    StartCosted(w, n);
    StartHeavy(w, n);
    StartBounded(w, n);
  }

  /** No root is heavier than all the symbols. */
  lemma MassWithin(f: Forest, n: int, w: seq<nat>, r: int)
    requires Weighed(f, n, w) && r in f.live
    ensures f.mass[r] <= Total(w)
  {
    TotalMono(UnderMass(w, f.top, r), w);
  }

  /** Trees of a given total weight are no higher than a given height. */
  lemma HeightWithin(f: Forest, n: int, w: seq<nat>, r: int, h: nat)
    requires Weighed(f, n, w) && Heavy(f, n) && r in f.live && Total(w) < Fib(h + 1)
    ensures f.height[r] <= h
  {
    MassWithin(f, n, w, r);
    if f.height[r] > h { FibMono(h + 1, f.height[r]); }
  }

  /** What the construction is for: with one root left, the codes use up exactly all
      prefixes, and no lengths within that budget cost less. */
  lemma LastRoot(f: Forest, n: int, w: seq<nat>, start: Forest, r: int)
    requires Grown(f, n, w, start) && f.live == {r}
    ensures Sum(UnderHalf(f.dep, f.top, r)) == 1.0 && forall i :: 1 <= i < |f.top| ==> f.top[i] == r
    ensures LowerBound(start.live, start.mass, Total(Lengths(w, f.dep)))
  {
    hide Weighed, Deep, Heavy, Lengths, LowerBound, Sum, Total, UnderHalf;
    LoneBound(r, f.mass);
    assert LowerBound(start.live, start.mass, 0 + f.cost);
  }
}
