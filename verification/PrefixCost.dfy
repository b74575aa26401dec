/** Code lengths that a prefix code can have, and the lowest cost among them. */
module PrefixCost {
  import opened Sums
  import opened Words

  /** The share of all codes that begin with a code of l bits. */
  function Half(l: nat): (h: real)
    ensures 0.0 < h <= 1.0
  {
    if l == 0 then 1.0 else Half(l - 1) / 2.0
  }

  lemma {:induction false} HalfMono(j: nat, k: nat)
    requires j <= k
    ensures Half(k) <= Half(j)
  {
    if j < k { HalfMono(j, k - 1); }
  }

  function KraftTerms(live: set<int>, ls: seq<nat>): seq<real> {
    seq(|ls|, k requires 0 <= k < |ls| => if k in live then Half(ls[k]) else 0.0)
  }

  function CostTerms(live: set<int>, w: seq<nat>, ls: seq<nat>): seq<int>
    requires |w| == |ls|
  {
    seq(|ls|, k requires 0 <= k < |ls| => if k in live then w[k] * ls[k] else 0)
  }

  /** The Kraft sum of the lengths of the live symbols. */
  function Kraft(live: set<int>, ls: seq<nat>): real {
    Sum(KraftTerms(live, ls))
  }

  /** The total weighted length of the live symbols. */
  function Cost(live: set<int>, w: seq<nat>, ls: seq<nat>): int
    requires |w| == |ls|
  {
    Total(CostTerms(live, w, ls))
  }

  /** No lengths with a Kraft sum of at most 1 cost less than c. */
  ghost predicate LowerBound(live: set<int>, w: seq<nat>, c: int) {
    forall ls: seq<nat> :: |ls| == |w| && Kraft(live, ls) <= 1.0 ==> Cost(live, w, ls) >= c
  }

  lemma KraftUpdate(live: set<int>, ls: seq<nat>, k: int, l: nat)
    requires 0 <= k < |ls| && k in live
    ensures Kraft(live, ls[k := l]) == Kraft(live, ls) - Half(ls[k]) + Half(l)
  {
    assert KraftTerms(live, ls[k := l]) == KraftTerms(live, ls)[k := Half(l)];
    SumUpdate(KraftTerms(live, ls), k, Half(l));
  }

  lemma CostUpdate(live: set<int>, w: seq<nat>, ls: seq<nat>, k: int, l: nat)
    requires |w| == |ls| && 0 <= k < |ls| && k in live
    ensures Cost(live, w, ls[k := l]) == Cost(live, w, ls) - w[k] * ls[k] + w[k] * l
  {
    assert CostTerms(live, w, ls[k := l]) == CostTerms(live, w, ls)[k := w[k] * l];
    TotalUpdate(CostTerms(live, w, ls), k, w[k] * l);
  }

  lemma KraftTwo(live: set<int>, ls: seq<nat>, p: int, q: int)
    requires 0 <= p < |ls| && 0 <= q < |ls| && p != q && p in live && q in live
    ensures Half(ls[p]) + Half(ls[q]) <= Kraft(live, ls)
  {
    TwoTerms(KraftTerms(live, ls), p, q);
  }

  /** Giving the longer of two lengths to the lighter of two symbols costs nothing. */
  lemma Exchange(live: set<int>, w: seq<nat>, ls: seq<nat>, p: int, x: int) returns (ls': seq<nat>)
    requires |w| == |ls| && 0 <= p < |ls| && 0 <= x < |ls| && p in live && x in live
    requires w[p] <= w[x] && ls[p] <= ls[x]
    ensures ls' == ls[p := ls[x]][x := ls[p]]
    ensures Kraft(live, ls') == Kraft(live, ls) && Cost(live, w, ls') <= Cost(live, w, ls)
  {
    ls' := ls[p := ls[x]][x := ls[p]];
    if p == x {
      assert ls' == ls;
    } else {
      KraftUpdate(live, ls, p, ls[x]);
      KraftUpdate(live, ls[p := ls[x]], x, ls[p]);
      CostUpdate(live, w, ls, p, ls[x]);
      CostUpdate(live, w, ls[p := ls[x]], x, ls[p]);
      CrossProduct(w[p], w[x], ls[p], ls[x]);
    }
  }

  lemma CrossProduct(a: int, b: int, c: int, d: int)
    requires a <= b && c <= d
    ensures a * d + b * c <= a * c + b * d
  {
    assert (b - a) * (d - c) >= 0;
    assert (b - a) * (d - c) == b * d - b * c - a * d + a * c;
  }

  /** A live symbol other than `not` with the longest code. */
  lemma Longest(live: set<int>, ls: seq<nat>, not: int, q: int) returns (x: int)
    requires q in live && q != not && forall k :: k in live ==> 0 <= k < |ls|
    ensures x in live && x != not && forall k :: k in live && k != not ==> ls[k] <= ls[x]
    decreases live
  {
    var rest := live - {q};
    x := q;
    if y :| y in rest && y != not {
      x := Longest(rest, ls, not, y);
      if ls[x] < ls[q] { x := q; }
      assert forall k :: k in live && k != not ==> k == q || k in rest;
    } else {
      assert forall k :: k in live && k != not ==> k == q || k in rest;
    }
  }

  /** n shares of h. */
  function Shares(n: nat, h: real): (r: real)
    ensures h > 0.0 ==> r >= 0.0
  {
    if n == 0 then 0.0 else Shares(n - 1, h) + h
  }

  lemma {:induction false} SharesAdd(a: nat, b: nat, h: real)
    ensures Shares(a + b, h) == Shares(a, h) + Shares(b, h)
  {
    if b > 0 { SharesAdd(a, b - 1, h); }
  }

  lemma {:induction false} SharesDouble(n: nat, h: real)
    ensures Shares(n, 2.0 * h) == Shares(2 * n, h)
  {
    if n > 0 { SharesDouble(n - 1, h); }
  }

  lemma {:induction false} HalfShares(l: nat, q: nat)
    requires l <= q
    ensures Half(l) == Shares(Pow2(q - l), Half(q))
  {
    if l == q {
      assert Shares(1, Half(q)) == Shares(0, Half(q)) + Half(q);
    } else {
      HalfShares(l, q - 1);
      SharesDouble(Pow2(q - 1 - l), Half(q));
    }
  }

  /** A sum of shares of at most q bits is a whole number of shares of q bits. */
  lemma {:induction false} Whole(s: seq<real>, ls: seq<nat>, q: nat) returns (z: nat)
    requires |s| == |ls|
    requires forall k :: 0 <= k < |s| ==> s[k] == 0.0 || (ls[k] <= q && s[k] == Half(ls[k]))
    ensures Sum(s) == Shares(z, Half(q))
  {
    if s == [] {
      z := 0;
    } else {
      var n := |s| - 1;
      var y := Whole(s[..n], ls[..n], q);
      if s[n] == 0.0 {
        z := y;
      } else {
        z := y + Pow2(q - ls[n]);
        HalfShares(ls[n], q);
        SharesAdd(y, Pow2(q - ls[n]), Half(q));
      }
    }
  }

  /** Whole shares that leave room for something leave room for a whole share. */
  lemma WholeRoom(z: nat, q: nat)
    requires Shares(z, Half(q)) < 1.0
    ensures Shares(z, Half(q)) + Half(q) <= 1.0
  {
    HalfShares(0, q);
    var p := Pow2(q);
    if z >= p {
      SharesAdd(p, z - p, Half(q));
    } else {
      SharesAdd(z + 1, p - z - 1, Half(q));
    }
  }

  /** When all other codes have at most the q-th one's length, so may the p-th. */
  lemma Shorten(live: set<int>, ls: seq<nat>, p: int, q: int)
    requires p in live && q in live && p != q && forall k :: k in live ==> 0 <= k < |ls|
    requires Kraft(live, ls) <= 1.0 && forall k :: k in live && k != p ==> ls[k] <= ls[q]
    ensures Kraft(live, ls[p := ls[q]]) <= 1.0
  {
    var s := KraftTerms(live, ls);
    SumUpdate(s, p, 0.0);
    var z := Whole(s[p := 0.0], ls, ls[q]);
    WholeRoom(z, ls[q]);
    KraftUpdate(live, ls, p, ls[q]);
  }

  /** Lengths in which the two lightest symbols share the longest length, at no greater cost. */
  lemma Paired(live: set<int>, w: seq<nat>, ls: seq<nat>, p: int, q: int) returns (ls': seq<nat>)
    requires |ls| == |w| && p in live && q in live && p != q && forall k :: k in live ==> 0 <= k < |w|
    requires forall k :: k in live ==> w[p] <= w[k]
    requires forall k :: k in live && k != p ==> w[q] <= w[k]
    requires Kraft(live, ls) <= 1.0
    ensures |ls'| == |w| && Kraft(live, ls') <= 1.0 && Cost(live, w, ls') <= Cost(live, w, ls)
    ensures ls'[p] == ls'[q] >= 1
  {
    var x := Longest(live, ls, -1, p);
    var a := Exchange(live, w, ls, p, x);
    var y := Longest(live, a, p, q);
    var b := Exchange(live, w, a, q, y);
    assert forall k :: k in live && k != p ==> b[k] <= b[q] <= b[p];
    Shorten(live, b, p, q);
    ls' := b[p := b[q]];
    CostUpdate(live, w, b, p, b[q]);
    LongerCosts(w[p], b[q], b[p]);
    KraftTwo(live, ls', p, q);
  }

  lemma LongerCosts(w: nat, c: int, d: int)
    requires c <= d
    ensures w * c <= w * d
  {
  }

  lemma Swept(s: seq<real>, p: int, q: int, m: int, x: real)
    requires 0 <= p < |s| && 0 <= q < |s| && 0 <= m < |s| && p != q && p != m && q != m
    requires s[m] == 0.0
    ensures Sum(s[p := 0.0][q := 0.0][m := x]) == Sum(s) - s[p] - s[q] + x
  {
    SumUpdate(s, p, 0.0);
    SumUpdate(s[p := 0.0], q, 0.0);
    SumUpdate(s[p := 0.0][q := 0.0], m, x);
  }

  lemma SweptTotal(s: seq<int>, p: int, q: int, m: int, x: int)
    requires 0 <= p < |s| && 0 <= q < |s| && 0 <= m < |s| && p != q && p != m && q != m
    requires s[m] == 0
    ensures Total(s[p := 0][q := 0][m := x]) == Total(s) - s[p] - s[q] + x
  {
    TotalUpdate(s, p, 0);
    TotalUpdate(s[p := 0], q, 0);
    TotalUpdate(s[p := 0][q := 0], m, x);
  }

  lemma JoinedTerms(live: set<int>, ls: seq<nat>, p: int, q: int, m: int)
    requires p in live && q in live && p != q && forall k :: k in live ==> 0 <= k < |ls|
    requires m !in live && 0 <= m < |ls| && ls[p] >= 1
    ensures KraftTerms(live - {p, q} + {m}, ls[m := ls[p] - 1])
         == KraftTerms(live, ls)[p := 0.0][q := 0.0][m := Half(ls[p] - 1)]
  {
    hide Half;
  }

  lemma HalfLess(l: nat)
    requires l >= 1
    ensures Half(l - 1) == Half(l) + Half(l)
  {
  }

  lemma JoinedKraft(live: set<int>, ls: seq<nat>, p: int, q: int, m: int)
    requires p in live && q in live && p != q && forall k :: k in live ==> 0 <= k < |ls|
    requires m !in live && 0 <= m < |ls| && ls[p] == ls[q] >= 1
    ensures Kraft(live - {p, q} + {m}, ls[m := ls[p] - 1]) == Kraft(live, ls)
  {
    hide Half, Sum;
    var s := KraftTerms(live, ls);
    var x := Half(ls[p] - 1);
    JoinedTerms(live, ls, p, q, m);
    HalfLess(ls[p]);
    Swept(s, p, q, m, x);
  }

  lemma Joint(a: int, b: int, l: int)
    ensures (a + b) * (l - 1) == a * l + b * l - a - b
  {
  }

  lemma JoinedCost(live: set<int>, w: seq<nat>, ls: seq<nat>, p: int, q: int, m: int)
    requires |ls| == |w| && p in live && q in live && p != q && forall k :: k in live ==> 0 <= k < |w|
    requires m !in live && 0 <= m < |w| && ls[p] == ls[q] >= 1
    ensures Cost(live - {p, q} + {m}, w[m := w[p] + w[q]], ls[m := ls[p] - 1])
         == Cost(live, w, ls) - w[p] - w[q]
  {
    var t := CostTerms(live, w, ls);
    var v := (w[p] + w[q]) * (ls[p] - 1);
    assert CostTerms(live - {p, q} + {m}, w[m := w[p] + w[q]], ls[m := ls[p] - 1])
        == t[p := 0][q := 0][m := v];
    SweptTotal(t, p, q, m, v);
    assert t[p] == w[p] * ls[p] && t[q] == w[q] * ls[p];
    hide *;
    Joint(w[p], w[q], ls[p]);
  }

  /** The heart of Huffman's method: replacing the two lightest symbols by one of their joint
      weight lowers every bound on the cost by exactly that weight. */
  lemma MergeBound(live: set<int>, w: seq<nat>, p: int, q: int, m: int, c: int)
    requires p in live && q in live && p != q && forall k :: k in live ==> 0 <= k < |w|
    requires m !in live && 0 <= m < |w|
    requires forall k :: k in live ==> w[p] <= w[k]
    requires forall k :: k in live && k != p ==> w[q] <= w[k]
    requires LowerBound(live - {p, q} + {m}, w[m := w[p] + w[q]], c)
    ensures LowerBound(live, w, c + w[p] + w[q])
  {
    forall ls: seq<nat> | |ls| == |w| && Kraft(live, ls) <= 1.0
      ensures Cost(live, w, ls) >= c + w[p] + w[q]
    {
      var b := Paired(live, w, ls, p, q);
      JoinedKraft(live, b, p, q, m);
      JoinedCost(live, w, b, p, q, m);
    }
  }

  lemma LoneBound(r: int, w: seq<nat>)
    ensures LowerBound({r}, w, 0)
  {
    hide Cost, Kraft;
    forall ls: seq<nat> | |ls| == |w| && Kraft({r}, ls) <= 1.0 ensures Cost({r}, w, ls) >= 0 {
      CostPositive({r}, w, ls);
    }
  }

  lemma CostPositive(live: set<int>, w: seq<nat>, ls: seq<nat>)
    requires |ls| == |w|
    ensures Cost(live, w, ls) >= 0
  {
    hide Kraft, Sum;
    var t := CostTerms(live, w, ls);
    TotalPositive(t);
  }

  lemma TotalPositive(t: seq<int>)
    requires forall k :: 0 <= k < |t| ==> t[k] >= 0
    ensures Total(t) >= 0
  {
    hide Total;
    var z := seq(|t|, i => 0);
    TotalZeros(z);
    TotalMono(z, t);
  }

  function Halves(ls: seq<nat>): seq<real> {
    seq(|ls|, i requires 0 <= i < |ls| => Half(ls[i]))
  }

  /** The Kraft sum: a prefix code with these lengths exists exactly when it is at most 1. */
  function KraftSum(ls: seq<nat>): real {
    Sum(Halves(ls))
  }

  function Lengths(w: seq<nat>, ls: seq<nat>): seq<int>
    requires |w| == |ls|
  {
    seq(|w|, i requires 0 <= i < |w| => w[i] * ls[i])
  }

  /** How long a message is in which symbol i occurs w[i] times. */
  function WeightedLength(w: seq<nat>, ls: seq<nat>): int
    requires |w| == |ls|
  {
    Total(Lengths(w, ls))
  }

  /** Lengths of a prefix code with the shortest message. */
  ghost predicate Optimal(w: seq<nat>, ls: seq<nat>) {
    && |w| == |ls| && KraftSum(ls) <= 1.0
    && forall any: seq<nat> :: |any| == |w| && KraftSum(any) <= 1.0 ==> WeightedLength(w, ls) <= WeightedLength(w, any)
  }

  /** When all codes are used up by two symbols or more, none has an empty code. */
  lemma NoneEmpty(ls: seq<nat>, i: int)
    requires |ls| >= 2 && KraftSum(ls) <= 1.0 && 0 <= i < |ls|
    ensures ls[i] >= 1
  {
    var j := if i == 0 then 1 else 0;
    TwoTerms(Halves(ls), i, j);
  }
}
