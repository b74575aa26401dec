/** Comparison of rotations in the main block sort, helped by the quadrant cache. */
module MainCompare {
  import opened Rotations

  const N_RADIX := 2
  const N_QSORT := 12
  const N_SHELL := 18
  const N_OVERSHOOT := N_RADIX + N_QSORT + N_SHELL + 2

  /** The block array: the block, followed by a copy of its first cells. */
  ghost predicate Overshot(b: seq<int>, ext: seq<int>) {
    && N_OVERSHOOT < |b| && |b| + N_OVERSHOOT <= |ext|
    && forall i :: 0 <= i < |b| + N_OVERSHOOT ==> ext[i] == Ch(b, i)
  }

  /** The quadrant array: where two cells of the block hold the same character, unequal
      quadrants tell the order of the rotations from there. */
  ghost predicate Quadrants(b: seq<int>, q: seq<int>) {
    && N_OVERSHOOT < |b| && |b| + N_OVERSHOOT <= |q|
    && (forall i :: 0 <= i < N_OVERSHOOT ==> q[|b| + i] == q[i])
    && (forall x, y :: 0 <= x < |b| && 0 <= y < |b| && b[x] == b[y] && q[x] < q[y] ==> Le(b, x, y))
  }

  /** Where t characters have been found equal, the rotations t further on, at whatever
      cells they have been wrapped to, decide. */
  lemma Decide(b: seq<int>, i: nat, j: nat, t: nat, i': nat, j': nat)
    requires |b| > 0 && Cmp(b, i, j, t) == 0
    requires Wrap(i', |b|) == Wrap(i + t, |b|) && Wrap(j', |b|) == Wrap(j + t, |b|)
    requires Le(b, i', j')
    ensures Le(b, i, j)
  {
    CmpWrapped(b, i', j', |b|);
    CmpWrapped(b, i + t, j + t, |b|);
    CmpSplit(b, i, j, t, |b|);
    CmpLong(b, i, j, t + |b|);
  }

  lemma WrapOnce(i: nat, n: nat)
    requires n > 0 && i < 2 * n
    ensures Wrap(i, n) == if i < n then i else i - n
  {
    if i >= n { assert Wrap(i - n, n) == i - n; }
  }

  lemma QuadrantLe(b: seq<int>, q: seq<int>, i: nat, j: nat)
    requires Quadrants(b, q) && i < |b| + N_OVERSHOOT && j < |b| + N_OVERSHOOT
    requires Ch(b, i) == Ch(b, j) && q[i] < q[j]
    ensures Le(b, i, j)
  {
    var n := |b|;
    var x, y := Wrap(i, n), Wrap(j, n);
    WrapOnce(i, n);
    WrapOnce(j, n);
    assert q[x] == q[i] && q[y] == q[j];
    CmpWrapped(b, i, j, n);
  }

  lemma MatchMore(b: seq<int>, i: nat, j: nat, t: nat, i': nat, j': nat)
    requires |b| > 0 && Cmp(b, i, j, t) == 0 && Ch(b, i') == Ch(b, j')
    requires Wrap(i', |b|) == Wrap(i + t, |b|) && Wrap(j', |b|) == Wrap(j + t, |b|)
    ensures Cmp(b, i, j, t + 1) == 0
    ensures Wrap(i' + 1, |b|) == Wrap(i + t + 1, |b|) && Wrap(j' + 1, |b|) == Wrap(j + t + 1, |b|)
  {
    CmpSplit(b, i, j, t, 1);
    assert Cmp(b, i + t + 1, j + t + 1, 0) == 0;
    WrapNext(i', i + t, |b|);
    WrapNext(j', j + t, |b|);
  }

  lemma {:induction false} WrapNext(x: nat, y: nat, n: nat)
    requires n > 0 && Wrap(x, n) == Wrap(y, n)
    ensures Wrap(x + 1, n) == Wrap(y + 1, n)
    decreases x + y
  {
    if x >= n {
      WrapNext(x - n, y, n);
    } else if y >= n {
      WrapNext(x, y - n, n);
    }
  }

  /** What is said of the rotations at i and j, either answer being right for equal ones. */
  ghost predicate Verdict(b: seq<int>, i: nat, j: nat, gt: bool)
    requires |b| > 0
  {
    if gt then Le(b, j, i) else Le(b, i, j)
  }

  /** t characters of the rotations at i and j are equal, and i', j' are the cells they lead to. */
  ghost predicate Matched(b: seq<int>, i: nat, j: nat, t: nat, i': nat, j': nat)
    requires |b| > 0
  {
    && Cmp(b, i, j, t) == 0
    && Wrap(i', |b|) == Wrap(i + t, |b|) && Wrap(j', |b|) == Wrap(j + t, |b|)
  }

  lemma VerdictThere(b: seq<int>, i: nat, j: nat, t: nat, i': nat, j': nat, gt: bool)
    requires |b| > 0 && Matched(b, i, j, t, i', j') && Verdict(b, i', j', gt)
    ensures Verdict(b, i, j, gt)
  {
    CmpAntisym(b, i, j, t);
    if gt { Decide(b, j, i, t, j', i'); } else { Decide(b, i, j, t, i', j'); }
  }

  lemma QuadrantVerdict(b: seq<int>, q: seq<int>, i: nat, j: nat)
    requires Quadrants(b, q) && i < |b| + N_OVERSHOOT && j < |b| + N_OVERSHOOT
    requires Ch(b, i) == Ch(b, j) && q[i] != q[j]
    ensures Verdict(b, i, j, q[i] > q[j])
  {
    if q[i] > q[j] { QuadrantLe(b, q, j, i); } else { QuadrantLe(b, q, i, j); }
  }

  /** The first twelve characters, compared without the quadrants. */
  method CompareHead(i: nat, j: nat, block: array<int>, ghost b: seq<int>) returns (decided: bool, gt: bool)
    requires Overshot(b, block[..]) && i <= |b| + 14 && j <= |b| + 14
    ensures decided ==> Verdict(b, i, j, gt)
    ensures !decided ==> Matched(b, i, j, 12, i + 12, j + 12)
  {
    var i1, i2 := i, j;
    for step := 0 to 12
      invariant i1 == i + step && i2 == j + step
      invariant Matched(b, i, j, step, i1, i2)
    {
      var c1, c2 := block[i1], block[i2];
      if c1 != c2 {
        VerdictThere(b, i, j, step, i1, i2, c1 > c2);
        return true, c1 > c2;
      }
      MatchMore(b, i, j, step, i1, i2);
      i1, i2 := i1 + 1, i2 + 1;
    }
    return false, false;
  }

  /** One more character, with its quadrant. */
  method CompareCell(i1: nat, i2: nat, block: array<int>, quadrant: array<int>,
                     ghost i: nat, ghost j: nat, ghost t: nat, ghost b: seq<int>)
    returns (decided: bool, gt: bool)
    requires Overshot(b, block[..]) && Quadrants(b, quadrant[..])
    requires i1 < |b| + N_OVERSHOOT && i2 < |b| + N_OVERSHOOT && Matched(b, i, j, t, i1, i2)
    ensures decided ==> Verdict(b, i, j, gt)
    ensures !decided ==> Matched(b, i, j, t + 1, i1 + 1, i2 + 1)
  {
    var c1, c2 := block[i1], block[i2];
    assert c1 == Ch(b, i1) && c2 == Ch(b, i2);
    if c1 != c2 {
      VerdictThere(b, i, j, t, i1, i2, c1 > c2);
      return true, c1 > c2;
    }
    var s1, s2 := quadrant[i1], quadrant[i2];
    if s1 != s2 {
      QuadrantVerdict(b, quadrant[..], i1, i2);
      VerdictThere(b, i, j, t, i1, i2, s1 > s2);
      return true, s1 > s2;
    }
    MatchMore(b, i, j, t, i1, i2);
    return false, false;
  }

  /** Eight more characters, with their quadrants. */
  method CompareOctet(i1: nat, i2: nat, block: array<int>, quadrant: array<int>,
                      ghost i: nat, ghost j: nat, ghost t: nat, ghost b: seq<int>)
    returns (decided: bool, gt: bool)
    requires Overshot(b, block[..]) && Quadrants(b, quadrant[..])
    requires i1 <= |b| + 26 && i2 <= |b| + 26 && Matched(b, i, j, t, i1, i2)
    ensures decided ==> Verdict(b, i, j, gt)
    ensures !decided ==> Matched(b, i, j, t + 8, i1 + 8, i2 + 8)
  {
    assert |b| > 0;
    hide Quadrants, Overshot, Verdict, Matched;
    for step := 0 to 8
      invariant Matched(b, i, j, t + step, i1 + step, i2 + step)
    {
      decided, gt := CompareCell(i1 + step, i2 + step, block, quadrant, i, j, t + step, b);
      if decided { return; }
      assert t + step + 1 == t + (step + 1);
    }
    return false, false;
  }

  /** Does the rotation at i exceed the one at j? No cell beyond the overshoot area is read. */
  method GtU(i: nat, j: nat, block: array<int>, quadrant: array<int>, n: nat, budget: int, ghost b: seq<int>)
    returns (gt: bool, left: int)
    requires n == |b| && Overshot(b, block[..]) && Quadrants(b, quadrant[..])
    requires i <= n + 14 && j <= n + 14
    ensures Verdict(b, i, j, gt)
    ensures left <= budget
  {
    hide *;
    Sized(b, block[..], quadrant[..]);
    left := budget;
    var decided;
    decided, gt := CompareHead(i, j, block, b);
    if decided { return; }
    var i1, i2 := i + 12, j + 12;
    var k := n + 8;
    ghost var t := 12;
    while true
      invariant t + k == n + 20 && 0 <= k
      invariant 0 <= i1 <= n + 26 && 0 <= i2 <= n + 26
      invariant Matched(b, i, j, t, i1, i2) && left <= budget
      decreases k
    {
      decided, gt := CompareOctet(i1, i2, block, quadrant, i, j, t, b);
      if decided { return; }
      i1, i2, t := i1 + 8, i2 + 8, t + 8;
      MatchedWrap(b, i, j, t, i1, i2);
      if i1 >= n { i1 := i1 - n; }
      MatchedWrap(b, i, j, t, i1, i2);
      if i2 >= n { i2 := i2 - n; }
      k := k - 8;
      left := left - 1;
      if k < 0 { break; }
    }
    gt := false;
    AllMatched(b, i, j, t, i1, i2);
  }

  lemma Sized(b: seq<int>, ext: seq<int>, q: seq<int>)
    requires Overshot(b, ext) && Quadrants(b, q)
    ensures |b| > 34
  {
  }

  /** Rotations that agree all the way are in order either way. */
  lemma AllMatched(b: seq<int>, i: nat, j: nat, t: nat, i': nat, j': nat)
    requires 0 < |b| <= t && Matched(b, i, j, t, i', j')
    ensures Verdict(b, i, j, false)
  {
    CmpSplit(b, i, j, |b|, t - |b|);
  }

  lemma {:induction false} MatchedWrap(b: seq<int>, i: nat, j: nat, t: nat, i': nat, j': nat)
    requires |b| > 0 && Matched(b, i, j, t, i', j')
    ensures i' >= |b| ==> Matched(b, i, j, t, i' - |b|, j')
    ensures j' >= |b| ==> Matched(b, i, j, t, i', j' - |b|)
  {
  }
}
