/** Initial run-length coding: a run of four to 255 equal bytes becomes four of them and a
    count of the rest; shorter runs stay as they are.
 */
module RunLength {
  import opened MoveToFront

  /** A run of `len` bytes `ch`. */
  datatype Pair = Pair(ch: int, len: nat)

  function PairBytes(p: Pair): seq<int> {
    if p.len < 4 then Repeat(p.ch, p.len) else Repeat(p.ch, 4) + [p.len - 4]
  }

  function Squeezed(ps: seq<Pair>): seq<int> {
    if ps == [] then [] else Squeezed(ps[..|ps| - 1]) + PairBytes(ps[|ps| - 1])
  }

  function Plain(ps: seq<Pair>): seq<int> {
    if ps == [] then [] else Plain(ps[..|ps| - 1]) + Repeat(ps[|ps| - 1].ch, ps[|ps| - 1].len)
  }

  /** Only a run of 255 may be followed by a run of the same byte. */
  ghost predicate Runs(ps: seq<Pair>) {
    && (forall i :: 0 <= i < |ps| ==> 1 <= ps[i].len <= 255 && 0 <= ps[i].ch < 256)
    && (forall i, j :: 0 <= i && j == i + 1 < |ps| && ps[i].ch == ps[j].ch ==> ps[i].len == 255)
  }

  /** Runs as a count can tell them: up to 259, and only one of four or more may be followed by a run of
      the same byte. */
  ghost predicate LooseRuns(ps: seq<Pair>) {
    && (forall i :: 0 <= i < |ps| ==> 1 <= ps[i].len <= 259 && 0 <= ps[i].ch < 256)
    && (forall i, j :: 0 <= i && j == i + 1 < |ps| && ps[i].ch == ps[j].ch ==> ps[i].len >= 4)
  }

  lemma RunsLoose(ps: seq<Pair>)
    requires Runs(ps)
    ensures LooseRuns(ps)
  {
  }

  // Expanding.

  /** How many bytes the run at p stands for, and where the next run starts. Of b the block is the
      first n cells; what is beyond may be looked at, but a run that ends there is cut short. */
  function RunAt(b: seq<int>, n: nat, p: nat): (r: (nat, nat))
    requires p < n && n + 2 <= |b| && forall i :: 0 <= i < |b| ==> 0 <= b[i] < 256
    ensures p < r.1 <= n + 1 && r.0 >= 1
  {
    if p + 1 == n || b[p + 1] != b[p] then (1, p + 1)
    else if p + 2 == n || b[p + 2] != b[p] then (2, p + 2)
    else if p + 3 == n || b[p + 3] != b[p] then (3, p + 3)
    else (b[p + 4] + 4, p + 5)
  }

  /** What the block stands for from p on. */
  function Expanded(b: seq<int>, n: nat, p: nat): seq<int>
    requires n + 2 <= |b| && forall i :: 0 <= i < |b| ==> 0 <= b[i] < 256
    decreases n + 1 - p
  {
    if p >= n then [] else
    var r := RunAt(b, n, p);
    Repeat(b[p], r.0) + Expanded(b, n, r.1)
  }

  /** Whether the last run has its count. */
  predicate Whole(b: seq<int>, n: nat, p: nat)
    requires n + 2 <= |b| && forall i :: 0 <= i < |b| ==> 0 <= b[i] < 256
    decreases n + 1 - p
  {
    if p >= n then p == n else Whole(b, n, RunAt(b, n, p).1)
  }

  /** The bytes of a run, and the block after it. */
  lemma RunOfPair(b: seq<int>, n: nat, p: nat, pair: Pair)
    requires n + 2 <= |b| && forall i :: 0 <= i < |b| ==> 0 <= b[i] < 256
    requires 1 <= pair.len <= 259 && p + |PairBytes(pair)| <= n && b[p..p + |PairBytes(pair)|] == PairBytes(pair)
    requires p + |PairBytes(pair)| < n && pair.len < 4 ==> b[p + |PairBytes(pair)|] != pair.ch
    ensures p < n && b[p] == pair.ch && RunAt(b, n, p) == (pair.len, p + |PairBytes(pair)|)
  {
    var w := PairBytes(pair);
    assert forall i :: 0 <= i < |w| ==> b[p + i] == b[p..p + |w|][i] == w[i];
  }

  lemma SqueezedNext(ps: seq<Pair>, i: int)
    requires 0 <= i < |ps|
    ensures Squeezed(ps[..i + 1]) == Squeezed(ps[..i]) + PairBytes(ps[i])
    ensures Plain(ps[..i + 1]) == Plain(ps[..i]) + Repeat(ps[i].ch, ps[i].len)
  {
    assert ps[..i + 1][..i] == ps[..i];
  }

  lemma {:induction false} SqueezedPrefix(ps: seq<Pair>, i: int, j: int)
    requires 0 <= i <= j <= |ps|
    ensures Squeezed(ps[..i]) <= Squeezed(ps[..j])
  {
    hide PairBytes, Squeezed;
    if i < j {
      SqueezedPrefix(ps, i, j - 1);
      SqueezedNext(ps, j - 1);
    }
  }

  /** The block from the i-th run on stands for the runs from the i-th on. */
  lemma {:induction false} ExpandFrom(b: seq<int>, n: nat, ps: seq<Pair>, i: int)
    requires n + 2 <= |b| && (forall k :: 0 <= k < |b| ==> 0 <= b[k] < 256) && LooseRuns(ps) && 0 <= i <= |ps|
    requires b[..n] == Squeezed(ps)
    ensures |Squeezed(ps[..i])| <= n
    ensures Plain(ps[..i]) + Expanded(b, n, |Squeezed(ps[..i])|) == Plain(ps)
    ensures Whole(b, n, |Squeezed(ps[..i])|)
    decreases |ps| - i
  {
    hide *;
    assert ps[..|ps|] == ps;
    var p := |Squeezed(ps[..i])|;
    SqueezedPrefix(ps, i, |ps|);
    if i == |ps| {
      ExpandNone(b, n);
      assert Plain(ps) + [] == Plain(ps);
    } else {
      PairFound(b, n, ps, i);
      ExpandFrom(b, n, ps, i + 1);
      SqueezedNext(ps, i);
      ExpandStep(b, n, p);
    }
  }

  lemma ExpandNone(b: seq<int>, n: nat)
    requires n + 2 <= |b| && (forall i :: 0 <= i < |b| ==> 0 <= b[i] < 256)
    ensures Expanded(b, n, n) == [] && Whole(b, n, n)
  {
  }

  lemma SliceOf(b: seq<int>, n: nat, x: seq<int>, w: seq<int>)
    requires n <= |b| && x + w <= b[..n] && w != []
    ensures |x| + |w| <= n && b[|x|..|x| + |w|] == w && b[|x|] == w[0]
  {
    assert b[|x|..|x| + |w|] == b[..n][..|x| + |w|][|x|..];
    assert b[|x|..|x| + |w|][0] == b[|x|];
  }

  lemma PairFirst(p: Pair)
    requires p.len >= 1
    ensures PairBytes(p) != [] && PairBytes(p)[0] == p.ch
  {
  }

  lemma RunsAt(ps: seq<Pair>, i: int)
    requires LooseRuns(ps) && 0 <= i < |ps|
    ensures 1 <= ps[i].len <= 259
    ensures i + 1 < |ps| && ps[i].ch == ps[i + 1].ch ==> ps[i].len >= 4
  {
  }

  lemma ExpandStep(b: seq<int>, n: nat, p: nat)
    requires n + 2 <= |b| && (forall i :: 0 <= i < |b| ==> 0 <= b[i] < 256) && p < n
    ensures Expanded(b, n, p) == Repeat(b[p], RunAt(b, n, p).0) + Expanded(b, n, RunAt(b, n, p).1)
    ensures Whole(b, n, p) == Whole(b, n, RunAt(b, n, p).1)
  {
  }

  lemma PairFound(b: seq<int>, n: nat, ps: seq<Pair>, i: int)
    requires n + 2 <= |b| && (forall k :: 0 <= k < |b| ==> 0 <= b[k] < 256) && LooseRuns(ps) && 0 <= i < |ps|
    requires b[..n] == Squeezed(ps)
    ensures var p := |Squeezed(ps[..i])|;
      p < n && b[p] == ps[i].ch && RunAt(b, n, p) == (ps[i].len, |Squeezed(ps[..i + 1])|)
  {
    hide *;
    var p := |Squeezed(ps[..i])|;
    var w := PairBytes(ps[i]);
    assert ps[..|ps|] == ps;
    SqueezedNext(ps, i);
    SqueezedPrefix(ps, i + 1, |ps|);
    RunsAt(ps, i);
    PairFirst(ps[i]);
    SliceOf(b, n, Squeezed(ps[..i]), w);
    if i + 1 < |ps| {
      SqueezedNext(ps, i + 1);
      SqueezedPrefix(ps, i + 2, |ps|);
      RunsAt(ps, i + 1);
      PairFirst(ps[i + 1]);
      SliceOf(b, n, Squeezed(ps[..i + 1]), PairBytes(ps[i + 1]));
    }
    RunOfPair(b, n, p, ps[i]);
  }

  /** Expanding a packed block gives back what was packed, whatever lies beyond the block. */
  lemma ExpandSqueezed(b: seq<int>, n: nat, ps: seq<Pair>)
    requires n + 2 <= |b| && (forall k :: 0 <= k < |b| ==> 0 <= b[k] < 256) && Runs(ps) && b[..n] == Squeezed(ps)
    ensures Expanded(b, n, 0) == Plain(ps) && Whole(b, n, 0)
  {
    RunsLoose(ps);
    ExpandLoose(b, n, ps);
  }

  /** And so it does for all runs that a count can tell, whoever packed them. */
  lemma ExpandLoose(b: seq<int>, n: nat, ps: seq<Pair>)
    requires n + 2 <= |b| && (forall k :: 0 <= k < |b| ==> 0 <= b[k] < 256) && LooseRuns(ps) && b[..n] == Squeezed(ps)
    ensures Expanded(b, n, 0) == Plain(ps) && Whole(b, n, 0)
  {
    hide LooseRuns;
    assert ps[..0] == [];
    ExpandFrom(b, n, ps, 0);
    assert [] + Expanded(b, n, 0) == Expanded(b, n, 0);
  }

  lemma {:induction false} SqueezedFirst(p: Pair, ps: seq<Pair>)
    ensures Squeezed([p] + ps) == PairBytes(p) + Squeezed(ps)
    decreases |ps|
  {
    hide PairBytes;
    if ps == [] {
      assert [p] + ps == [p] && [p][..0] == [];
    } else {
      var m := |ps| - 1;
      assert ([p] + ps)[..|ps|] == [p] + ps[..m];
      SqueezedFirst(p, ps[..m]);
    }
  }

  /** The run at p, as a pair. */
  lemma RunPair(b: seq<int>, n: nat, p: nat) returns (pair: Pair)
    requires n + 2 <= |b| && (forall i :: 0 <= i < |b| ==> 0 <= b[i] < 256) && p < n && RunAt(b, n, p).1 <= n
    ensures pair == Pair(b[p], RunAt(b, n, p).0) && 1 <= pair.len <= 259 && 0 <= pair.ch < 256
    ensures b[p..RunAt(b, n, p).1] == PairBytes(pair)
    ensures pair.len < 4 && RunAt(b, n, p).1 < n ==> b[RunAt(b, n, p).1] != pair.ch
  {
    var r := RunAt(b, n, p);
    pair := Pair(b[p], r.0);
    if pair.len < 4 {
      assert b[p..r.1] == Repeat(b[p], r.0);
    } else {
      assert b[p..r.1] == Repeat(b[p], 4) + [b[p + 4]];
    }
  }

  /** Every block whose last run has its count is runs that have been packed. */
  lemma {:induction false} RunsOf(b: seq<int>, n: nat, p: nat) returns (ps: seq<Pair>)
    requires n + 2 <= |b| && (forall i :: 0 <= i < |b| ==> 0 <= b[i] < 256) && p <= n && Whole(b, n, p)
    ensures LooseRuns(ps) && b[p..n] == Squeezed(ps) && (ps != [] ==> p < n && ps[0].ch == b[p])
    decreases n - p
  {
    hide RunAt, PairBytes;
    if p == n {
      ps := [];
    } else {
      var q := RunAt(b, n, p).1;
      WholeInside(b, n, p);
      var pair := RunPair(b, n, p);
      var more := RunsOf(b, n, q);
      SqueezedFirst(pair, more);
      assert b[p..n] == b[p..q] + b[q..n];
      LooseMore(pair, more);
      ps := [pair] + more;
    }
  }

  lemma LooseMore(p: Pair, ps: seq<Pair>)
    requires LooseRuns(ps) && 1 <= p.len <= 259 && 0 <= p.ch < 256
    requires ps != [] && ps[0].ch == p.ch ==> p.len >= 4
    ensures LooseRuns([p] + ps)
  {
    var all := [p] + ps;
    forall i, j | 0 <= i && j == i + 1 < |all| && all[i].ch == all[j].ch ensures all[i].len >= 4 {
      if i > 0 { assert all[i] == ps[i - 1] && all[j] == ps[j - 1]; }
    }
  }

  lemma WholeInside(b: seq<int>, n: nat, p: nat)
    requires n + 2 <= |b| && (forall i :: 0 <= i < |b| ==> 0 <= b[i] < 256) && p < n && Whole(b, n, p)
    ensures p < RunAt(b, n, p).1 <= n && Whole(b, n, RunAt(b, n, p).1)
  {
    hide RunAt;
  }

  lemma {:induction false} SqueezedRange(ps: seq<Pair>)
    requires Runs(ps)
    ensures forall i :: 0 <= i < |Squeezed(ps)| ==> 0 <= Squeezed(ps)[i] < 256
    ensures forall i :: 0 <= i < |Plain(ps)| ==> 0 <= Plain(ps)[i] < 256
    ensures |ps| <= |Squeezed(ps)| <= |Plain(ps)| + |ps|
  {
    if ps != [] { SqueezedRange(ps[..|ps| - 1]); }
  }

  /** A block is whole exactly when it is runs that have been packed; it then stands for them. */
  lemma WholeExactly(b: seq<int>, n: nat)
    requires n + 2 <= |b| && (forall i :: 0 <= i < |b| ==> 0 <= b[i] < 256)
    ensures Whole(b, n, 0) <==> exists ps :: LooseRuns(ps) && Squeezed(ps) == b[..n]
    ensures forall ps :: LooseRuns(ps) && Squeezed(ps) == b[..n] ==> Expanded(b, n, 0) == Plain(ps)
  {
    hide LooseRuns, RunAt, Whole, Expanded, Squeezed, Plain;
    if Whole(b, n, 0) {
      var ps := RunsOf(b, n, 0);
      assert b[0..n] == b[..n];
    }
    forall ps | LooseRuns(ps) && Squeezed(ps) == b[..n] ensures Expanded(b, n, 0) == Plain(ps) && Whole(b, n, 0) {
      ExpandLoose(b, n, ps);
    }
  }
}
