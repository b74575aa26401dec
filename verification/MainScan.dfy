/** Why the main block sort may complete buckets by scanning instead of sorting.

    When the big bucket of character ss is in order, the small buckets [t, ss] follow:
    the rotations in [t, ss] are the predecessors of those in the big bucket, in the
    same order. The scan runs over the big bucket from both ends, and while it does so
    it fills in the part [ss, ss] that it has yet to read.
 */
module MainScan {
  import opened Counting
  import opened Rotations
  import opened Sequences

  function Succ(x: int, n: int): int {
    if x + 1 == n then 0 else x + 1
  }

  function Pred(x: int, n: int): int {
    if x - 1 < 0 then x - 1 + n else x - 1
  }

  /** The small bucket of the rotation at x: its first two characters. */
  function Key(b: seq<int>, x: int): int
    requires 0 <= x < |b|
  {
    b[x] * 256 + b[Succ(x, |b|)]
  }

  ghost function KeySet(b: seq<int>, c: int): set<int> {
    set x: int | 0 <= x < |b| && Key(b, x) == c
  }

  /** The first cells of the small buckets, and the end of the last one. */
  ghost predicate Starts(b: seq<int>, st: seq<int>) {
    && |st| == 65537 && st[0] == 0 && st[65536] == |b|
    && (forall c, d :: 0 <= c <= d <= 65536 ==> st[c] <= st[d])
    && (forall c :: 0 <= c < 65536 ==> st[c + 1] - st[c] == |KeySet(b, c)|)
  }

  /** Every rotation is in the small bucket of its first two characters. */
  ghost predicate Bucketed(b: seq<int>, st: seq<int>, p: seq<int>)
    requires Bytes(b) && |st| == 65537
  {
    && IsPermutation(p, |b|)
    && forall a :: 0 <= a < |b| ==> st[Key(b, p[a])] <= a < st[Key(b, p[a]) + 1]
  }

  lemma KeyByte(b: seq<int>, x: int)
    requires Bytes(b) && 0 <= x < |b|
    ensures 0 <= Key(b, x) < 65536 && Key(b, x) / 256 == b[x] && Key(b, x) % 256 == b[Succ(x, |b|)]
  {
  }

  /** Equal first characters: the order is that of the successors. */
  lemma RankStep(b: seq<int>, x: int, y: int)
    requires |b| > 0 && 0 <= x < |b| && 0 <= y < |b| && b[x] == b[y]
    requires Rank(b, |b|)[Succ(x, |b|)] <= Rank(b, |b|)[Succ(y, |b|)]
    ensures Rank(b, |b|)[x] <= Rank(b, |b|)[y]
  {
    var n := |b|;
    RankOrder(b, n, Succ(x, n), Succ(y, n));
    assert Succ(x, n) == Wrap(x + 1, n) && Succ(y, n) == Wrap(y + 1, n);
    CmpWrapped(b, x + 1, y + 1, n);
    LeStep(b, x, y);
    RankOrder(b, n, x, y);
  }

  lemma KeyRank(b: seq<int>, x: int, y: int)
    requires |b| > 1 && Bytes(b) && 0 <= x < |b| && 0 <= y < |b| && Key(b, x) < Key(b, y)
    ensures Rank(b, |b|)[x] < Rank(b, |b|)[y]
  {
    var n := |b|;
    CmpTwo(b, x, y);
    CmpSplit(b, x, y, 2, n - 2);
    RankOrder(b, n, x, y);
  }

  lemma CmpTwo(b: seq<int>, x: int, y: int)
    requires |b| > 1 && Bytes(b) && 0 <= x < |b| && 0 <= y < |b|
    ensures Key(b, x) < Key(b, y) ==> Cmp(b, x, y, 2) < 0
    ensures Key(b, x) == Key(b, y) ==> Cmp(b, x, y, 2) == 0
  {
    var n := |b|;
    KeyByte(b, x);
    KeyByte(b, y);
    assert Succ(x, n) == Wrap(x + 1, n) && Succ(y, n) == Wrap(y + 1, n);
    assert Cmp(b, x, y, 2) == if Ch(b, x) < Ch(b, y) then -1 else if Ch(b, x) > Ch(b, y) then 1
      else Cmp(b, x + 1, y + 1, 1);
    assert Cmp(b, x + 2, y + 2, 0) == 0;
  }

  /** The small bucket [t, u]. */
  function Small(t: int, u: int): int {
    t * 256 + u
  }

  /** What a scan starts from: the block, its small buckets, the order p0 when it starts,
      the characters whose big buckets were done before, and the one being done. */
  datatype Setting = Setting(b: seq<int>, st: seq<int>, p0: seq<int>, bigDone: seq<bool>, ss: int) {
    ghost predicate Sized() {
      |st| == 65537 && |bigDone| == 256 && 0 <= ss < 256
    }

    ghost predicate Valid() {
      && Sized() && |b| > 1 && Bytes(b) && Starts(b, st) && Bucketed(b, st, p0)
      && !bigDone[ss]
      && (forall j, k :: first() <= j < k < lo(ss) ==> Rank(b, |b|)[p0[j]] <= Rank(b, |b|)[p0[k]])
      && (forall j, k :: hi(ss) < j < k < end() ==> Rank(b, |b|)[p0[j]] <= Rank(b, |b|)[p0[k]])
    }

    /** The bounds of the small bucket [t, ss]. */
    ghost function lo(t: int): int
      requires Sized() && 0 <= t < 256
    {
      st[Small(t, ss)]
    }

    ghost function hi(t: int): int
      requires Sized() && 0 <= t < 256
    {
      st[Small(t, ss) + 1] - 1
    }

    /** The bounds of the big bucket of ss. */
    ghost function first(): int
      requires Sized()
    {
      st[Small(ss, 0)]
    }

    ghost function end(): int
      requires Sized()
    {
      st[Small(ss + 1, 0)]
    }
  }

  /** A state of the scan: the order p as written so far; for every written cell the cell
      it was written from; the next cells to write in every bucket [t, ss] from the left
      and from the right; the next cells to read from the left and from the right. */
  datatype Scan = Scan(p: seq<int>, org: seq<int>, cs: seq<int>, ce: seq<int>, jl: int, jr: int)

  ghost predicate WrittenLeft(x: Setting, z: Scan, t: int, a: int)
    requires x.Sized() && |z.cs| == 256
  {
    0 <= t < 256 && !x.bigDone[t] && x.lo(t) <= a < z.cs[t]
  }

  ghost predicate WrittenRight(x: Setting, z: Scan, t: int, a: int)
    requires x.Sized() && |z.ce| == 256
  {
    0 <= t < 256 && !x.bigDone[t] && z.ce[t] < a <= x.hi(t)
  }

  ghost predicate Written(x: Setting, z: Scan, t: int, a: int)
    requires x.Sized() && |z.cs| == 256 && |z.ce| == 256
  {
    WrittenLeft(x, z, t, a) || WrittenRight(x, z, t, a)
  }

  /** Cells of the big bucket that hold their final rotations. */
  ghost predicate Ready(x: Setting, z: Scan, j: int)
    requires x.Sized() && |z.cs| == 256 && |z.ce| == 256
  {
    x.first() <= j < z.cs[x.ss] || z.ce[x.ss] < j < x.end()
  }

  ghost predicate Visited(x: Setting, z: Scan, j: int)
    requires x.Sized()
  {
    x.first() <= j < z.jl || z.jr < j < x.end()
  }

  /** The scan so far is right. */
  ghost predicate Scanning(x: Setting, z: Scan)
    requires x.Valid()
  {
    Shape(x, z) && Origins(x, z) && Order(x, z) && Complete(x, z) && Untouched(x, z)
  }

  ghost predicate Shape(x: Setting, z: Scan)
    requires x.Valid()
  {
    && |z.p| == |x.p0| && |z.org| == |x.p0| && |z.cs| == 256 && |z.ce| == 256
    && (forall t :: 0 <= t < 256 ==> x.lo(t) <= z.cs[t] <= z.ce[t] + 1 <= x.hi(t) + 1)
    && x.first() <= z.jl <= z.cs[x.ss] && z.ce[x.ss] <= z.jr < x.end()
  }

  /** Every written cell holds the predecessor of the rotation in the cell it came from,
      and the cells of a bucket came from cells in the same order. */
  ghost predicate Origins(x: Setting, z: Scan)
    requires x.Valid() && Shape(x, z)
  {
    && (forall t, a {:trigger WrittenLeft(x, z, t, a)} :: WrittenLeft(x, z, t, a) ==> x.first() <= z.org[a] < z.jl)
    && (forall t, a {:trigger WrittenRight(x, z, t, a)} :: WrittenRight(x, z, t, a) ==> z.jr < z.org[a] < x.end())
    && (forall t, a {:trigger Written(x, z, t, a)} :: Written(x, z, t, a) ==>
        0 <= z.p[a] < |x.b| && 0 <= z.org[a] < |x.b| && x.b[z.p[a]] == t && Succ(z.p[a], |x.b|) == z.p[z.org[a]])
    && (forall t, a, a' {:trigger Written(x, z, t, a), Written(x, z, t, a')} ::
        Written(x, z, t, a) && Written(x, z, t, a') && a < a' ==> z.org[a] < z.org[a'])
  }

  /** The final cells of the big bucket hold distinct rotations in order. */
  ghost predicate Order(x: Setting, z: Scan)
    requires x.Valid() && Shape(x, z)
  {
    && (forall j {:trigger Ready(x, z, j)} :: Ready(x, z, j) ==>
      0 <= j < |x.b| && 0 <= z.p[j] < |x.b| && x.b[z.p[j]] == x.ss)
    && (forall j, k {:trigger Ready(x, z, j), Ready(x, z, k)} :: Ready(x, z, j) && Ready(x, z, k) && j < k ==>
        z.p[j] != z.p[k] && Rank(x.b, |x.b|)[z.p[j]] <= Rank(x.b, |x.b|)[z.p[k]])
  }

  /** Every cell read has had its predecessor written, unless that was done already. */
  ghost predicate Complete(x: Setting, z: Scan)
    requires x.Valid() && Shape(x, z) && Order(x, z)
  {
    forall j {:trigger Visited(x, z, j)} :: Visited(x, z, j) && Ready(x, z, j) ==> PredWritten(x, z, j)
  }

  ghost predicate PredWritten(x: Setting, z: Scan, j: int)
    requires x.Valid() && Shape(x, z) && 0 <= j < |x.b| && 0 <= z.p[j] < |x.b|
  {
    var t := x.b[Pred(z.p[j], |x.b|)];
    x.bigDone[t] || exists a :: Written(x, z, t, a) && z.org[a] == j
  }

  ghost predicate Untouched(x: Setting, z: Scan)
    requires x.Valid() && Shape(x, z)
  {
    forall a :: 0 <= a < |x.p0| && (forall t :: 0 <= t < 256 ==> !Written(x, z, t, a)) ==> z.p[a] == x.p0[a]
  }

  /** The cells from l up to h. */
  ghost function Span(l: int, h: int): (r: set<int>)
    requires l <= h
    ensures forall k :: k in r <==> l <= k < h
    ensures |r| == h - l
    decreases h - l
  {
    if l == h then {} else Span(l, h - 1) + {h - 1}
  }

  ghost function WrittenCells(x: Setting, z: Scan, t: int): (r: set<int>)
    requires x.Valid() && Shape(x, z) && 0 <= t < 256 && !x.bigDone[t]
    ensures forall a :: a in r <==> Written(x, z, t, a)
    ensures |r| == (z.cs[t] - x.lo(t)) + (x.hi(t) - z.ce[t])
  {
    var l, h := Span(x.lo(t), z.cs[t]), Span(z.ce[t] + 1, x.hi(t) + 1);
    assert l * h == {};
    l + h
  }

  lemma SmallBounds(x: Setting, t: int)
    requires x.Valid() && 0 <= t < 256
    ensures 0 <= x.lo(t) <= x.hi(t) + 1 <= |x.b|
    ensures 0 <= x.first() <= x.lo(x.ss) && x.hi(x.ss) < x.end() <= |x.b|
    ensures t < x.ss ==> x.hi(t) < x.first()
    ensures t > x.ss ==> x.end() <= x.lo(t)
  {
  }

  lemma CellsIn(x: Setting, z: Scan)
    requires x.Valid() && Shape(x, z)
    ensures forall t, a {:trigger Written(x, z, t, a)} :: Written(x, z, t, a) ==> 0 <= a < |x.b|
  {
    forall t, a | Written(x, z, t, a) ensures 0 <= a < |x.b| { SmallBounds(x, t); }
  }

  /** The rotations written into a bucket: as many as cells, and all of that bucket. */
  lemma WrittenImage(x: Setting, z: Scan, t: int)
    requires x.Valid() && Shape(x, z) && Origins(x, z) && Order(x, z) && 0 <= t < 256 && !x.bigDone[t]
    ensures forall a :: a in WrittenCells(x, z, t) ==> 0 <= a < |z.p|
    ensures |Image(z.p, WrittenCells(x, z, t))| == |WrittenCells(x, z, t)|
    ensures Image(z.p, WrittenCells(x, z, t)) <= KeySet(x.b, Small(t, x.ss))
  {
    var w, n := WrittenCells(x, z, t), |x.b|;
    CellsIn(x, z);
    forall a | a in w ensures 0 <= a < n && z.p[a] in KeySet(x.b, Small(t, x.ss)) {
      assert Written(x, z, t, a);
      OriginReady(x, z, t, a);
    }
    forall a, a' | a in w && a' in w && a != a' ensures z.p[a] != z.p[a'] {
      assert Written(x, z, t, a) && Written(x, z, t, a');
      OriginReady(x, z, t, a);
      OriginReady(x, z, t, a');
    }
    ImageSize(z.p, w);
  }

  lemma OriginReady(x: Setting, z: Scan, t: int, a: int)
    requires x.Valid() && Shape(x, z) && Origins(x, z) && Order(x, z) && Written(x, z, t, a)
    ensures Visited(x, z, z.org[a]) && Ready(x, z, z.org[a])
    ensures 0 <= z.p[a] < |x.b| && x.b[z.p[a]] == t && x.b[Succ(z.p[a], |x.b|)] == x.ss
  {
    assert Ready(x, z, z.org[a]);
  }

  /** A rotation is not written before its successor has been read. */
  lemma NotYet(x: Setting, z: Scan, t: int, j: int, k: int)
    requires x.Valid() && Shape(x, z) && Origins(x, z) && Order(x, z)
    requires Ready(x, z, j) && !Visited(x, z, j) && Succ(k, |x.b|) == z.p[j]
    ensures forall a {:trigger Written(x, z, t, a)} :: Written(x, z, t, a) ==> z.p[a] != k
  {
    forall a | Written(x, z, t, a) ensures z.p[a] != k { OriginReady(x, z, t, a); }
  }

  lemma PredFacts(x: Setting, z: Scan, j: int)
    requires x.Valid() && Shape(x, z) && Order(x, z) && Ready(x, z, j)
    ensures 0 <= j < |x.b| <= |z.p| && 0 <= z.p[j] < |x.b| && 0 <= Pred(z.p[j], |x.b|) < |x.b|
    ensures Succ(Pred(z.p[j], |x.b|), |x.b|) == z.p[j]
    ensures 0 <= x.b[Pred(z.p[j], |x.b|)] < 256
    ensures Pred(z.p[j], |x.b|) in KeySet(x.b, Small(x.b[Pred(z.p[j], |x.b|)], x.ss))
  {
  }

  /** There is always a cell left for the next predecessor. */
  lemma Room(x: Setting, z: Scan, j: int, t: int)
    requires x.Valid() && Shape(x, z) && Origins(x, z) && Order(x, z)
    requires Ready(x, z, j) && !Visited(x, z, j)
    requires 0 <= z.p[j] < |x.b| && x.b[Pred(z.p[j], |x.b|)] == t && !x.bigDone[t]
    ensures z.cs[t] <= z.ce[t]
  {
    var k := Pred(z.p[j], |x.b|);
    PredFacts(x, z, j);
    NotYet(x, z, t, j, k);
    WrittenImage(x, z, t);
    hide Origins, Order, Ready, Visited, Shape;
    var w, c := WrittenCells(x, z, t), KeySet(x.b, Small(t, x.ss));
    var m := Image(z.p, w);
    assert k !in m;
    SubsetSize(m + {k}, c);
    BucketSize(x, t);
  }

  lemma BucketSize(x: Setting, t: int)
    requires x.Valid() && 0 <= t < 256
    ensures x.hi(t) + 1 - x.lo(t) == |KeySet(x.b, Small(t, x.ss))|
  {
  }

  /** Cells of the big bucket outside [ss, ss] are never written. */
  lemma OuterCells(x: Setting, z: Scan, a: int)
    requires x.Valid() && Shape(x, z) && Untouched(x, z)
    requires x.first() <= a < x.lo(x.ss) || x.hi(x.ss) < a < x.end()
    ensures 0 <= a < |x.b| && z.p[a] == x.p0[a] && 0 <= x.p0[a] < |x.b| && x.b[x.p0[a]] == x.ss
    ensures a < x.lo(x.ss) ==> Key(x.b, x.p0[a]) < Small(x.ss, x.ss)
    ensures a > x.hi(x.ss) ==> Key(x.b, x.p0[a]) > Small(x.ss, x.ss)
  {
    forall t | 0 <= t < 256 ensures !Written(x, z, t, a) { SmallBounds(x, t); }
    SmallBounds(x, x.ss);
    OuterKey(x, a);
  }

  lemma OuterKey(x: Setting, a: int)
    requires x.Valid() && 0 <= a < |x.b|
    requires x.first() <= a < x.lo(x.ss) || x.hi(x.ss) < a < x.end()
    ensures 0 <= x.p0[a] < |x.b| && x.b[x.p0[a]] == x.ss
    ensures a < x.lo(x.ss) ==> Key(x.b, x.p0[a]) < Small(x.ss, x.ss)
    ensures a > x.hi(x.ss) ==> Key(x.b, x.p0[a]) > Small(x.ss, x.ss)
  {
    KeyByte(x.b, x.p0[a]);
    var c := Key(x.b, x.p0[a]);
    var s := Small(x.ss, x.ss);
    StartsMono(x.st, c + 1, Small(x.ss, 0));
    StartsMono(x.st, Small(x.ss + 1, 0), c);
    StartsMono(x.st, s, c);
    StartsMono(x.st, c + 1, s + 1);
  }

  lemma StartsMono(st: seq<int>, c: int, d: int)
    requires |st| == 65537 && forall c, d :: 0 <= c <= d <= 65536 ==> st[c] <= st[d]
    requires 0 <= c <= 65536 && 0 <= d <= 65536
    ensures c <= d ==> st[c] <= st[d]
  {
  }

  /** z' is z with k, the predecessor of the rotation in cell j, written into cell w of its bucket. */
  ghost predicate Puts(x: Setting, z: Scan, z': Scan, t: int, w: int, k: int, j: int)
    requires x.Valid()
  {
    && Shape(x, z) && Shape(x, z') && Origins(x, z) && Order(x, z)
    && Ready(x, z, j) && !Visited(x, z, j)
    && 0 <= k < |x.b| && 0 <= j < |x.b| && Succ(k, |x.b|) == z.p[j] && Pred(z.p[j], |x.b|) == k
    && x.b[k] == t && 0 <= t < 256 && !x.bigDone[t]
    && x.lo(t) <= w <= x.hi(t) && 0 <= w < |z.p| && !Written(x, z, t, w)
    && z'.p == z.p[w := k] && z'.org == z.org[w := j]
    && (forall u, a {:trigger Written(x, z', u, a)} {:trigger Written(x, z, u, a)} ::
        Written(x, z', u, a) <==> Written(x, z, u, a) || (u == t && a == w))
    && (forall a {:trigger Ready(x, z', a)} {:trigger Ready(x, z, a)} ::
        Ready(x, z', a) <==> Ready(x, z, a) || (t == x.ss && a == w))
    && (forall a {:trigger Visited(x, z', a)} {:trigger Visited(x, z, a)} ::
        Visited(x, z', a) <==> Visited(x, z, a) || a == j)
    && (forall a {:trigger Written(x, z, t, a)} :: Written(x, z, t, a) ==>
        (a < w ==> z.org[a] < j) && (a > w ==> j < z.org[a]))
  }

  /** The cell written is not yet ready, nor written for another bucket. */
  lemma PutsFresh(x: Setting, z: Scan, z': Scan, t: int, w: int, k: int, j: int)
    requires x.Valid() && Puts(x, z, z', t, w, k, j)
    ensures !Ready(x, z, w) && forall u :: !Written(x, z, u, w)
    ensures forall a {:trigger Ready(x, z, a)} :: Ready(x, z, a) ==> z'.p[a] == z.p[a]
    ensures forall u, a {:trigger Written(x, z, u, a)} :: Written(x, z, u, a) ==>
      a != w && 0 <= a < |x.b| && z'.p[a] == z.p[a] && z'.org[a] == z.org[a]
  {
    SmallBounds(x, t);
    SmallBounds(x, x.ss);
    forall u ensures !Written(x, z, u, w) {
      if 0 <= u < 256 && u != t { BucketsApart(x, t, u); }
    }
    CellsIn(x, z);
    forall a | Ready(x, z, a) && x.lo(x.ss) <= a <= x.hi(x.ss) ensures Written(x, z, x.ss, a) {}
  }

  lemma BucketsApart(x: Setting, t: int, u: int)
    requires x.Valid() && 0 <= t < 256 && 0 <= u < 256 && t != u
    ensures x.hi(t) < x.lo(u) || x.hi(u) < x.lo(t)
  {
  }

  lemma PutsOrigins(x: Setting, z: Scan, z': Scan, t: int, w: int, k: int, j: int)
    requires x.Valid() && Puts(x, z, z', t, w, k, j)
    ensures forall u, a {:trigger Written(x, z', u, a)} :: Written(x, z', u, a) ==>
      0 <= z'.p[a] < |x.b| && 0 <= z'.org[a] < |x.b| && x.b[z'.p[a]] == u && Succ(z'.p[a], |x.b|) == z'.p[z'.org[a]]
    ensures forall u, a, a' {:trigger Written(x, z', u, a), Written(x, z', u, a')} ::
      Written(x, z', u, a) && Written(x, z', u, a') && a < a' ==> z'.org[a] < z'.org[a']
  {
    PutsFresh(x, z, z', t, w, k, j);
    forall u, a | Written(x, z', u, a)
      ensures 0 <= z'.p[a] < |x.b| && 0 <= z'.org[a] < |x.b| && x.b[z'.p[a]] == u
      ensures Succ(z'.p[a], |x.b|) == z'.p[z'.org[a]]
    {
      if a != w {
        OriginReady(x, z, u, a);
      } else {
        assert u == t;
      }
    }
  }

  /** Any other final cell of the big bucket compared with one newly written into [ss, ss]. */
  lemma NewCell(x: Setting, z: Scan, z': Scan, w: int, k: int, j: int, a: int)
    requires x.Valid() && Puts(x, z, z', x.ss, w, k, j) && Untouched(x, z)
    requires Ready(x, z, a)
    ensures 0 <= a < |x.b| && 0 <= z.p[a] < |x.b| && z.p[a] != k
    ensures a < w ==> Rank(x.b, |x.b|)[z.p[a]] <= Rank(x.b, |x.b|)[k]
    ensures a > w ==> Rank(x.b, |x.b|)[z.p[a]] >= Rank(x.b, |x.b|)[k]
  {
    SmallBounds(x, x.ss);
    assert Key(x.b, k) == Small(x.ss, x.ss);
    if x.lo(x.ss) <= a <= x.hi(x.ss) {
      assert Written(x, z, x.ss, a);
      NotYet(x, z, x.ss, j, k);
      OriginReady(x, z, x.ss, a);
      if a < w { RankStep(x.b, z.p[a], k); } else { RankStep(x.b, k, z.p[a]); }
    } else {
      OuterCells(x, z, a);
      if a < w { KeyRank(x.b, z.p[a], k); } else { KeyRank(x.b, k, z.p[a]); }
    }
  }

  lemma PutsOrder(x: Setting, z: Scan, z': Scan, t: int, w: int, k: int, j: int)
    requires x.Valid() && Puts(x, z, z', t, w, k, j) && Untouched(x, z)
    ensures Order(x, z')
  {
    hide Pred, Succ, Visited, Origins, Untouched, Rank;
    PutsFresh(x, z, z', t, w, k, j);
    SmallBounds(x, x.ss);
    if t == x.ss {
      forall a | Ready(x, z, a)
        ensures 0 <= a < |x.b| && 0 <= z.p[a] < |x.b| && z.p[a] != k
        ensures a < w ==> Rank(x.b, |x.b|)[z.p[a]] <= Rank(x.b, |x.b|)[k]
        ensures a > w ==> Rank(x.b, |x.b|)[z.p[a]] >= Rank(x.b, |x.b|)[k]
      {
        NewCell(x, z, z', w, k, j, a);
      }
    }
  }

  lemma PutsComplete(x: Setting, z: Scan, z': Scan, t: int, w: int, k: int, j: int)
    requires x.Valid() && Puts(x, z, z', t, w, k, j) && Order(x, z') && Complete(x, z)
    ensures Complete(x, z')
  {
    PutsFresh(x, z, z', t, w, k, j);
    forall i | Visited(x, z', i) && Ready(x, z', i) ensures PredWritten(x, z', i) {
      if i == j {
        assert Written(x, z', t, w) && z'.org[w] == j;
      } else {
        assert PredWritten(x, z, i);
        var u := x.b[Pred(z.p[i], |x.b|)];
        if !x.bigDone[u] {
          var a :| Written(x, z, u, a) && z.org[a] == i;
          assert Written(x, z', u, a);
        }
      }
    }
  }

  lemma PutsUntouched(x: Setting, z: Scan, z': Scan, t: int, w: int, k: int, j: int)
    requires x.Valid() && Puts(x, z, z', t, w, k, j) && Untouched(x, z)
    ensures Untouched(x, z')
  {
    PutsFresh(x, z, z', t, w, k, j);
    assert Written(x, z', t, w);
  }

  /** One step of the scan from the left. */
  ghost function StepLeft(x: Setting, z: Scan): Scan
    requires x.Valid() && Shape(x, z) && Order(x, z) && z.jl < z.cs[x.ss]
  {
    assert Ready(x, z, z.jl);
    var k := Pred(z.p[z.jl], |x.b|);
    var t := x.b[k];
    if x.bigDone[t] || z.cs[t] > z.ce[t] then z.(jl := z.jl + 1)
    else
      SmallCell(x, z, t);
      z.(p := z.p[z.cs[t] := k], org := z.org[z.cs[t] := z.jl], cs := z.cs[t := z.cs[t] + 1], jl := z.jl + 1)
  }

  lemma SmallCell(x: Setting, z: Scan, t: int)
    requires x.Valid() && Shape(x, z) && 0 <= t < 256 && z.cs[t] <= z.ce[t]
    ensures 0 <= z.cs[t] <= z.ce[t] < |z.p| && |z.p| == |z.org|
  {
    SmallBounds(x, t);
  }

  /** One step of the scan from the right. */
  ghost function StepRight(x: Setting, z: Scan): Scan
    requires x.Valid() && Shape(x, z) && Order(x, z) && z.jr > z.ce[x.ss]
  {
    assert Ready(x, z, z.jr);
    var k := Pred(z.p[z.jr], |x.b|);
    var t := x.b[k];
    if x.bigDone[t] || z.cs[t] > z.ce[t] then z.(jr := z.jr - 1)
    else
      SmallCell(x, z, t);
      z.(p := z.p[z.ce[t] := k], org := z.org[z.ce[t] := z.jr], ce := z.ce[t := z.ce[t] - 1], jr := z.jr - 1)
  }

  /** Nothing is written for a big bucket that is done. */
  ghost predicate Skips(x: Setting, z: Scan, z': Scan, j: int)
    requires x.Valid()
  {
    && Scanning(x, z) && Ready(x, z, j) && 0 <= j < |x.b|
    && x.bigDone[x.b[Pred(z.p[j], |x.b|)]]
    && ((j == z.jl && z' == z.(jl := j + 1)) || (j == z.jr && z' == z.(jr := j - 1)))
    && Shape(x, z')
  }

  lemma SkipSame(x: Setting, z: Scan, z': Scan)
    requires x.Sized() && |z.cs| == 256 && |z.ce| == 256
    requires z' == z.(jl := z'.jl) || z' == z.(jr := z'.jr)
    ensures forall u, a {:trigger WrittenLeft(x, z', u, a)} :: WrittenLeft(x, z', u, a) <==> WrittenLeft(x, z, u, a)
    ensures forall u, a {:trigger WrittenRight(x, z', u, a)} :: WrittenRight(x, z', u, a) <==> WrittenRight(x, z, u, a)
    ensures forall u, a {:trigger Written(x, z', u, a)} {:trigger Written(x, z, u, a)} ::
      Written(x, z', u, a) <==> Written(x, z, u, a)
    ensures forall a {:trigger Ready(x, z', a)} :: Ready(x, z', a) <==> Ready(x, z, a)
  {
  }

  lemma SkipOrigins(x: Setting, z: Scan, z': Scan, j: int)
    requires x.Valid() && Skips(x, z, z', j)
    ensures Origins(x, z') && Order(x, z') && Untouched(x, z')
  {
    hide Written, WrittenLeft, WrittenRight, Ready, PredWritten, Rank;
    SkipSame(x, z, z');
  }

  lemma SkipKeeps(x: Setting, z: Scan, z': Scan, j: int)
    requires x.Valid() && Skips(x, z, z', j)
    ensures Scanning(x, z')
  {
    SkipOrigins(x, z, z', j);
    hide Origins, Untouched, Order;
    forall i | Visited(x, z', i) && Ready(x, z', i) ensures PredWritten(x, z', i) {
      if i != j {
        assert Visited(x, z, i) && Ready(x, z, i);
        SamePred(x, z, z', i);
      }
    }
  }

  lemma SamePred(x: Setting, z: Scan, z': Scan, i: int)
    requires x.Valid() && Shape(x, z) && Shape(x, z') && 0 <= i < |x.b| && 0 <= z.p[i] < |x.b| && PredWritten(x, z, i)
    requires z'.p == z.p && z'.org == z.org && z'.cs == z.cs && z'.ce == z.ce
    ensures PredWritten(x, z', i)
  {
    var t := x.b[Pred(z.p[i], |x.b|)];
    if !x.bigDone[t] {
      var a :| Written(x, z, t, a) && z.org[a] == i;
      assert Written(x, z', t, a);
    }
  }

  lemma PutKeeps(x: Setting, z: Scan, z': Scan, t: int, w: int, k: int, j: int)
    requires x.Valid() && Scanning(x, z) && Puts(x, z, z', t, w, k, j)
    requires forall u, a {:trigger WrittenLeft(x, z', u, a)} :: WrittenLeft(x, z', u, a) ==>
      x.first() <= z'.org[a] < z'.jl
    requires forall u, a {:trigger WrittenRight(x, z', u, a)} :: WrittenRight(x, z', u, a) ==>
      z'.jr < z'.org[a] < x.end()
    ensures Scanning(x, z')
  {
    PutsOrigins(x, z, z', t, w, k, j);
    PutsOrder(x, z, z', t, w, k, j);
    PutsComplete(x, z, z', t, w, k, j);
    PutsUntouched(x, z, z', t, w, k, j);
  }

  lemma LeftWritten(x: Setting, z: Scan, z': Scan, t: int, w: int)
    requires x.Sized() && |z.cs| == 256 && |z.ce| == 256 && 0 <= t < 256 && !x.bigDone[t]
    requires x.lo(t) <= z.cs[t] <= z.ce[t] <= x.hi(t) && 0 <= x.first() <= z.jl
    requires z.cs[x.ss] <= z.ce[x.ss] + 1 && x.first() <= x.lo(x.ss) <= z.cs[x.ss] && z.jl <= z.jr < x.end()
    requires w == z.cs[t] && z'.cs == z.cs[t := w + 1] && z'.ce == z.ce && z'.jl == z.jl + 1 && z'.jr == z.jr
    ensures forall u, a {:trigger Written(x, z', u, a)} {:trigger Written(x, z, u, a)} ::
      Written(x, z', u, a) <==> Written(x, z, u, a) || (u == t && a == w)
    ensures !Written(x, z, t, w)
    ensures forall a {:trigger Ready(x, z', a)} {:trigger Ready(x, z, a)} ::
      Ready(x, z', a) <==> Ready(x, z, a) || (t == x.ss && a == w)
    ensures forall a {:trigger Visited(x, z', a)} {:trigger Visited(x, z, a)} ::
      Visited(x, z', a) <==> Visited(x, z, a) || a == z.jl
  {
  }

  lemma RightWritten(x: Setting, z: Scan, z': Scan, t: int, w: int)
    requires x.Sized() && |z.cs| == 256 && |z.ce| == 256 && 0 <= t < 256 && !x.bigDone[t]
    requires x.lo(t) <= z.cs[t] <= z.ce[t] <= x.hi(t) && x.first() <= z.jl
    requires z.cs[x.ss] <= z.ce[x.ss] + 1 && z.ce[x.ss] <= x.hi(x.ss) < x.end() && z.jl <= z.jr < x.end()
    requires w == z.ce[t] && z'.ce == z.ce[t := w - 1] && z'.cs == z.cs && z'.jr == z.jr - 1 && z'.jl == z.jl
    ensures forall u, a {:trigger Written(x, z', u, a)} {:trigger Written(x, z, u, a)} ::
      Written(x, z', u, a) <==> Written(x, z, u, a) || (u == t && a == w)
    ensures !Written(x, z, t, w)
    ensures forall a {:trigger Ready(x, z', a)} {:trigger Ready(x, z, a)} ::
      Ready(x, z', a) <==> Ready(x, z, a) || (t == x.ss && a == w)
    ensures forall a {:trigger Visited(x, z', a)} {:trigger Visited(x, z, a)} ::
      Visited(x, z', a) <==> Visited(x, z, a) || a == z.jr
  {
  }

  lemma LeftOrder(x: Setting, z: Scan, t: int)
    requires x.Valid() && Shape(x, z) && Origins(x, z) && 0 <= t < 256 && z.jl <= z.jr
    ensures forall a {:trigger Written(x, z, t, a)} :: Written(x, z, t, a) ==>
      0 <= a < |z.org| && (a < z.cs[t] ==> z.org[a] < z.jl) && (a >= z.cs[t] ==> z.jl < z.org[a])
      && (a <= z.ce[t] ==> z.org[a] < z.jr) && (a > z.ce[t] ==> z.jr < z.org[a])
  {
    SmallBounds(x, t);
    forall a | Written(x, z, t, a)
      ensures 0 <= a < |z.org| && (a < z.cs[t] ==> z.org[a] < z.jl) && (a >= z.cs[t] ==> z.jl < z.org[a])
      ensures (a <= z.ce[t] ==> z.org[a] < z.jr) && (a > z.ce[t] ==> z.jr < z.org[a])
    {
      assert WrittenLeft(x, z, t, a) || WrittenRight(x, z, t, a);
    }
  }

  lemma LeftPuts(x: Setting, z: Scan, t: int, k: int)
    requires x.Valid() && Scanning(x, z) && z.jl < z.cs[x.ss] && z.jl <= z.jr
    requires 0 <= z.p[z.jl] < |x.b| && k == Pred(z.p[z.jl], |x.b|) && x.b[k] == t && !x.bigDone[t]
    requires z.cs[t] <= z.ce[t]
    ensures Puts(x, z, StepLeft(x, z), t, z.cs[t], k, z.jl)
  {
    hide Origins, Order, Complete, Untouched, Rank, Succ, Pred;
    assert Ready(x, z, z.jl) && !Visited(x, z, z.jl);
    PredFacts(x, z, z.jl);
    SmallBounds(x, t);
    SmallBounds(x, x.ss);
    var z' := StepLeft(x, z);
    LeftOrder(x, z, t);
    LeftWritten(x, z, z', t, z.cs[t]);
    assert Shape(x, z');
  }

  lemma RightPuts(x: Setting, z: Scan, t: int, k: int)
    requires x.Valid() && Scanning(x, z) && z.jr > z.ce[x.ss] && z.jl <= z.jr
    requires 0 <= z.p[z.jr] < |x.b| && k == Pred(z.p[z.jr], |x.b|) && x.b[k] == t && !x.bigDone[t]
    requires z.cs[t] <= z.ce[t]
    ensures Puts(x, z, StepRight(x, z), t, z.ce[t], k, z.jr)
  {
    hide Origins, Order, Complete, Untouched, Rank, Succ, Pred;
    assert Ready(x, z, z.jr) && !Visited(x, z, z.jr);
    PredFacts(x, z, z.jr);
    SmallBounds(x, t);
    SmallBounds(x, x.ss);
    var z' := StepRight(x, z);
    LeftOrder(x, z, t);
    RightWritten(x, z, z', t, z.ce[t]);
    assert Shape(x, z');
  }

  lemma StepLeftKeeps(x: Setting, z: Scan)
    requires x.Valid() && Scanning(x, z) && z.jl < z.cs[x.ss]
    ensures Scanning(x, StepLeft(x, z))
    ensures 0 <= z.jl < |x.b| && 0 <= z.p[z.jl] < |x.b|
    ensures var t := x.b[Pred(z.p[z.jl], |x.b|)]; x.bigDone[t] || z.cs[t] <= z.ce[t]
  {
    hide Rank, Untouched, Complete;
    var z' := StepLeft(x, z);
    var j, k := z.jl, Pred(z.p[z.jl], |x.b|);
    assert Ready(x, z, j) && !Visited(x, z, j);
    PredFacts(x, z, j);
    var t := x.b[k];
    if x.bigDone[t] {
      assert Skips(x, z, z', j);
      SkipKeeps(x, z, z', j);
    } else {
      Room(x, z, j, t);
      LeftPuts(x, z, t, k);
      PutsFresh(x, z, z', t, z.cs[t], k, j);
      forall u, a | WrittenLeft(x, z', u, a) ensures x.first() <= z'.org[a] < z'.jl {
        if !(u == t && a == z.cs[t]) { assert WrittenLeft(x, z, u, a) && Written(x, z, u, a); }
      }
      forall u, a | WrittenRight(x, z', u, a) ensures z'.jr < z'.org[a] < x.end() {
        assert WrittenRight(x, z, u, a) && Written(x, z, u, a);
      }
      PutKeeps(x, z, z', t, z.cs[t], k, j);
    }
  }
  lemma StepRightKeeps(x: Setting, z: Scan)
    requires x.Valid() && Scanning(x, z) && z.ce[x.ss] < z.jr
    ensures Scanning(x, StepRight(x, z))
    ensures 0 <= z.jr < |x.b| && 0 <= z.p[z.jr] < |x.b|
    ensures var t := x.b[Pred(z.p[z.jr], |x.b|)]; x.bigDone[t] || z.cs[t] <= z.ce[t]
  {
    hide Rank, Untouched, Complete;
    var z' := StepRight(x, z);
    var j, k := z.jr, Pred(z.p[z.jr], |x.b|);
    assert Ready(x, z, j) && !Visited(x, z, j);
    PredFacts(x, z, j);
    var t := x.b[k];
    if x.bigDone[t] {
      assert Skips(x, z, z', j);
      SkipKeeps(x, z, z', j);
    } else {
      Room(x, z, j, t);
      RightPuts(x, z, t, k);
      PutsFresh(x, z, z', t, z.ce[t], k, j);
      forall u, a | WrittenLeft(x, z', u, a) ensures x.first() <= z'.org[a] < z'.jl {
        assert WrittenLeft(x, z, u, a) && Written(x, z, u, a);
      }
      forall u, a | WrittenRight(x, z', u, a) ensures z'.jr < z'.org[a] < x.end() {
        if !(u == t && a == z.ce[t]) { assert WrittenRight(x, z, u, a) && Written(x, z, u, a); }
      }
      PutKeeps(x, z, z', t, z.ce[t], k, j);
    }
  }

  /** Before anything has been read. */
  ghost function StartScan(x: Setting): (z: Scan)
    requires x.Valid()
    ensures Shape(x, z)
  {
    SmallBounds(x, x.ss);
    assert forall t :: 0 <= t < 256 ==> x.lo(t) <= x.hi(t) + 1;
    Scan(x.p0, seq(|x.p0|, _ => 0), seq(256, t requires 0 <= t < 256 => x.lo(t)),
         seq(256, t requires 0 <= t < 256 => x.hi(t)), x.first(), x.end() - 1)
  }

  lemma StartScanning(x: Setting)
    requires x.Valid()
    ensures Scanning(x, StartScan(x))
  {
    var z := StartScan(x);
    assert forall t, a {:trigger Written(x, z, t, a)} :: !Written(x, z, t, a);
    assert forall t, a {:trigger WrittenLeft(x, z, t, a)} :: !WrittenLeft(x, z, t, a);
    assert forall t, a {:trigger WrittenRight(x, z, t, a)} :: !WrittenRight(x, z, t, a);
    SmallBounds(x, x.ss);
    assert Untouched(x, z);
    forall j | Ready(x, z, j) ensures 0 <= j < |x.b| && 0 <= z.p[j] < |x.b| && x.b[z.p[j]] == x.ss {
      OuterKey(x, j);
    }
    forall j, k | Ready(x, z, j) && Ready(x, z, k) && j < k
      ensures z.p[j] != z.p[k] && Rank(x.b, |x.b|)[z.p[j]] <= Rank(x.b, |x.b|)[z.p[k]]
    {
      StartOrder(x, j, k);
    }
  }

  lemma StartOrder(x: Setting, j: int, k: int)
    requires x.Valid() && j < k
    requires x.first() <= j < x.lo(x.ss) || x.hi(x.ss) < j < x.end()
    requires x.first() <= k < x.lo(x.ss) || x.hi(x.ss) < k < x.end()
    ensures 0 <= j < k < |x.b| && x.p0[j] != x.p0[k] && 0 <= x.p0[j] < |x.b| && 0 <= x.p0[k] < |x.b|
    ensures Rank(x.b, |x.b|)[x.p0[j]] <= Rank(x.b, |x.b|)[x.p0[k]]
  {
    SmallBounds(x, x.ss);
    if j < x.lo(x.ss) && k > x.hi(x.ss) {
      OuterKey(x, j);
      OuterKey(x, k);
      KeyRank(x.b, x.p0[j], x.p0[k]);
    }
  }

  /** Both scans have read all the cells that are ready. */
  ghost predicate Ended(x: Setting, z: Scan)
    requires x.Valid()
  {
    Scanning(x, z) && z.jl == z.cs[x.ss] && z.jr == z.ce[x.ss]
  }

  /** y begins with ss twice, and no cell has been given to it. */
  ghost predicate Missed(x: Setting, z: Scan, y: int)
    requires x.Valid()
  {
    && 0 <= y < |x.b| && x.b[y] == x.ss && x.b[Succ(y, |x.b|)] == x.ss
    && Shape(x, z)
    && forall a {:trigger Written(x, z, x.ss, a)} :: Written(x, z, x.ss, a) ==> 0 <= a < |z.p| && z.p[a] != y
  }

  /** A rotation whose successor has been read has been written. */
  lemma ReadThenWritten(x: Setting, z: Scan, y: int, j: int)
    requires x.Valid() && Ended(x, z) && 0 <= y < |x.b| && !x.bigDone[x.b[y]]
    requires Ready(x, z, j) && 0 <= j < |x.b| && z.p[j] == Succ(y, |x.b|)
    ensures exists a {:trigger Written(x, z, x.b[y], a)} :: Written(x, z, x.b[y], a) && 0 <= a < |z.p| && z.p[a] == y
  {
    assert Visited(x, z, j) && PredWritten(x, z, j);
    assert Pred(z.p[j], |x.b|) == y;
    var a :| Written(x, z, x.b[y], a) && z.org[a] == j;
    OriginReady(x, z, x.b[y], a);
    CellsIn(x, z);
    assert Succ(z.p[a], |x.b|) == z.p[j];
  }

  lemma MissedSucc(x: Setting, z: Scan, y: int)
    requires x.Valid() && Ended(x, z) && Missed(x, z, y)
    ensures Missed(x, z, Succ(y, |x.b|))
  {
    var n := |x.b|;
    var s := Succ(y, n);
    forall j | Ready(x, z, j) && 0 <= j < n ensures z.p[j] != s {
      if z.p[j] == s { ReadThenWritten(x, z, y, j); }
    }
    if x.b[Succ(s, n)] != x.ss {
      var c := Surjective(x.p0, n, s);
      OuterCell(x, c);
      OuterCells(x, z, c);
      assert Ready(x, z, c);
      assert false;
    }
    forall a | Written(x, z, x.ss, a) ensures 0 <= a < |z.p| && z.p[a] != s {
      CellsIn(x, z);
      SmallBounds(x, x.ss);
      assert Ready(x, z, a);
    }
  }

  /** A rotation that begins with ss but not twice is in an outer small bucket. */
  lemma OuterCell(x: Setting, c: int)
    requires x.Valid() && 0 <= c < |x.b| && x.b[x.p0[c]] == x.ss && x.b[Succ(x.p0[c], |x.b|)] != x.ss
    ensures x.first() <= c < x.lo(x.ss) || x.hi(x.ss) < c < x.end()
  {
    KeyByte(x.b, x.p0[c]);
    var k, s := Key(x.b, x.p0[c]), Small(x.ss, x.ss);
    StartsMono(x.st, Small(x.ss, 0), k);
    StartsMono(x.st, k + 1, Small(x.ss + 1, 0));
    StartsMono(x.st, k + 1, s);
    StartsMono(x.st, s + 1, k);
  }

  lemma {:induction false} MissedAll(x: Setting, z: Scan, y: int, m: nat)
    requires x.Valid() && Ended(x, z) && Missed(x, z, y)
    ensures Missed(x, z, Wrap(y + m, |x.b|))
    decreases m
  {
    if m == 0 {
      assert Wrap(y, |x.b|) == y;
    } else {
      MissedSucc(x, z, y);
      MissedAll(x, z, Succ(y, |x.b|), m - 1);
      assert Wrap(y + m, |x.b|) == Wrap(Succ(y, |x.b|) + (m - 1), |x.b|);
    }
  }

  /** If some rotation has been missed then the block is made of ss alone, and nothing
      has been written at all. */
  lemma MissedOnly(x: Setting, z: Scan, y: int)
    requires x.Valid() && Ended(x, z) && Missed(x, z, y)
    ensures forall q :: 0 <= q < |x.b| ==> x.b[q] == x.ss
    ensures forall t, a {:trigger Written(x, z, t, a)} :: !Written(x, z, t, a)
  {
    var n := |x.b|;
    forall q | 0 <= q < n ensures x.b[q] == x.ss && Missed(x, z, q) {
      var m := if q >= y then q - y else q - y + n;
      MissedAll(x, z, y, m);
      assert Wrap(y + m, n) == q;
    }
    forall t, a ensures !Written(x, z, t, a) {
      if Written(x, z, t, a) {
        OriginReady(x, z, t, a);
        assert false;
      }
    }
  }

  /** A gap left between the two scans leaves some rotation missed. */
  lemma GapMisses(x: Setting, z: Scan) returns (y: int)
    requires x.Valid() && Scanning(x, z) && z.cs[x.ss] <= z.ce[x.ss]
    ensures Missed(x, z, y)
  {
    y := GapLeaves(x, z);
    KeyByte(x.b, y);
    forall a | Written(x, z, x.ss, a) ensures 0 <= a < |z.p| && z.p[a] != y {
      assert a in WrittenCells(x, z, x.ss);
      assert z.p[a] in Image(z.p, WrittenCells(x, z, x.ss));
    }
  }

  /** The bucket holds more rotations than have been written. */
  lemma GapLeaves(x: Setting, z: Scan) returns (y: int)
    requires x.Valid() && Scanning(x, z) && z.cs[x.ss] <= z.ce[x.ss]
    ensures y in KeySet(x.b, Small(x.ss, x.ss)) && forall a :: a in WrittenCells(x, z, x.ss) ==> 0 <= a < |z.p|
    ensures y !in Image(z.p, WrittenCells(x, z, x.ss))
  {
    hide Written, Origins, Order, Complete, Untouched, KeySet, Visited, Ready;
    var w, c := WrittenCells(x, z, x.ss), KeySet(x.b, Small(x.ss, x.ss));
    WrittenImage(x, z, x.ss);
    BucketSize(x, x.ss);
    var m := Image(z.p, w);
    SomeMember(c - m);
    if c - m == {} { SubsetSize(c, m); }
    y :| y in c - m;
  }

  /** The two scans meet, unless the block is made of one character alone. */
  lemma ScansMeet(x: Setting, z: Scan)
    requires x.Valid() && Ended(x, z)
    ensures z.cs[x.ss] == z.ce[x.ss] + 1 || (z.cs[x.ss] == 0 && z.ce[x.ss] == |x.b| - 1)
    ensures z.cs[x.ss] != z.ce[x.ss] + 1 ==>
      (forall q :: 0 <= q < |x.b| ==> x.b[q] == x.ss) &&
        forall t, a {:trigger Written(x, z, t, a)} :: !Written(x, z, t, a)
  {
    if z.cs[x.ss] <= z.ce[x.ss] {
      var y := GapMisses(x, z);
      MissedOnly(x, z, y);
      OneBucket(x);
      assert !Written(x, z, x.ss, x.lo(x.ss)) && !Written(x, z, x.ss, x.hi(x.ss));
    }
  }

  /** A block of one character is one small bucket. */
  lemma OneBucket(x: Setting)
    requires x.Valid() && forall q :: 0 <= q < |x.b| ==> x.b[q] == x.ss
    ensures x.lo(x.ss) == 0 && x.hi(x.ss) == |x.b| - 1
  {
    var n, c := |x.b|, Small(x.ss, x.ss);
    assert Key(x.b, x.p0[0]) == c && Key(x.b, x.p0[n - 1]) == c;
    StartsMono(x.st, 0, c);
    StartsMono(x.st, c + 1, 65536);
  }

  /** Once the big bucket is complete, every bucket [t, ss] is. */
  lemma AllWritten(x: Setting, z: Scan, t: int)
    requires x.Valid() && Ended(x, z) && z.cs[x.ss] == z.ce[x.ss] + 1
    requires 0 <= t < 256 && !x.bigDone[t]
    ensures z.cs[t] == z.ce[t] + 1
  {
    var w, c := WrittenCells(x, z, t), KeySet(x.b, Small(t, x.ss));
    WrittenImage(x, z, t);
    BucketSize(x, t);
    SmallBounds(x, t);
    forall y | y in c ensures y in Image(z.p, w) { BucketMember(x, z, t, y); }
    hide *;
    SubsetSize(c, Image(z.p, w));
    assert z.cs[t] <= z.ce[t] + 1 by { assert Ended(x, z); EndedShape(x, z, t); }
  }

  lemma EndedShape(x: Setting, z: Scan, t: int)
    requires x.Valid() && Ended(x, z) && 0 <= t < 256
    ensures |z.cs| == 256 && |z.ce| == 256 && z.cs[t] <= z.ce[t] + 1
  {
  }

  lemma BucketMember(x: Setting, z: Scan, t: int, y: int)
    requires x.Valid() && Ended(x, z) && z.cs[x.ss] == z.ce[x.ss] + 1
    requires 0 <= t < 256 && !x.bigDone[t] && y in KeySet(x.b, Small(t, x.ss))
    requires forall a :: a in WrittenCells(x, z, t) ==> 0 <= a < |z.p|
    ensures y in Image(z.p, WrittenCells(x, z, t))
  {
    hide Origins, Order, Complete, Untouched, Rank;
    KeyByte(x.b, y);
    var j := BigCell(x, z, Succ(y, |x.b|));
    ReadThenWritten(x, z, y, j);
    var a :| Written(x, z, x.b[y], a) && 0 <= a < |z.p| && z.p[a] == y;
    assert a in WrittenCells(x, z, t);
  }

  /** Every rotation that begins with ss has its cell in the completed big bucket. */
  lemma BigCell(x: Setting, z: Scan, y: int) returns (j: int)
    requires x.Valid() && Scanning(x, z) && z.cs[x.ss] == z.ce[x.ss] + 1
    requires 0 <= y < |x.b| && x.b[y] == x.ss
    ensures 0 <= j < |x.b| && Ready(x, z, j) && z.p[j] == y
  {
    SmallBounds(x, x.ss);
    var s := Span(x.first(), x.end());
    var c := Surjective(x.p0, |x.b|, y);
    BigBefore(x, z);
    BigCellIn(x, c);
    assert y in Image(x.p0, s);
    assert y in Image(z.p, s);
    j :| j in s && z.p[j] == y;
  }

  lemma BigCellIn(x: Setting, c: int)
    requires x.Valid() && 0 <= c < |x.b| && x.b[x.p0[c]] == x.ss
    ensures x.first() <= c < x.end()
  {
    KeyByte(x.b, x.p0[c]);
    var k := Key(x.b, x.p0[c]);
    StartsMono(x.st, Small(x.ss, 0), k);
    StartsMono(x.st, k + 1, Small(x.ss + 1, 0));
  }

  /** The completed big bucket holds what it held before. */
  lemma BigBefore(x: Setting, z: Scan)
    requires x.Valid() && Scanning(x, z) && z.cs[x.ss] == z.ce[x.ss] + 1
    ensures 0 <= x.first() <= x.end() <= |x.b|
    ensures Image(x.p0, Span(x.first(), x.end())) == Image(z.p, Span(x.first(), x.end()))
  {
    hide Scanning, Shape, Setting.Valid, IsPermutation, Bytes;
    ScanFacts(x, z);
    SmallBounds(x, x.ss);
    StartPermutes(x);
    var s, n := Span(x.first(), x.end()), |x.b|;
    BigCells(x, z, s);
    StartDistinct(x.p0, n, s);
    ImageSize(x.p0, s);
    ImageSize(z.p, s);
    forall y | y in Image(z.p, s) ensures y in Image(x.p0, s) {
      var j :| j in s && z.p[j] == y;
      var c := Surjective(x.p0, n, y);
      BigCellIn(x, c);
    }
    SubsetSize(Image(z.p, s), Image(x.p0, s));
  }

  lemma StartPermutes(x: Setting)
    requires x.Valid()
    ensures IsPermutation(x.p0, |x.b|)
  {
    hide Rank;
  }

  lemma StartDistinct(p: seq<int>, n: nat, s: set<int>)
    requires IsPermutation(p, n) && forall j :: j in s ==> 0 <= j < n
    ensures n <= |p| && forall j, k :: j in s && k in s && j != k ==> p[j] != p[k]
  {
  }

  /** The cells of the completed big bucket hold different rotations, all of its own. */
  lemma BigCells(x: Setting, z: Scan, s: set<int>)
    requires x.Valid() && Scanning(x, z) && z.cs[x.ss] == z.ce[x.ss] + 1 && s == Span(x.first(), x.end())
    ensures |z.p| == |x.p0| >= |x.b|
    ensures forall j :: j in s ==> 0 <= j < |x.b| && 0 <= z.p[j] < |x.b| && x.b[z.p[j]] == x.ss
    ensures forall j, k :: j in s && k in s && j != k ==> z.p[j] != z.p[k]
  {
    hide Origins, Complete, Untouched, Rank, Bucketed, Starts;
    ScanFacts(x, z);
    assert forall j :: j in s ==> Ready(x, z, j);
  }

  /** Cell a is in none of the buckets that the scan completes. */
  ghost predicate Outside(x: Setting, a: int)
    requires x.Sized()
  {
    forall t :: 0 <= t < 256 && !x.bigDone[t] ==> !(x.lo(t) <= a <= x.hi(t))
  }

  /** The order after the scan: every bucket [t, ss] is complete and in order, and all
      other cells are as they were. */
  lemma ScanDone(x: Setting, z: Scan)
    requires x.Valid() && Ended(x, z)
    ensures Bucketed(x.b, x.st, z.p) && |z.p| == |x.p0|
    ensures forall t, j, k :: 0 <= t < 256 && !x.bigDone[t] && x.lo(t) <= j < k <= x.hi(t) ==>
      Rank(x.b, |x.b|)[z.p[j]] <= Rank(x.b, |x.b|)[z.p[k]]
    ensures forall a :: 0 <= a < |x.p0| && Outside(x, a) ==> z.p[a] == x.p0[a]
  {
    ScansMeet(x, z);
    if z.cs[x.ss] == z.ce[x.ss] + 1 {
      forall t | 0 <= t < 256 && !x.bigDone[t] ensures z.cs[t] == z.ce[t] + 1 { AllWritten(x, z, t); }
      DoneBucketed(x, z);
      DoneOrders(x, z);
    } else {
      forall a | 0 <= a < |x.p0| ensures z.p[a] == x.p0[a] {}
      assert z.p == x.p0;
      OneByte(x.b, x.ss);
    }
  }

  lemma DoneOrders(x: Setting, z: Scan)
    requires x.Valid() && Ended(x, z) && |z.p| == |x.p0|
    requires forall t :: 0 <= t < 256 && !x.bigDone[t] ==> z.cs[t] == z.ce[t] + 1
    ensures forall t, j, k :: 0 <= t < 256 && !x.bigDone[t] && x.lo(t) <= j < k <= x.hi(t) ==>
      && 0 <= j < k < |z.p| && 0 <= z.p[j] < |x.b| && 0 <= z.p[k] < |x.b|
      && Rank(x.b, |x.b|)[z.p[j]] <= Rank(x.b, |x.b|)[z.p[k]]
  {
    forall t, j, k | 0 <= t < 256 && !x.bigDone[t] && x.lo(t) <= j < k <= x.hi(t)
      ensures 0 <= j < k < |z.p| && 0 <= z.p[j] < |x.b| && 0 <= z.p[k] < |x.b|
      ensures Rank(x.b, |x.b|)[z.p[j]] <= Rank(x.b, |x.b|)[z.p[k]]
    {
      DoneOrder(x, z, t, j, k);
    }
  }

  lemma OneByte(b: seq<int>, c: int)
    requires |b| > 0 && forall q :: 0 <= q < |b| ==> b[q] == c
    ensures forall u, v :: 0 <= u < |b| && 0 <= v < |b| ==> Rank(b, |b|)[u] <= Rank(b, |b|)[v]
  {
    hide Cmp, Rank;
    forall u, v | 0 <= u < |b| && 0 <= v < |b| ensures Rank(b, |b|)[u] <= Rank(b, |b|)[v] {
      SameRank(b, c, u, v, |b|);
      RankOrder(b, |b|, u, v);
    }
  }

  lemma {:induction false} SameRank(b: seq<int>, c: int, u: nat, v: nat, h: nat)
    requires |b| > 0 && forall q :: 0 <= q < |b| ==> b[q] == c
    ensures Cmp(b, u, v, h) == 0
    decreases h
  {
    if h > 0 { SameRank(b, c, u + 1, v + 1, h - 1); }
  }

  lemma DoneOrder(x: Setting, z: Scan, t: int, j: int, k: int)
    requires x.Valid() && Ended(x, z) && 0 <= t < 256 && !x.bigDone[t] && z.cs[t] == z.ce[t] + 1
    requires x.lo(t) <= j < k <= x.hi(t)
    ensures 0 <= j < k < |x.b| && 0 <= z.p[j] < |x.b| && 0 <= z.p[k] < |x.b|
    ensures z.p[j] != z.p[k] && Rank(x.b, |x.b|)[z.p[j]] <= Rank(x.b, |x.b|)[z.p[k]]
  {
    SmallBounds(x, t);
    assert Written(x, z, t, j) && Written(x, z, t, k);
    OriginReady(x, z, t, j);
    OriginReady(x, z, t, k);
    RankStep(x.b, z.p[j], z.p[k]);
  }

  /** Each cell holds a rotation of the bucket it lies in. */
  lemma DoneCell(x: Setting, z: Scan, a: int)
    requires x.Valid() && Ended(x, z) && 0 <= a < |x.b|
    requires forall t :: 0 <= t < 256 && !x.bigDone[t] ==> z.cs[t] == z.ce[t] + 1
    ensures 0 <= z.p[a] < |x.b| && x.st[Key(x.b, z.p[a])] <= a < x.st[Key(x.b, z.p[a]) + 1]
    ensures z.p[a] == x.p0[a] ||
      exists t :: 0 <= t < 256 && !x.bigDone[t] && x.lo(t) <= a <= x.hi(t) && Key(x.b, z.p[a]) == Small(t, x.ss)
  {
    if t :| Written(x, z, t, a) {
      OriginReady(x, z, t, a);
      SmallBounds(x, t);
    } else {
      assert z.p[a] == x.p0[a];
    }
  }

  lemma DoneBucketed(x: Setting, z: Scan)
    requires x.Valid() && Ended(x, z)
    requires forall t :: 0 <= t < 256 && !x.bigDone[t] ==> z.cs[t] == z.ce[t] + 1
    ensures Bucketed(x.b, x.st, z.p)
  {
    forall a | 0 <= a < |x.b|
      ensures 0 <= z.p[a] < |x.b| && x.st[Key(x.b, z.p[a])] <= a < x.st[Key(x.b, z.p[a]) + 1]
    {
      DoneCell(x, z, a);
    }
    forall a, a' | 0 <= a < a' < |x.b| ensures z.p[a] != z.p[a'] { DoneDistinct(x, z, a, a'); }
  }

  lemma DoneDistinct(x: Setting, z: Scan, a: int, a': int)
    requires x.Valid() && Ended(x, z) && 0 <= a < a' < |x.b|
    requires forall t :: 0 <= t < 256 && !x.bigDone[t] ==> z.cs[t] == z.ce[t] + 1
    ensures z.p[a] != z.p[a']
  {
    DoneCell(x, z, a);
    DoneCell(x, z, a');
    if z.p[a] == z.p[a'] {
      var c := Key(x.b, z.p[a]);
      KeyByte(x.b, z.p[a]);
      if z.p[a] != x.p0[a] {
        var t :| 0 <= t < 256 && !x.bigDone[t] && x.lo(t) <= a <= x.hi(t) && c == Small(t, x.ss);
        DoneOrder(x, z, t, a, a');
      } else if z.p[a'] != x.p0[a'] {
        var t :| 0 <= t < 256 && !x.bigDone[t] && x.lo(t) <= a' <= x.hi(t) && c == Small(t, x.ss);
        DoneOrder(x, z, t, a, a');
      }
    }
  }

  lemma ScanFacts(x: Setting, z: Scan)
    requires x.Valid() && Scanning(x, z)
    ensures |x.p0| >= |x.b| > 0 && |x.bigDone| == 256 && 0 <= x.ss < 256 && Bytes(x.b) && |x.st| == 65537
    ensures forall t :: 0 <= t < 256 ==> 0 <= x.lo(t) && x.hi(t) < |x.b|
  {
    hide Origins, Order, Complete, Untouched, Rank;
    forall t | 0 <= t < 256 ensures 0 <= x.lo(t) && x.hi(t) < |x.b| { SmallBounds(x, t); }
  }

  /** What one step of the scan from the left reads and writes. */
  lemma LeftStep(x: Setting, z: Scan)
    requires x.Valid() && Scanning(x, z) && z.jl < z.cs[x.ss]
    ensures 0 <= z.jl < |x.b| && |z.p| == |x.p0| >= |x.b| && 0 <= z.p[z.jl] < |x.b| && |x.bigDone| == 256
    ensures var k := Pred(z.p[z.jl], |x.b|); 0 <= k < |x.b| && 0 <= x.b[k] < 256
    ensures Scanning(x, StepLeft(x, z)) && Shape(x, StepLeft(x, z))
    ensures var k := Pred(z.p[z.jl], |x.b|); var t := x.b[k]; var z' := StepLeft(x, z);
      if x.bigDone[t] then z' == z.(jl := z.jl + 1)
      else 0 <= z.cs[t] < |z.p| && z'.p == z.p[z.cs[t] := k] && z'.cs == z.cs[t := z.cs[t] + 1]
           && z'.ce == z.ce && z'.jl == z.jl + 1 && z'.jr == z.jr
  {
    hide Origins, Order, Complete, Untouched, Rank, Pred, Succ, Setting.Valid;
    ScanFacts(x, z);
    StepLeftKeeps(x, z);
    assert Ready(x, z, z.jl);
    PredFacts(x, z, z.jl);
    SmallBounds(x, x.b[Pred(z.p[z.jl], |x.b|)]);
  }

  lemma RightStep(x: Setting, z: Scan)
    requires x.Valid() && Scanning(x, z) && z.jr > z.ce[x.ss]
    ensures 0 <= z.jr < |x.b| && |z.p| == |x.p0| >= |x.b| && 0 <= z.p[z.jr] < |x.b| && |x.bigDone| == 256
    ensures var k := Pred(z.p[z.jr], |x.b|); 0 <= k < |x.b| && 0 <= x.b[k] < 256
    ensures Scanning(x, StepRight(x, z)) && Shape(x, StepRight(x, z))
    ensures var k := Pred(z.p[z.jr], |x.b|); var t := x.b[k]; var z' := StepRight(x, z);
      if x.bigDone[t] then z' == z.(jr := z.jr - 1)
      else 0 <= z.ce[t] < |z.p| && z'.p == z.p[z.ce[t] := k] && z'.ce == z.ce[t := z.ce[t] - 1]
           && z'.cs == z.cs && z'.jl == z.jl && z'.jr == z.jr - 1
  {
    hide Origins, Order, Complete, Untouched, Rank, Pred, Succ, Setting.Valid;
    ScanFacts(x, z);
    StepRightKeeps(x, z);
    assert Ready(x, z, z.jr);
    PredFacts(x, z, z.jr);
    SmallBounds(x, x.b[Pred(z.p[z.jr], |x.b|)]);
  }

  lemma ScanShape(x: Setting, z: Scan)
    requires x.Valid() && Scanning(x, z)
    ensures Shape(x, z) && Order(x, z) && |z.cs| == 256 && |z.ce| == 256 && |z.p| == |x.p0| >= |x.b|
    ensures x.first() <= z.jl <= z.cs[x.ss] && z.ce[x.ss] <= z.jr < x.end() <= |x.b|
    ensures 0 <= x.first() && z.cs[x.ss] <= |x.b| && -1 <= z.ce[x.ss]
  {
    SmallBounds(x, x.ss);
  }
}
