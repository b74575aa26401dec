/** The decoder's move-to-front list: 256 entries in 16 slices that drift down a long array.

    Moving an entry to the front shifts entries only inside its own slice; every slice before
    it slides down by one cell, taking over the last entry of the slice before.
 */
module SlicedList {
  import opened MoveToFront

  const MTFA_SIZE: int := 4096
  const MTFL_SIZE: int := 16

  /** Slices in order, none overlapping the next. */
  ghost predicate Apart(base: seq<int>) {
    && |base| == 16 && base[0] >= 0 && base[15] + 16 <= MTFA_SIZE
    && forall k, m :: 0 <= k < 16 && m == k + 1 < 16 ==> base[k] + 16 <= base[m]
  }

  /** Slice k of the list, as cells. */
  ghost predicate SliceHolds(a: seq<int>, at: int, y: seq<int>, k: int) {
    && 0 <= k < 16 && |y| == 256 && 0 <= at && at + 16 <= |a|
    && a[at..at + 16] == y[16 * k..16 * k + 16]
  }

  /** The slices spell the list y. */
  ghost predicate Spells(a: seq<int>, base: seq<int>, y: seq<int>) {
    && |a| == MTFA_SIZE && |y| == 256 && Apart(base)
    && forall k :: 0 <= k < 16 ==> SliceHolds(a, base[k], y, k)
  }

  lemma {:induction false} BaseLow(base: seq<int>, k: int)
    requires Apart(base) && 0 <= k < 16
    ensures base[0] + 16 * k <= base[k] <= MTFA_SIZE - 256 + 16 * k
  {
    BaseAbove(base, k);
    BaseBelow(base, k);
  }

  lemma {:induction false} BaseAbove(base: seq<int>, k: int)
    requires Apart(base) && 0 <= k < 16
    ensures base[0] + 16 * k <= base[k]
    decreases k
  {
    if k > 0 { BaseAbove(base, k - 1); assert base[k - 1] + 16 <= base[k]; }
  }

  lemma {:induction false} BaseBelow(base: seq<int>, k: int)
    requires Apart(base) && 0 <= k < 16
    ensures base[k] <= MTFA_SIZE - 256 + 16 * k
    decreases 16 - k
  {
    if k < 15 { BaseBelow(base, k + 1); assert base[k] + 16 <= base[k + 1]; }
  }

  /** Lower slices lie below higher ones. */
  lemma {:induction false} BaseApart(base: seq<int>, j: int, k: int)
    requires Apart(base) && 0 <= j < k < 16
    ensures base[j] + 16 <= base[k]
    decreases k
  {
    assert base[k - 1] + 16 <= base[k];
    if j < k - 1 { BaseApart(base, j, k - 1); }
  }

  // An entry of slice 0.

  lemma SliceRotated(a: seq<int>, at: int, nn: int)
    requires 0 <= at && 0 <= nn < 16 && at + 16 <= |a|
    ensures var s := a[at..at + 16];
      (a[..at] + [a[at + nn]] + a[at..at + nn] + a[at + nn + 1..])[at..at + 16] == [s[nn]] + s[..nn] + s[nn + 1..]
  {
    var s := a[at..at + 16];
    assert a[at + nn + 1..] == s[nn + 1..] + a[at + 16..];
    assert a[at..at + nn] == s[..nn];
  }

  /** Entries up to n have moved up by one within slice 0. */
  lemma FrontMoved(a: seq<int>, a': seq<int>, base: seq<int>, y: seq<int>, nn: int)
    requires Spells(a, base, y) && 0 <= nn < 16 && |a'| == |a|
    requires a' == a[..base[0]] + [a[base[0] + nn]] + a[base[0]..base[0] + nn] + a[base[0] + nn + 1..]
    ensures Spells(a', base, Moved(y, nn))
  {
    var z := Moved(y, nn);
    var at := base[0];
    assert SliceHolds(a, at, y, 0);
    assert a[at..at + 16][nn] == y[nn];
    forall k | 0 <= k < 16 ensures SliceHolds(a', base[k], z, k) {
      if k > 0 {
        BaseApart(base, 0, k);
        assert SliceHolds(a, base[k], y, k);
        BehindFront(a, a', at, base[k], nn);
        MovedBehind(y, nn, k);
      } else {
        SliceRotated(a, at, nn);
        MovedFront(y, nn);
      }
    }
  }

  lemma BehindFront(a: seq<int>, a': seq<int>, at: int, b: int, nn: int)
    requires 0 <= at && 0 <= nn < 16 && at + 16 <= b && b + 16 <= |a| == |a'|
    requires a' == a[..at] + [a[at + nn]] + a[at..at + nn] + a[at + nn + 1..]
    ensures a'[b..b + 16] == a[b..b + 16]
  {
    forall i | b <= i < b + 16 ensures a'[i] == a[i] {
      assert a[at + nn + 1..][i - (at + nn + 1)] == a[i];
    }
  }

  lemma MovedBehind(y: seq<int>, nn: int, k: int)
    requires |y| == 256 && 0 <= nn < 16 && 1 <= k < 16
    ensures Moved(y, nn)[16 * k..16 * k + 16] == y[16 * k..16 * k + 16]
  {
    forall i | 16 * k <= i < 16 * k + 16 ensures Moved(y, nn)[i] == y[i] {
      assert y[nn + 1..][i - (nn + 1)] == y[i];
    }
  }

  lemma MovedFront(y: seq<int>, nn: int)
    requires |y| == 256 && 0 <= nn < 16
    ensures Moved(y, nn)[..16] == [y[..16][nn]] + y[..16][..nn] + y[..16][nn + 1..]
  {
    assert y[..16][..nn] == y[..nn];
    assert y[nn + 1..][..15 - nn] == y[..16][nn + 1..];
  }

  /** What the cells are when entries n.. up to nn of a stretch at `at` have moved up by one. */
  ghost predicate ShiftedUp(a: seq<int>, a': seq<int>, at: int, n: int, nn: int) {
    && 0 <= at && 0 <= n <= nn && at + nn < |a| == |a'|
    && (forall k :: 0 <= k < |a| && (k <= at + n || k > at + nn) ==> a'[k] == a[k])
    && (forall k :: at + n < k <= at + nn ==> a'[k] == a[k - 1])
  }

  lemma ShiftUpStep(a: seq<int>, c: seq<int>, at: int, n: int, nn: int)
    requires ShiftedUp(a, c, at, n, nn) && n > 0
    ensures ShiftedUp(a, c[at + n := c[at + n - 1]], at, n - 1, nn)
  {
  }

  lemma ShiftUpDone(a: seq<int>, c: seq<int>, at: int, nn: int)
    requires ShiftedUp(a, c, at, 0, nn)
    ensures c[at := a[at + nn]] == a[..at] + [a[at + nn]] + a[at..at + nn] + a[at + nn + 1..]
  {
  }

  lemma EntryInFirst(a: seq<int>, base: seq<int>, y: seq<int>, nn: int)
    requires Spells(a, base, y) && 0 <= nn < 16
    ensures |base| == 16 && |y| == 256 && 0 <= base[0] && base[0] + 16 <= |a| && a[base[0] + nn] == y[nn]
  {
    assert SliceHolds(a, base[0], y, 0);
    assert a[base[0]..base[0] + 16][nn] == y[..16][nn];
  }

  /** Moves entry nn of the first slice to its front. */
  method MoveInFirst(mtfa: array<int>, mtfbase: array<int>, nn0: int, ghost y: seq<int>) returns (uc: int)
    requires mtfa != mtfbase && Spells(mtfa[..], mtfbase[..], y) && 0 <= nn0 < MTFL_SIZE
    modifies mtfa
    ensures uc == y[nn0] && Spells(mtfa[..], mtfbase[..], Moved(y, nn0))
  {
    hide ShiftedUp, Spells, SliceHolds, Moved;
    ghost var a := mtfa[..];
    EntryInFirst(a, mtfbase[..], y, nn0);
    var nn := nn0;
    var pp := mtfbase[0];
    uc := mtfa[pp + nn];
    ShiftUpStart(a, pp, nn0);
    while nn > 3
      invariant 0 <= nn <= nn0 && ShiftedUp(a, mtfa[..], pp, nn, nn0)
    {
      var z := pp + nn;
      ShiftUpFour(a, mtfa[..], pp, nn, nn0);
      mtfa[z] := mtfa[z - 1];
      mtfa[z - 1] := mtfa[z - 2];
      mtfa[z - 2] := mtfa[z - 3];
      mtfa[z - 3] := mtfa[z - 4];
      nn := nn - 4;
    }
    while nn > 0
      invariant 0 <= nn <= nn0 && ShiftedUp(a, mtfa[..], pp, nn, nn0)
    {
      ShiftUpStep(a, mtfa[..], pp, nn, nn0);
      mtfa[pp + nn] := mtfa[pp + nn - 1];
      nn := nn - 1;
    }
    ShiftUpDone(a, mtfa[..], pp, nn0);
    mtfa[pp] := uc;
    FrontMoved(a, mtfa[..], mtfbase[..], y, nn0);
  }

  lemma ShiftUpStart(a: seq<int>, at: int, nn: int)
    requires 0 <= at && 0 <= nn && at + nn < |a|
    ensures ShiftedUp(a, a, at, nn, nn)
  {
  }

  lemma ShiftUpFour(a: seq<int>, c: seq<int>, at: int, n: int, nn: int)
    requires ShiftedUp(a, c, at, n, nn) && n > 3
    ensures |c| == |a| && at + n < |c| && at >= 0
    ensures var c1 := c[at + n := c[at + n - 1]];
      var c2 := c1[at + n - 1 := c1[at + n - 2]];
      var c3 := c2[at + n - 2 := c2[at + n - 3]];
      ShiftedUp(a, c3[at + n - 3 := c3[at + n - 4]], at, n - 4, nn)
  {
  }

  // An entry of a later slice.

  /** Slice l is open: its first cell is still to be filled. Later slices are as in z, the list
      after the move; earlier ones are as in y. */
  ghost predicate Open(a: seq<int>, base: seq<int>, y: seq<int>, z: seq<int>, l: int) {
    && |a| == MTFA_SIZE && |y| == |z| == 256 && |base| == 16 && 0 <= l < 16
    && base[0] >= 1 && base[15] + (if l == 15 then 15 else 16) <= MTFA_SIZE
    && (forall k, m :: 0 <= k < 16 && m == k + 1 < 16 ==> base[k] + (if k == l then 15 else 16) <= base[m])
    && (forall k :: 0 <= k < 16 && k < l ==> SliceHolds(a, base[k], y, k))
    && (forall k :: 0 <= k < 16 && k > l ==> SliceHolds(a, base[k], z, k))
    && base[l] + 15 <= |a| && 0 <= base[l] && a[base[l]..base[l] + 15] == z[16 * l + 1..16 * l + 16]
  }

  lemma MovedSlices(y: seq<int>, l: int, off: int, k: int)
    requires |y| == 256 && 1 <= l < 16 && 0 <= off < 16 && 0 <= k < 16
    ensures var z := Moved(y, 16 * l + off);
      && |z| == 256 && z[0] == y[16 * l + off]
      && (k > l ==> z[16 * k..16 * k + 16] == y[16 * k..16 * k + 16])
      && (k < l ==> z[16 * k + 1..16 * k + 16] == y[16 * k..16 * k + 15])
      && (1 <= k <= l ==> z[16 * k] == y[16 * k - 1])
      && z[16 * l + 1..16 * l + 16] == y[16 * l..16 * l + off] + y[16 * l + off + 1..16 * l + 16]
  {
    var n, z := 16 * l + off, Moved(y, 16 * l + off);
    MovedCells(y, n);
    hide Moved;
    SameSlice(y, z, n + 1, 256);
    if k > l { assert z[n + 1..][16 * k - n - 1..16 * k - n + 15] == y[n + 1..][16 * k - n - 1..16 * k - n + 15]; }
    var u, v := z[16 * l + 1..16 * l + 16], y[16 * l..n] + y[n + 1..16 * l + 16];
    forall i | 0 <= i < 15 ensures u[i] == v[i] {
      assert u[i] == z[16 * l + 1 + i];
      assert v[i] == if i < off then y[16 * l + i] else y[16 * l + i + 1];
    }
  }

  lemma MovedCells(y: seq<int>, n: int)
    requires 0 <= n < |y|
    ensures Moved(y, n)[0] == y[n] && forall i :: 0 < i <= n ==> Moved(y, n)[i] == y[i - 1]
    ensures forall i :: n < i < |y| ==> Moved(y, n)[i] == y[i]
  {
  }

  lemma OpenSlice(a: seq<int>, a1: seq<int>, at: int, y: seq<int>, l: int, off: int)
    requires SliceHolds(a, at, y, l) && 0 <= off < 16 && ShiftedUp(a, a1, at, 0, off)
    ensures a1[at + 1..at + 16] == y[16 * l..16 * l + off] + y[16 * l + off + 1..16 * l + 16]
  {
    var u, v := a1[at + 1..at + 16], y[16 * l..16 * l + off] + y[16 * l + off + 1..16 * l + 16];
    forall i | 0 <= i < 15 ensures u[i] == v[i] {
      SliceCell(a, at, y, l, i);
      SliceCell(a, at, y, l, i + 1);
      assert u[i] == a1[at + 1 + i] == if i < off then a[at + i] else a[at + 1 + i];
      assert v[i] == if i < off then y[16 * l + i] else y[16 * l + i + 1];
    }
  }

  lemma SliceCell(a: seq<int>, at: int, y: seq<int>, k: int, i: int)
    requires SliceHolds(a, at, y, k) && 0 <= i < 16
    ensures a[at + i] == y[16 * k + i]
  {
    assert a[at..at + 16][i] == y[16 * k..16 * k + 16][i];
  }

  lemma SliceSame(a: seq<int>, from: int, y: seq<int>, k: int, at: int, v: int)
    requires SliceHolds(a, from, y, k) && 0 <= at < |a| && (at < from || from + 16 <= at)
    ensures SliceHolds(a[at := v], from, y, k)
  {
    assert a[at := v][from..from + 16] == a[from..from + 16];
  }

  lemma OtherSlice(a: seq<int>, a1: seq<int>, at: int, off: int, from: int, y: seq<int>, k: int)
    requires SliceHolds(a, from, y, k) && ShiftedUp(a, a1, at, 0, off) && off < 16
    requires (from + 16 <= at || at + 16 <= from)
    ensures SliceHolds(a1, from, y, k)
  {
    assert a1[from..from + 16] == a[from..from + 16];
  }

  /** Shifting inside slice l opens its first cell. */
  lemma OpenStart(a: seq<int>, a1: seq<int>, base: seq<int>, y: seq<int>, l: int, off: int)
    requires Spells(a, base, y) && base[0] >= 1 && 1 <= l < 16 && 0 <= off < 16
    requires ShiftedUp(a, a1, base[l], 0, off)
    ensures Open(a1, base[l := base[l] + 1], y, Moved(y, 16 * l + off), l)
  {
    var z := Moved(y, 16 * l + off);
    forall k | 0 <= k < 16 && k < l ensures SliceHolds(a1, base[k], y, k) {
      BaseApart(base, k, l);
      OtherSlice(a, a1, base[l], off, base[k], y, k);
    }
    forall k | 0 <= k < 16 && k > l ensures SliceHolds(a1, base[k], z, k) {
      BaseApart(base, l, k);
      OtherSlice(a, a1, base[l], off, base[k], y, k);
      MovedSlices(y, l, off, k);
    }
    assert SliceHolds(a, base[l], y, l);
    OpenSlice(a, a1, base[l], y, l, off);
    MovedSlices(y, l, off, l);
    hide SliceHolds, ShiftedUp, Moved;
  }

  /** What the list after the move has where slice l meets the one before. */
  ghost predicate Seam(y: seq<int>, z: seq<int>, l: int) {
    && |y| == |z| == 256 && 1 <= l < 16
    && z[16 * l] == y[16 * l - 1] && z[16 * (l - 1) + 1..16 * (l - 1) + 16] == y[16 * (l - 1)..16 * (l - 1) + 15]
  }

  lemma CellApart(a: seq<int>, base: seq<int>, y: seq<int>, z: seq<int>, l: int, at: int, k: int)
    requires Open(a, base, y, z, l) && 0 <= k < 16 && k != l && l >= 1 && at == base[l] - 1
    ensures k < l - 1 ==> base[k] + 16 <= at
    ensures k > l ==> at < base[k]
    ensures base[l - 1] + 15 <= at
  {
    OpenApart(a, base, y, z, l, k);
  }

  lemma {:induction false} OpenApart(a: seq<int>, base: seq<int>, y: seq<int>, z: seq<int>, l: int, k: int)
    requires Open(a, base, y, z, l) && 0 <= k < 16 && k != l && l >= 1
    ensures k < l ==> base[k] + 16 * (l - k) <= base[l]
    ensures k > l ==> base[l] + 15 <= base[k]
    decreases if k < l then l - k else k - l
  {
    if k < l {
      assert base[k] + 16 <= base[k + 1];
      if k < l - 1 { OpenApart(a, base, y, z, l, k + 1); }
    } else {
      assert base[k - 1] + (if k - 1 == l then 15 else 16) <= base[k];
      if k > l + 1 { OpenApart(a, base, y, z, l, k - 1); }
    }
  }

  /** Filling the open slice's first cell with the last entry of the slice before opens that one. */
  lemma OpenStep(a: seq<int>, base: seq<int>, y: seq<int>, z: seq<int>, l: int)
    requires Open(a, base, y, z, l) && Seam(y, z, l)
    ensures var at := base[l] - 1;
      0 <= base[l - 1] && base[l - 1] + 15 <= at < |a|
      && Open(a[at := a[base[l - 1] + 15]], base[l := at], y, z, l - 1)
  {
    hide SliceHolds;
    var at := base[l] - 1;
    CellApart(a, base, y, z, l, at, l - 1);
    OpenFirst(a, base, y, z, l);
    StepBelow(a, base, y, z, l, at);
    StepFilled(a, base, y, z, l, at);
    forall k | 0 <= k < 16 && k != l && k != l - 1
      ensures SliceHolds(a[at := a[base[l - 1] + 15]], base[k], if k < l then y else z, k)
    {
      CellApart(a, base, y, z, l, at, k);
      SliceSame(a, base[k], if k < l then y else z, k, at, a[base[l - 1] + 15]);
    }
  }

  lemma OpenFirst(a: seq<int>, base: seq<int>, y: seq<int>, z: seq<int>, l: int)
    requires Open(a, base, y, z, l) && l >= 1
    ensures 1 <= base[0] <= base[l - 1]
  {
    hide SliceHolds;
    if l > 1 { OpenApart(a, base, y, z, l, 0); OpenApart(a, base, y, z, l, l - 1); FirstLow(a, base, y, z, l, l - 1); }
  }

  lemma {:induction false} FirstLow(a: seq<int>, base: seq<int>, y: seq<int>, z: seq<int>, l: int, k: int)
    requires Open(a, base, y, z, l) && 0 <= k < l
    ensures base[0] <= base[k]
  {
    hide SliceHolds;
    if k > 0 {
      FirstLow(a, base, y, z, l, k - 1);
      assert base[k - 1] + 16 <= base[k];
    }
  }

  /** The slice that lends its last entry is now the open one. */
  lemma StepBelow(a: seq<int>, base: seq<int>, y: seq<int>, z: seq<int>, l: int, at: int)
    requires Open(a, base, y, z, l) && Seam(y, z, l) && at == base[l] - 1 && 0 <= base[l - 1]
    requires base[l - 1] + 15 <= at < |a|
    ensures a[at := a[base[l - 1] + 15]][base[l - 1]..base[l - 1] + 15] == z[16 * (l - 1) + 1..16 * (l - 1) + 16]
  {
    var a' := a[at := a[base[l - 1] + 15]];
    assert SliceHolds(a, base[l - 1], y, l - 1);
    var u, v := a'[base[l - 1]..base[l - 1] + 15], y[16 * (l - 1)..16 * (l - 1) + 15];
    forall i | 0 <= i < 15 ensures u[i] == v[i] { SliceCell(a, base[l - 1], y, l - 1, i); }
  }

  /** The slice that was open is whole again. */
  lemma StepFilled(a: seq<int>, base: seq<int>, y: seq<int>, z: seq<int>, l: int, at: int)
    requires Open(a, base, y, z, l) && Seam(y, z, l) && at == base[l] - 1 && 0 <= base[l - 1]
    requires base[l - 1] + 15 <= at < |a|
    ensures SliceHolds(a[at := a[base[l - 1] + 15]], at, z, l)
  {
    var a' := a[at := a[base[l - 1] + 15]];
    assert SliceHolds(a, base[l - 1], y, l - 1);
    SliceCell(a, base[l - 1], y, l - 1, 15);
    var u, v := a[base[l]..base[l] + 15], z[16 * l + 1..16 * l + 16];
    var p, q := a'[at..at + 16], z[16 * l..16 * l + 16];
    forall i | 0 <= i < 16 ensures p[i] == q[i] {
      if i > 0 { assert u[i - 1] == v[i - 1]; }
    }
    assert p == q;
  }

  /** Filling the first slice ends the move. */
  lemma OpenDone(a: seq<int>, base: seq<int>, y: seq<int>, z: seq<int>)
    requires Open(a, base, y, z, 0)
    ensures 1 <= base[0] < |a| && Spells(a[base[0] - 1 := z[0]], base[0 := base[0] - 1], z)
  {
    var at := base[0] - 1;
    var a' := a[at := z[0]];
    assert a'[at..at + 16] == [z[0]] + a[base[0]..base[0] + 15];
    assert z[0..16] == [z[0]] + z[1..16];
    forall k | 0 <= k < 16 && k > 0 ensures SliceHolds(a', base[k], z, k) {
      FirstApart(a, base, y, z, k);
      assert SliceHolds(a, base[k], z, k);
      assert a'[base[k]..base[k] + 16] == a[base[k]..base[k] + 16];
    }
  }

  lemma {:induction false} FirstApart(a: seq<int>, base: seq<int>, y: seq<int>, z: seq<int>, k: int)
    requires Open(a, base, y, z, 0) && 0 < k < 16
    ensures base[0] + 15 <= base[k]
  {
    assert base[k - 1] + (if k - 1 == 0 then 15 else 16) <= base[k];
    if k > 1 { FirstApart(a, base, y, z, k - 1); }
  }

  lemma MovedSeam(y: seq<int>, l: int, off: int, k: int)
    requires |y| == 256 && 1 <= k <= l < 16 && 0 <= off < 16
    ensures Seam(y, Moved(y, 16 * l + off), k)
  {
    MovedSlices(y, l, off, k);
    MovedSlices(y, l, off, k - 1);
  }

  lemma SliceEntry(a: seq<int>, base: seq<int>, y: seq<int>, l: int, off: int)
    requires Spells(a, base, y) && 0 <= l < 16 && 0 <= off < 16
    ensures 0 <= base[l] && base[l] + 16 <= |a| && a[base[l] + off] == y[16 * l + off]
  {
    assert SliceHolds(a, base[l], y, l);
    assert a[base[l]..base[l] + 16][off] == y[16 * l..16 * l + 16][off];
  }

  lemma OpenBounds(a: seq<int>, base: seq<int>, y: seq<int>, z: seq<int>, l: int)
    requires Open(a, base, y, z, l)
    ensures 0 <= l < |base| == 16 && 1 <= base[0] && 1 <= base[l] < |a|
  {
    if l > 0 { OpenApart(a, base, y, z, l, 0); }
  }

  /** Shifts the entries of slice lno before the off-th up by one. */
  method OpenUp(mtfa: array<int>, mtfbase: array<int>, lno: int, off: int, ghost y: seq<int>) returns (uc: int)
    requires mtfa != mtfbase && Spells(mtfa[..], mtfbase[..], y) && mtfbase[0] >= 1
    requires 1 <= lno < 16 && 0 <= off < 16
    modifies mtfa, mtfbase
    ensures uc == y[16 * lno + off]
    ensures Open(mtfa[..], mtfbase[..], y, Moved(y, 16 * lno + off), lno)
  {
    hide *;
    ghost var a, b := mtfa[..], mtfbase[..];
    SpellsSizes(a, b, y);
    SliceEntry(a, b, y, lno, off);
    var pp := mtfbase[lno] + off;
    uc := mtfa[pp];
    ShiftUpStart(a, b[lno], off);
    while pp > mtfbase[lno]
      invariant b[lno] <= pp <= b[lno] + off && ShiftedUp(a, mtfa[..], b[lno], pp - b[lno], off)
      invariant mtfbase[..] == b
    {
      ShiftUpStep(a, mtfa[..], b[lno], pp - b[lno], off);
      mtfa[pp] := mtfa[pp - 1];
      pp := pp - 1;
    }
    OpenStart(a, mtfa[..], b, y, lno, off);
    mtfbase[lno] := mtfbase[lno] + 1;
  }

  lemma SpellsSizes(a: seq<int>, base: seq<int>, y: seq<int>)
    requires Spells(a, base, y)
    ensures |a| == MTFA_SIZE && |base| == 16 && |y| == 256 && base[0] >= 0
  {
  }

  /** Moves an entry of a later slice to the front. */
  method MoveFromSlice(mtfa: array<int>, mtfbase: array<int>, nn: int, ghost y: seq<int>) returns (uc: int)
    requires mtfa != mtfbase && Spells(mtfa[..], mtfbase[..], y) && mtfbase[0] >= 1
    requires MTFL_SIZE <= nn < 256
    modifies mtfa, mtfbase
    ensures uc == y[nn] && Spells(mtfa[..], mtfbase[..], Moved(y, nn))
  {
    hide *;
    var lno, off := SliceOf(nn);
    ghost var l := lno;
    SpellsSizes(mtfa[..], mtfbase[..], y);
    ghost var z := Moved(y, nn);
    MovedSlices(y, l, off, 0);
    uc := OpenUp(mtfa, mtfbase, lno, off, y);
    while lno > 0
      invariant 0 <= lno <= l && Open(mtfa[..], mtfbase[..], y, z, lno)
    {
      ghost var a, b := mtfa[..], mtfbase[..];
      OpenBounds(a, b, y, z, lno);
      MovedSeam(y, l, off, lno);
      OpenStep(a, b, y, z, lno);
      mtfbase[lno] := mtfbase[lno] - 1;
      mtfa[mtfbase[lno]] := mtfa[mtfbase[lno - 1] + MTFL_SIZE - 1];
      lno := lno - 1;
    }
    OpenBounds(mtfa[..], mtfbase[..], y, z, 0);
    OpenDone(mtfa[..], mtfbase[..], y, z);
    mtfbase[0] := mtfbase[0] - 1;
    mtfa[mtfbase[0]] := uc;
  }

  method SliceOf(nn: int) returns (lno: int, off: int)
    requires MTFL_SIZE <= nn < 256
    ensures nn == 16 * lno + off && 1 <= lno < 16 && 0 <= off < 16 && MTFL_SIZE == 16
  {
    lno := nn / MTFL_SIZE;
    off := nn % MTFL_SIZE;
  }

  // Moving all slices back up once the first has reached the bottom.

  /** Entries n.. of the list are in their final cells; the earlier ones still are in their slices. */
  ghost predicate Rebuilding(a: seq<int>, base: seq<int>, y: seq<int>, n: int) {
    && |a| == MTFA_SIZE && |y| == 256 && |base| == 16 && 0 <= n <= 256
    && a[3840 + n..] == y[n..]
    && (forall k :: 0 <= k < 16 ==> 0 <= base[k] <= 3840 + 16 * k)
    && (forall k, m :: 0 <= k < 16 && m == k + 1 < 16 ==> base[k] + 16 <= base[m])
    && (forall k :: 0 <= k < 16 && 16 * k < n ==> Left(a, base[k], y, k, n))
  }

  /** The entries of slice k below n. */
  ghost predicate Left(a: seq<int>, at: int, y: seq<int>, k: int, n: int) {
    && 0 <= at && at + 16 <= |a| && |y| == 256 && 0 <= k < 16 && 16 * k <= n
    && var w := if n - 16 * k < 16 then n - 16 * k else 16;
      a[at..at + w] == y[16 * k..16 * k + w]
  }

  lemma RebuildStart(a: seq<int>, base: seq<int>, y: seq<int>)
    requires Spells(a, base, y)
    ensures Rebuilding(a, base, y, 256)
  {
    forall k | 0 <= k < 16 ensures 0 <= base[k] <= 3840 + 16 * k && Left(a, base[k], y, k, 256) {
      BaseLow(base, k);
      assert SliceHolds(a, base[k], y, k);
    }
  }

  lemma RebuildStep(a: seq<int>, base: seq<int>, y: seq<int>, ii: int, jj: int)
    requires 0 <= ii < 16 && 0 <= jj < 16 && Rebuilding(a, base, y, 16 * ii + jj + 1)
    ensures 0 <= base[ii] && base[ii] + jj < |a|
    ensures Rebuilding(a[3840 + 16 * ii + jj := a[base[ii] + jj]], base, y, 16 * ii + jj)
  {
    var n := 16 * ii + jj;
    assert Left(a, base[ii], y, ii, n + 1);
    assert a[base[ii]..base[ii] + jj + 1][jj] == y[16 * ii..16 * ii + jj + 1][jj];
    var a' := a[3840 + n := a[base[ii] + jj]];
    assert a'[3840 + n..] == [y[n]] + a[3840 + n + 1..];
    assert y[n..] == [y[n]] + y[n + 1..];
    hide Left;
    forall k | 0 <= k < 16 && 16 * k < n ensures Left(a', base[k], y, k, n) {
      LeftNext(a, a', base[k], y, k, n);
    }
  }

  lemma LeftNext(a: seq<int>, a': seq<int>, at: int, y: seq<int>, k: int, n: int)
    requires 0 <= k < 16 && 16 * k < n < 256 && |a| == |a'| == MTFA_SIZE && at <= 3840 + 16 * k
    requires Left(a, at, y, k, n + 1) && forall i :: 0 <= i < |a| && i != 3840 + n ==> a'[i] == a[i]
    ensures Left(a', at, y, k, n)
  {
    var w, v := if n - 16 * k < 16 then n - 16 * k else 16, if n + 1 - 16 * k < 16 then n + 1 - 16 * k else 16;
    SameSlice(a, a', at, at + w);
    ShorterSlice(a, at, w, v);
    ShorterSlice(y, 16 * k, w, v);
  }

  lemma SameSlice(a: seq<int>, a': seq<int>, i: int, j: int)
    requires 0 <= i <= j <= |a| == |a'| && forall k :: i <= k < j ==> a'[k] == a[k]
    ensures a'[i..j] == a[i..j]
  {
  }

  lemma ShorterSlice(a: seq<int>, i: int, w: int, v: int)
    requires 0 <= i && 0 <= w <= v && i + v <= |a|
    ensures a[i..i + w] == a[i..i + v][..w]
  {
  }

  /** Once slice ii is in its final cells it may be said to be there. */
  lemma RebuildTurn(a: seq<int>, base: seq<int>, y: seq<int>, ii: int)
    requires 0 <= ii < 16 && Rebuilding(a, base, y, 16 * ii)
    requires forall k :: ii < k < 16 ==> base[k] == 3840 + 16 * k
    ensures Rebuilding(a, base[ii := 3840 + 16 * ii], y, 16 * ii)
  {
  }

  lemma RebuildDone(a: seq<int>, base: seq<int>, y: seq<int>)
    requires Rebuilding(a, base, y, 0) && forall k :: 0 <= k < 16 ==> base[k] == 3840 + 16 * k
    ensures Spells(a, base, y) && base[0] >= 1
  {
    forall k | 0 <= k < 16 ensures SliceHolds(a, base[k], y, k) {
      assert a[base[k]..base[k] + 16] == a[3840 + 0..][16 * k..16 * k + 16];
    }
  }

  /** Copies the slices, last entry first, to the top of the array. */
  method Rebuild(mtfa: array<int>, mtfbase: array<int>, ghost y: seq<int>)
    requires mtfa != mtfbase && Spells(mtfa[..], mtfbase[..], y)
    modifies mtfa, mtfbase
    ensures Spells(mtfa[..], mtfbase[..], y) && mtfbase[0] >= 1
  {
    hide Spells, Rebuilding;
    RebuildStart(mtfa[..], mtfbase[..], y);
    RebuildSizes(mtfa[..], mtfbase[..], y, 256);
    var kk := MTFA_SIZE - 1;
    var ii := 256 / MTFL_SIZE - 1;
    while ii >= 0
      invariant -1 <= ii < 16 && kk == 3840 + 16 * ii + 15
      invariant Rebuilding(mtfa[..], mtfbase[..], y, 16 * (ii + 1))
      invariant forall k :: ii < k < 16 ==> mtfbase[k] == 3840 + 16 * k
    {
      var jj := MTFL_SIZE - 1;
      while jj >= 0
        invariant -1 <= jj < 16 && kk == 3840 + 16 * ii + jj
        invariant Rebuilding(mtfa[..], mtfbase[..], y, 16 * ii + (jj + 1))
        invariant forall k :: ii < k < 16 ==> mtfbase[k] == 3840 + 16 * k
      {
        RebuildStep(mtfa[..], mtfbase[..], y, ii, jj);
        mtfa[kk] := mtfa[mtfbase[ii] + jj];
        kk := kk - 1;
        jj := jj - 1;
      }
      RebuildTurn(mtfa[..], mtfbase[..], y, ii);
      mtfbase[ii] := kk + 1;
      ii := ii - 1;
    }
    RebuildDone(mtfa[..], mtfbase[..], y);
  }

  lemma RebuildSizes(a: seq<int>, base: seq<int>, y: seq<int>, n: int)
    requires Rebuilding(a, base, y, n)
    ensures |a| == MTFA_SIZE && |base| == 16
  {
  }

  /** Sets up the list 0..255. */
  method Init(mtfa: array<int>, mtfbase: array<int>)
    requires mtfa != mtfbase && mtfa.Length == MTFA_SIZE && mtfbase.Length == 16
    modifies mtfa, mtfbase
    ensures Spells(mtfa[..], mtfbase[..], Identity(256)) && mtfbase[0] >= 1
  {
    var kk := MTFA_SIZE - 1;
    var ii := 256 / MTFL_SIZE - 1;
    while ii >= 0
      invariant -1 <= ii < 16 && kk == 3840 + 16 * ii + 15
      invariant forall n :: 3840 + 16 * (ii + 1) <= n < 4096 ==> mtfa[n] == n - 3840
      invariant forall k :: ii < k < 16 ==> mtfbase[k] == 3840 + 16 * k
    {
      var jj := MTFL_SIZE - 1;
      while jj >= 0
        invariant -1 <= jj < 16 && kk == 3840 + 16 * ii + jj
        invariant forall n :: 3840 + 16 * ii + jj + 1 <= n < 4096 ==> mtfa[n] == n - 3840
        invariant forall k :: ii < k < 16 ==> mtfbase[k] == 3840 + 16 * k
      {
        mtfa[kk] := ii * MTFL_SIZE + jj;
        kk := kk - 1;
        jj := jj - 1;
      }
      mtfbase[ii] := kk + 1;
      ii := ii - 1;
    }
    InitSpells(mtfa[..], mtfbase[..]);
  }

  lemma InitSpells(a: seq<int>, base: seq<int>)
    requires |a| == MTFA_SIZE && |base| == 16 && forall k :: 0 <= k < 16 ==> base[k] == 3840 + 16 * k
    requires forall n :: 3840 <= n < 4096 ==> a[n] == n - 3840
    ensures Spells(a, base, Identity(256)) && base[0] >= 1
  {
    forall k | 0 <= k < 16 ensures SliceHolds(a, base[k], Identity(256), k) {
      assert a[base[k]..base[k] + 16] == Identity(256)[16 * k..16 * k + 16];
    }
  }

  /** One access: the list becomes the list with its entry nn moved to the front. */
  method Access(mtfa: array<int>, mtfbase: array<int>, nn: int, ghost y: seq<int>) returns (uc: int)
    requires mtfa != mtfbase && Spells(mtfa[..], mtfbase[..], y) && mtfbase[0] >= 1 && 0 <= nn < 256
    modifies mtfa, mtfbase
    ensures uc == y[nn] && Spells(mtfa[..], mtfbase[..], Moved(y, nn)) && mtfbase[0] >= 1
  {
    hide Spells;
    SpellsSizes(mtfa[..], mtfbase[..], y);
    if nn < MTFL_SIZE {
      ghost var b := mtfbase[..];
      uc := MoveInFirst(mtfa, mtfbase, nn, y);
      assert mtfbase[..] == b;
    } else {
      uc := MoveFromSlice(mtfa, mtfbase, nn, y);
      SpellsSizes(mtfa[..], mtfbase[..], Moved(y, nn));
      if mtfbase[0] == 0 { Rebuild(mtfa, mtfbase, Moved(y, nn)); }
    }
  }
}
