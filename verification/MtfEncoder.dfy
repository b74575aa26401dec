/** The column of a sorted block as move-to-front symbols, written over the sorted order.

    The order and the symbols share storage: entry k of the order fills cells 2k and 2k + 1,
    symbol k fills cell k.
 */
module MtfEncoder {
  import opened MoveToFront
  import Rotations
  import opened SymbolMaps

  /** Entry k of the order, from its two halves. */
  function Entry(cells: seq<int>, k: int): int
    requires 0 <= k && 2 * k + 1 < |cells|
  {
    cells[2 * k] + 65536 * cells[2 * k + 1]
  }

  /** The shared storage still holds the order from entry i on. */
  ghost predicate Holds(cells: seq<int>, p: seq<int>, i: int, n: int) {
    0 <= i <= n <= |p| && 2 * n <= |cells| && forall k :: i <= k < n ==> Entry(cells, k) == p[k]
  }

  lemma HoldsWrite(cells: seq<int>, p: seq<int>, i: int, n: int, wr: int, v: int)
    requires Holds(cells, p, i, n) && 0 <= wr < 2 * i && wr < |cells|
    ensures Holds(cells[wr := v], p, i, n)
  {
  }

  // Finding a symbol in the list and moving it to the front, in one pass.

  /** Entries up to q have moved up by one; old entry q is held aside. */
  ghost predicate Shifted(y: seq<int>, z: seq<int>, q: int) {
    && |z| == |y| && 1 <= q < |y|
    && (forall k :: 1 <= k <= q ==> z[k] == y[k - 1])
    && (forall k :: q < k < |y| ==> z[k] == y[k])
  }

  lemma ShiftedMoved(y: seq<int>, z: seq<int>, q: int, m: int)
    requires Shifted(y, z, q) && q < m <= |y| && y[q] !in y[..q]
    ensures z[0 := y[q]][..m] == Moved(y[..m], q) && Rank(y[..m], y[q]) == q
  {
    RankAt(y[..m], q);
  }

  lemma {:induction false} RankAt(y: seq<int>, q: int)
    requires 0 <= q < |y| && y[q] !in y[..q]
    ensures Rank(y, y[q]) == q
  {
    if q > 0 {
      assert y[0] in y[..q];
      assert y[1..][..q - 1] == y[1..q];
      RankAt(y[1..], q - 1);
    }
  }

  /** Moves c, which is in the list but not at its front, to the front. */
  method MoveFront(yy: array<int>, c: int, ghost m: int) returns (j: int)
    requires 1 < m <= yy.Length && c in yy[..m] && yy[0] != c
    modifies yy
    ensures j == Rank(old(yy[..m]), c) && 1 <= j < m && yy[..m] == Moved(old(yy[..m]), j)
  {
    ghost var y := yy[..];
    assert y[..m] == yy[..m];
    ghost var at := Rank(y[..m], c);
    var rtmp := yy[1];
    yy[1] := yy[0];
    j := 1;
    while c != rtmp
      invariant 1 <= j <= at && rtmp == y[j] && Shifted(y, yy[..], j) && c !in y[..j]
      decreases at - j
    {
      j := j + 1;
      rtmp, yy[j] := yy[j], rtmp;
    }
    ghost var z := yy[..];
    ShiftedMoved(y, z, j, m);
    yy[0] := rtmp;
    assert yy[..] == z[0 := rtmp];
    assert yy[..m] == z[0 := rtmp][..m];
  }

  // Writing runs.

  /** The first digit of a run of z + 1, and what is left. */
  lemma DigitsStep(z: nat)
    ensures var v := if z % 2 == 1 then RUNB else RUNA;
      Digits(z + 1) == if z < 2 then [v] else [v] + Digits((z - 2) / 2 + 1)
  {
    hide Digits;
    DigitsNone();
    HalfStep(z);
    DigitsOnce(z + 1);
  }

  lemma DigitsNone()
    ensures Digits(0) == []
  {
  }

  lemma HalfStep(z: nat)
    ensures z >= 2 ==> (z - 2) / 2 + 1 == if z % 2 == 1 then (z + 1 - 2) / 2 else (z + 1 - 1) / 2
    ensures z < 2 ==> (if z % 2 == 1 then (z + 1 - 2) / 2 else (z + 1 - 1) / 2) == 0
    ensures z % 2 == 1 <==> (z + 1) % 2 == 0
  {
  }

  lemma DigitsOnce(n: nat)
    requires n > 0
    ensures Digits(n) == if n % 2 == 1 then [RUNA] + Digits((n - 1) / 2) else [RUNB] + Digits((n - 2) / 2)
  {
  }

  /** Symbols are written one after another. */
  ghost predicate Wrote(c: seq<int>, c': seq<int>, wr: int, vs: seq<int>) {
    0 <= wr && wr + |vs| <= |c| == |c'| && c'[..wr + |vs|] == c[..wr] + vs
  }

  lemma WroteNothing(c: seq<int>, wr: nat)
    requires wr <= |c|
    ensures Wrote(c, c, wr, [])
  {
    assert c[..wr] + [] == c[..wr];
  }

  lemma WroteNext(c: seq<int>, c': seq<int>, wr: int, vs: seq<int>, v: int)
    requires Wrote(c, c', wr, vs) && wr + |vs| < |c|
    ensures Wrote(c, c'[wr + |vs| := v], wr, vs + [v])
  {
  }

  /** Writes the digits of a run. */
  method WriteRun(cells: array<int>, wr: int, run: int, ghost p: seq<int>, ghost i: int, ghost n: int)
    returns (wr': int)
    requires run > 0 && 0 <= wr && wr + run <= i && Holds(cells[..], p, i, n)
    modifies cells
    ensures wr' == wr + |Digits(run)| && wr' <= wr + run && Holds(cells[..], p, i, n)
    ensures Wrote(old(cells[..]), cells[..], wr, Digits(run))
  {
    hide Digits, Wrote, Holds;
    HoldsRoom(cells[..], p, i, n);
    var zPend := run - 1;
    wr' := wr;
    ghost var c0 := cells[..];
    ghost var done: seq<int> := [];
    WroteNothing(c0, wr);
    assert [] + Digits(run) == Digits(run);
    while true
      invariant zPend >= 0 && wr' == wr + |done| && done + Digits(zPend + 1) == Digits(run)
      invariant wr' + zPend + 1 <= wr + run && Holds(cells[..], p, i, n)
      invariant Wrote(c0, cells[..], wr, done)
      decreases zPend
    {
      ghost var c := cells[..];
      ghost var v := if zPend % 2 == 1 then RUNB else RUNA;
      HoldsWrite(c, p, i, n, wr', v);
      WroteNext(c0, c, wr, done, v);
      DigitsStep(zPend);
      if zPend % 2 == 1 { cells[wr'] := RUNB; } else { cells[wr'] := RUNA; }
      assert cells[..] == c[wr' := v];
      done := done + [v];
      wr' := wr' + 1;
      if zPend < 2 { break; }
      zPend := (zPend - 2) / 2;
      assert done + Digits(zPend + 1) == Digits(run);
    }
    assert done == Digits(run);
  }

  lemma HoldsRoom(cells: seq<int>, p: seq<int>, i: int, n: int)
    requires Holds(cells, p, i, n)
    ensures 0 <= i <= n && 2 * n <= |cells|
  {
  }

  // The whole column.

  /** The symbols of a column: the numbers of its byte values among those in use. */
  function Numbers(l: seq<int>, toSeq: seq<int>): seq<int>
    requires forall i :: 0 <= i < |l| ==> 0 <= l[i] < |toSeq|
  {
    seq(|l|, i requires 0 <= i < |l| => toSeq[l[i]])
  }

  /** What has been done for the first i symbols. */
  ghost predicate Encoding(c0: seq<int>, cells: seq<int>, y: seq<int>, yy: seq<int>, s: seq<int>, i: int,
                           wr: int, zPend: int) {
    && 0 <= i <= |s| && Listed(s[..i], y) && |y| <= |yy|
    && var ks := Ranks(y, s[..i]);
      && Wrote(c0, cells, 0, Emitted(ks)) && wr == |Emitted(ks)| && zPend == Pending(ks) && wr + zPend <= i
      && yy[..|y|] == After(y, ks)
  }

  lemma EncodingStart(c0: seq<int>, y: seq<int>, yy: seq<int>, s: seq<int>)
    requires |y| <= |yy| && yy[..|y|] == y
    ensures Encoding(c0, c0, y, yy, s, 0, 0, 0)
  {
    assert s[..0] == [];
  }

  /** A symbol at the front of the list lengthens the pending run. */
  lemma EncodingFront(c0: seq<int>, cells: seq<int>, y: seq<int>, yy: seq<int>, s: seq<int>, i: int,
                      wr: int, zPend: int)
    requires Encoding(c0, cells, y, yy, s, i, wr, zPend) && i < |s| && y != [] && yy[0] == s[i]
    ensures Encoding(c0, cells, y, yy, s, i + 1, wr, zPend + 1)
  {
    var ks := Ranks(y, s[..i]);
    assert s[..i + 1] == s[..i] + [s[i]];
    assert After(y, ks)[0] == s[i];
    AfterKeeps(y, ks, s[i]);
    RanksNext(y, s[..i], s[i]);
    SymbolsNext(y, ks, 0);
    MovedNone(After(y, ks));
    assert (ks + [0])[..|ks|] == ks;
  }

  lemma WroteMore(c0: seq<int>, c1: seq<int>, c2: seq<int>, vs: seq<int>, ws: seq<int>)
    requires Wrote(c0, c1, 0, vs) && Wrote(c1, c2, |vs|, ws)
    ensures Wrote(c0, c2, 0, vs + ws)
  {
    assert c2[..|vs| + |ws|] == c1[..|vs|] + ws;
  }

  /** Any other symbol ends the run and is coded by its rank. */
  lemma EncodingBack(c0: seq<int>, c: seq<int>, c1: seq<int>, y: seq<int>, yy: seq<int>, yy': seq<int>, s: seq<int>,
                     i: int, wr: int, zPend: int, j: int)
    requires Encoding(c0, c, y, yy, s, i, wr, zPend) && i < |s| && s[i] in y && |yy'| == |yy|
    requires Wrote(c, c1, wr, Digits(zPend)) && |Digits(zPend)| <= zPend && wr + |Digits(zPend)| < |c0|
    requires s[i] in yy[..|y|] && j == Rank(yy[..|y|], s[i]) && j >= 1 && yy'[..|y|] == Moved(yy[..|y|], j)
    ensures var at := wr + |Digits(zPend)|; Encoding(c0, c1[at := j + 1], y, yy', s, i + 1, at + 1, 0)
  {
    hide After, Below, Digits, Emitted, Listed, Moved, Pending, Rank, Ranks, Symbols, Wrote;
    var ks := Ranks(y, s[..i]);
    assert s[..i + 1] == s[..i] + [s[i]];
    RanksNext(y, s[..i], s[i]);
    SymbolsNext(y, ks, j);
    EmittedEntry(ks, j);
    assert (ks + [j])[..|ks|] == ks;
    WroteMore(c0, c, c1, Emitted(ks), Digits(zPend));
    WroteNext(c0, c1, 0, Emitted(ks) + Digits(zPend), j + 1);
    PendingEntry(ks, j);
  }

  lemma PendingEntry(ks: seq<nat>, k: nat)
    requires k > 0
    ensures Pending(ks + [k]) == 0
  {
  }

  /** Ending the block. */
  lemma EncodingDone(c0: seq<int>, c: seq<int>, c1: seq<int>, y: seq<int>, yy: seq<int>, s: seq<int>, wr: int,
                     zPend: int)
    requires Encoding(c0, c, y, yy, s, |s|, wr, zPend)
    requires Wrote(c, c1, wr, Digits(zPend)) && wr + |Digits(zPend)| < |c0|
    ensures Listed(s, y)
    ensures var at := wr + |Digits(zPend)|;
      Wrote(c0, c1[at := |y| + 1], 0, Coded(Ranks(y, s), |y|)) && at + 1 == |Coded(Ranks(y, s), |y|)|
  {
    assert s[..|s|] == s;
    var ks := Ranks(y, s);
    WroteMore(c0, c, c1, Emitted(ks), Digits(zPend));
    WroteNext(c0, c1, 0, Emitted(ks) + Digits(zPend), |y| + 1);
  }

  lemma EncodingBounds(c0: seq<int>, c: seq<int>, y: seq<int>, yy: seq<int>, s: seq<int>, i: int, wr: int, zPend: int)
    requires Encoding(c0, c, y, yy, s, i, wr, zPend)
    ensures 0 <= i <= |s| && 0 <= wr && 0 <= zPend && wr + zPend <= i && |y| <= |yy| && |c| == |c0|
    ensures forall x :: x in y <==> x in yy[..|y|]
  {
    var ks := Ranks(y, s[..i]);
    forall x ensures x in y <==> x in yy[..|y|] { AfterKeeps(y, ks, x); }
  }

  /** Ends a pending run, if any. */
  method EndRun(cells: array<int>, wr: int, zPend: int, ghost p: seq<int>, ghost i: int, ghost n: int)
    returns (wr': int)
    requires 0 <= zPend && 0 <= wr && wr + zPend <= i && Holds(cells[..], p, i, n)
    modifies cells
    ensures wr' == wr + |Digits(zPend)| && |Digits(zPend)| <= zPend && Holds(cells[..], p, i, n)
    ensures Wrote(old(cells[..]), cells[..], wr, Digits(zPend))
  {
    if zPend > 0 {
      wr' := WriteRun(cells, wr, zPend, p, i, n);
    } else {
      wr' := wr;
      DigitsNone();
    }
  }

  /** Takes the next symbol of the column. */
  method EncodeSymbol(cells: array<int>, yy: array<int>, ll: int, wr: int, zPend: int,
                      ghost c0: seq<int>, ghost y: seq<int>, ghost s: seq<int>, ghost i: int, ghost p: seq<int>,
                      ghost n: int)
    returns (wr': int, zPend': int)
    requires cells != yy && |s| == n && 0 <= i < n && s[i] == ll && ll in y && 1 <= |y| <= yy.Length
    requires Encoding(c0, cells[..], y, yy[..], s, i, wr, zPend) && Holds(cells[..], p, i, n)
    modifies cells, yy
    ensures Encoding(c0, cells[..], y, yy[..], s, i + 1, wr', zPend') && Holds(cells[..], p, i + 1, n)
  {
    hide *;
    ghost var c, f := cells[..], yy[..];
    EncodingBounds(c0, c, y, f, s, i, wr, zPend);
    HoldsRoom(c, p, i, n);
    if yy[0] == ll {
      wr', zPend' := wr, zPend + 1;
      EncodingFront(c0, c, y, f, s, i, wr, zPend);
      HoldsLess(c, p, i, n);
    } else {
      wr' := EndRun(cells, wr, zPend, p, i, n);
      zPend' := 0;
      ghost var c1 := cells[..];
      assert yy[..] == f;
      InLonger(f[..|y|], ll);
      var j := MoveFront(yy, ll, |y|);
      assert cells[..] == c1;
      HoldsLess(c1, p, i, n);
      HoldsWrite(c1, p, i + 1, n, wr', j + 1);
      EncodingBack(c0, c, c1, y, f, yy[..], s, i, wr, zPend, j);
      cells[wr'] := j + 1;
      wr' := wr' + 1;
    }
  }

  lemma HoldsLess(cells: seq<int>, p: seq<int>, i: int, n: int)
    requires Holds(cells, p, i, n) && i < n
    ensures Holds(cells, p, i + 1, n)
  {
  }

  lemma InLonger(y: seq<int>, c: int)
    requires c in y && y[0] != c
    ensures |y| > 1
  {
  }

  /** Turns the sorted order into move-to-front symbols, over the order itself. */
  method GenerateMTFValues(cells: array<int>, block: array<int>, nblock: int, unseqToSeq: array<int>, yy: array<int>,
                           nInUse: int, ghost p: seq<int>, ghost s: seq<int>)
    returns (nMTF: int)
    requires cells != yy && cells != block && cells != unseqToSeq && yy != block && yy != unseqToSeq
    requires 1 <= nblock <= block.Length && nblock <= |p| && yy.Length == unseqToSeq.Length == 256 && 1 <= nInUse <= 256
    requires Holds(cells[..], p, 0, nblock) && forall k :: 0 <= k < nblock ==> 0 <= p[k] < nblock
    requires forall k :: 0 <= k < nblock ==> 0 <= block[k] < 256
    requires s == Numbers(Rotations.LastColumn(block[..nblock], p), unseqToSeq[..])
    requires forall k :: 0 <= k < nblock ==> 0 <= s[k] < nInUse
    modifies cells, yy
    ensures Listed(s, Identity(nInUse)) && 1 <= nMTF <= nblock + 1
    ensures cells[..nMTF] == Coded(Ranks(Identity(nInUse), s), nInUse)
  {
    hide Encoding, Holds, Wrote, Coded, Ranks, Emitted, Digits, Pending, Identity, Listed;
    ghost var y := Identity(nInUse);
    ghost var c0 := cells[..];
    IdentityLists(nInUse, s);
    SetIdentity(yy, nInUse);
    EncodingStart(c0, y, yy[..], s);
    var wr, zPend := 0, 0;
    HoldsRoom(cells[..], p, 0, nblock);
    for i := 0 to nblock
      invariant Encoding(c0, cells[..], y, yy[..], s, i, wr, zPend) && Holds(cells[..], p, i, nblock)
      invariant cells.Length == |c0|
    {
      HoldsEntry(cells[..], p, i, nblock);
      var j := cells[2 * i] + 65536 * cells[2 * i + 1] - 1;
      if j < 0 { j := j + nblock; }
      var ll := unseqToSeq[block[j]];
      assert ll == s[i];
      wr, zPend := EncodeSymbol(cells, yy, ll, wr, zPend, c0, y, s, i, p, nblock);
    }
    nMTF := EndBlock(cells, wr, zPend, nInUse, c0, y, yy[..], s, p, nblock);
  }

  /** Flushes the run and writes the end symbol. */
  method EndBlock(cells: array<int>, wr: int, zPend: int, nInUse: int, ghost c0: seq<int>, ghost y: seq<int>,
                  ghost yy: seq<int>,
                  ghost s: seq<int>, ghost p: seq<int>, ghost n: int)
    returns (nMTF: int)
    requires Encoding(c0, cells[..], y, yy, s, n, wr, zPend) && Holds(cells[..], p, n, n) && |s| == n >= 1
    requires nInUse == |y| && Listed(s, y)
    modifies cells
    ensures 1 <= nMTF <= n + 1 && nMTF <= cells.Length && cells[..nMTF] == Coded(Ranks(y, s), |y|)
  {
    hide *;
    ghost var c := cells[..];
    EncodingBounds(c0, c, y, yy, s, n, wr, zPend);
    HoldsRoom(c, p, n, n);
    nMTF := EndRun(cells, wr, zPend, p, n, n);
    ghost var c1 := cells[..];
    EncodingDone(c0, c, c1, y, yy, s, wr, zPend);
    cells[nMTF] := nInUse + 1;
    nMTF := nMTF + 1;
    WroteWhole(c0, cells[..], Coded(Ranks(y, s), |y|));
  }

  lemma WroteWhole(c0: seq<int>, c: seq<int>, vs: seq<int>)
    requires Wrote(c0, c, 0, vs)
    ensures |vs| <= |c| && c[..|vs|] == vs
  {
  }

  lemma IdentityLists(m: nat, s: seq<int>)
    requires forall k :: 0 <= k < |s| ==> 0 <= s[k] < m
    ensures |Identity(m)| == m && Listed(s, Identity(m)) && forall c :: c in Identity(m) <==> 0 <= c < m
  {
    forall c | 0 <= c < m ensures c in Identity(m) { assert Identity(m)[c] == c; }
  }

  lemma HoldsEntry(cells: seq<int>, p: seq<int>, i: int, n: int)
    requires Holds(cells, p, i, n) && i < n
    ensures 2 * i + 1 < |cells| && cells[2 * i] + 65536 * cells[2 * i + 1] == p[i]
  {
    assert Entry(cells, i) == p[i];
  }

  method SetIdentity(yy: array<int>, m: int)
    requires 0 <= m <= yy.Length
    modifies yy
    ensures yy[..m] == Identity(m)
  {
    for i := 0 to m
      invariant forall k :: 0 <= k < i ==> yy[k] == k
    {
      yy[i] := i;
    }
  }
}
