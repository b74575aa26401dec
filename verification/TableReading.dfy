/** What the decompressor makes of any bits at the places of the mapping table, the selectors and the
    code lengths.
 */
module TableReading {
  import opened Bits
  import opened BlockDecoding
  import opened CanonicalCodes
  import opened CodeTables
  import opened Coroutine
  import opened Decompressor
  import opened HeaderReading
  import opened MoveToFront
  import opened ReadableFormat
  import opened StreamFormat
  import opened SymbolDecoding
  import opened SymbolMaps
  import opened Words

  // The mapping table.

  /** The bits of a group that is listed, once some of them have been read. */
  lemma {:induction false} GroupRead(s: State, g: seq<bool>, x: seq<bool>)
    requires s.at == Mapping2 && |s.inUse16| == 16 && 0 <= s.i < 16 && 0 <= s.j < 16 && |s.inUse| == 16 * s.i + s.j
    requires |g| == 16 - s.j
    ensures var s1 := s.(inUse := s.inUse + g, j := 16);
      && Waiting(s) && Moves(NextMap(s1, s.i + 1)) && Drive(s, g + x) == Onward(NextMap(s1, s.i + 1), x)
    decreases |g|
  {
    hide Drive, NextMap, Advance;
    var b := g[0];
    var s1 := s.(inUse := s.inUse + [b], j := s.j + 1);
    GroupStep(s, b);
    NextMapMoves(s.(inUse := s.inUse + g, j := 16), s.i + 1);
    assert g == [b] + g[1..];
    if s.j == 15 {
      assert g == [b];
      StepBit(s, b, x);
    } else {
      BitTo(s, b, g[1..], s1, x);
      GroupRead(s1, g[1..], x);
      assert s.inUse + [b] + g[1..] == s.inUse + g;
    }
  }

  lemma GroupStep(s: State, b: bool)
    requires s.at == Mapping2 && |s.inUse16| == 16 && 0 <= s.i < 16 && 0 <= s.j < 16 && |s.inUse| == 16 * s.i + s.j
    ensures var s1 := s.(inUse := s.inUse + [b], j := s.j + 1);
      && Waiting(s) && Need(s) == 1
      && Advance(s, if b then 1 else 0) == if s.j < 15 then Continue(s1) else NextMap(s1, s.i + 1)
  {
    hide NextMap;
  }

  /** How many bits the groups from the i-th on take. */
  function ListedSize(groups: seq<bool>, i: int): (n: nat)
    requires 0 <= i <= 16 && |groups| == 16
    decreases 16 - i
  {
    if i == 16 then 0 else (if groups[i] then 16 else 0) + ListedSize(groups, i + 1)
  }

  /** The flags of the groups from the i-th on, taken from bits. */
  function Flags(groups: seq<bool>, w: seq<bool>, i: int): (f: seq<bool>)
    requires 0 <= i <= 16 && |groups| == 16 && |w| >= ListedSize(groups, i)
    ensures |f| == 16 * (16 - i)
    decreases 16 - i
  {
    if i == 16 then []
    else if groups[i] then w[..16] + Flags(groups, w[16..], i + 1)
    else seq(16, k => false) + Flags(groups, w, i + 1)
  }

  lemma FlagsParts(groups: seq<bool>, w: seq<bool>, i: int)
    requires 0 <= i < 16 && |groups| == 16 && |w| >= ListedSize(groups, i)
    ensures groups[i] ==> |w| >= 16 && |w[16..]| >= ListedSize(groups, i + 1)
    ensures groups[i] ==> Flags(groups, w, i) == w[..16] + Flags(groups, w[16..], i + 1)
    ensures groups[i] ==> w[ListedSize(groups, i)..] == w[16..][ListedSize(groups, i + 1)..]
    ensures !groups[i] ==> ListedSize(groups, i) == ListedSize(groups, i + 1)
    ensures !groups[i] ==> Flags(groups, w, i) == seq(16, k => false) + Flags(groups, w, i + 1)
  {
  }

  lemma NoFlags(groups: seq<bool>, w: seq<bool>)
    requires |groups| == 16
    ensures ListedSize(groups, 16) == 0 && Flags(groups, w, 16) == []
  {
  }

  /** A group that is listed. */
  lemma ListedRead(s: State, i: int, w: seq<bool>)
    requires 0 <= i < 16 && |s.inUse16| == 16 && |s.inUse| == 16 * i && s.inUse16[i] && |w| >= 16
    ensures var s1 := s.(at := Mapping2, i := i, inUse := s.inUse + w[..16], j := 16);
      && Moves(NextMap(s, i)) && Moves(NextMap(s1, i + 1))
      && Onward(NextMap(s, i), w) == Onward(NextMap(s1, i + 1), w[16..])
  {
    hide Drive;
    var s1 := s.(at := Mapping2, i := i, j := 0);
    assert w == w[..16] + w[16..];
    GroupRead(s1, w[..16], w[16..]);
  }

  lemma UnlistedRead(s: State, i: int)
    requires 0 <= i < 16 && |s.inUse16| == 16 && |s.inUse| == 16 * i && !s.inUse16[i]
    ensures NextMap(s, i) == NextMap(s.(inUse := s.inUse + seq(16, k => false)), i + 1)
  {
  }

  /** The state with the table of bytes in use, and then a label or an error: none in use is refused. */
  lemma {:induction false} MapRead(s: State, i: int, w: seq<bool>)
    requires 0 <= i <= 16 && |s.inUse16| == 16 && |s.inUse| == 16 * i && |w| >= ListedSize(s.inUse16, i)
    ensures Moves(NextMap(s, i))
    ensures var inUse := s.inUse + Flags(s.inUse16, w, i); var s1 := WithMap(s, inUse);
      var r := Onward(NextMap(s, i), w);
      if Chars(inUse) != [] then Waiting(s1) && r == Drive(s1, w[ListedSize(s.inUse16, i)..])
      else r.Done? && r.code == DataError
    decreases 16 - i
  {
    hide Chars, Drive, Flags, ListedSize, NextMap, Onward, Waiting;
    NextMapMoves(s, i);
    if i == 16 {
      NoFlags(s.inUse16, w);
      assert s.inUse + [] == s.inUse && w[0..] == w;
      MapEnds(s, w);
    } else {
      FlagsParts(s.inUse16, w, i);
      if s.inUse16[i] {
        ListedRead(s, i, w);
        MapRead(s.(at := Mapping2, i := i, inUse := s.inUse + w[..16], j := 16), i + 1, w[16..]);
        assert s.inUse + w[..16] + Flags(s.inUse16, w[16..], i + 1) == s.inUse + Flags(s.inUse16, w, i);
      } else {
        var none := seq(16, k => false);
        UnlistedRead(s, i);
        MapRead(s.(inUse := s.inUse + none), i + 1, w);
        assert s.inUse + none + Flags(s.inUse16, w, i + 1) == s.inUse + Flags(s.inUse16, w, i);
      }
    }
  }

  lemma MapEnds(s: State, w: seq<bool>)
    requires |s.inUse16| == 16 && |s.inUse| == 256 && Moves(NextMap(s, 16))
    ensures var s1 := WithMap(s, s.inUse); var r := Onward(NextMap(s, 16), w);
      if Chars(s.inUse) != [] then Waiting(s1) && r == Drive(s1, w) else r.Done? && r.code == DataError
  {
    hide Chars, Drive;
  }

  lemma GroupSlices(inUse: seq<bool>, i: int)
    requires 0 <= i < 16 && |inUse| == 256
    ensures |inUse[16 * i..]| >= 16 && inUse[16 * i..16 * i + 16] == inUse[16 * i..][..16]
    ensures inUse[16 * (i + 1)..] == inUse[16 * i..][16..]
  {
  }

  lemma ListedParts(groups: seq<bool>, inUse: seq<bool>, i: int)
    requires 0 <= i < 16 && |groups| == 16 && |inUse| == 256
    ensures groups[i] ==> ListedBits(groups, inUse, i) == inUse[16 * i..16 * i + 16] + ListedBits(groups, inUse, i + 1)
    ensures !groups[i] ==> ListedBits(groups, inUse, i) == ListedBits(groups, inUse, i + 1)
  {
    assert [] + ListedBits(groups, inUse, i + 1) == ListedBits(groups, inUse, i + 1);
  }

  /** The first group of the flags read, and the others. */
  lemma FlagsFirst(groups: seq<bool>, w: seq<bool>, inUse: seq<bool>, i: int)
    requires 0 <= i < 16 && |groups| == 16 && |w| >= ListedSize(groups, i) && |inUse| == 256
    requires inUse[16 * i..] == Flags(groups, w, i)
    ensures groups[i] ==>
      && |w| >= 16 && |w[16..]| >= ListedSize(groups, i + 1) && inUse[16 * i..16 * i + 16] == w[..16]
      && inUse[16 * (i + 1)..] == Flags(groups, w[16..], i + 1)
      && w[..ListedSize(groups, i)] == w[..16] + w[16..][..ListedSize(groups, i + 1)]
    ensures !groups[i] ==>
      && ListedSize(groups, i) == ListedSize(groups, i + 1) && inUse[16 * (i + 1)..] == Flags(groups, w, i + 1)
      && forall c :: 16 * i <= c < 16 * i + 16 ==> !inUse[c]
  {
    hide Flags;
    FlagsParts(groups, w, i);
    GroupSlices(inUse, i);
    var f := inUse[16 * i..];
    if groups[i] {
      assert f[..16] == w[..16] && f[16..] == Flags(groups, w[16..], i + 1);
    } else {
      assert f[..16] == seq(16, k => false) && f[16..] == Flags(groups, w, i + 1);
      forall c | 16 * i <= c < 16 * i + 16 ensures !inUse[c] { assert inUse[c] == f[..16][c - 16 * i]; }
    }
  }

  /** The flags read are those listed. */
  lemma {:induction false} FlagsListed(groups: seq<bool>, w: seq<bool>, inUse: seq<bool>, i: int)
    requires 0 <= i <= 16 && |groups| == 16 && |w| >= ListedSize(groups, i) && |inUse| == 256
    requires inUse[16 * i..] == Flags(groups, w, i)
    ensures w[..ListedSize(groups, i)] == ListedBits(groups, inUse, i)
    ensures forall k, c :: i <= k < 16 && !groups[k] && 16 * k <= c < 16 * k + 16 ==> !inUse[c]
    decreases 16 - i
  {
    if i < 16 {
      hide Flags, ListedBits, ListedSize;
      FlagsFirst(groups, w, inUse, i);
      ListedParts(groups, inUse, i);
      FlagsListed(groups, if groups[i] then w[16..] else w, inUse, i + 1);
    }
  }

  /** Flags that are listed are read back. */
  lemma {:induction false} ListedFlags(groups: seq<bool>, inUse: seq<bool>, i: int, x: seq<bool>)
    requires 0 <= i <= 16 && |groups| == 16 && |inUse| == 256 && Unlisted(groups, inUse)
    ensures |ListedBits(groups, inUse, i)| == ListedSize(groups, i)
    ensures Flags(groups, ListedBits(groups, inUse, i) + x, i) == inUse[16 * i..]
    decreases 16 - i
  {
    if i < 16 {
      ListedFlags(groups, inUse, i + 1, x);
      var g, y := inUse[16 * i..16 * i + 16], ListedBits(groups, inUse, i + 1);
      assert inUse[16 * i..] == g + inUse[16 * (i + 1)..];
      if groups[i] {
        assert ListedBits(groups, inUse, i) == g + y;
        assert (g + y + x)[..16] == g && (g + y + x)[16..] == y + x;
      } else {
        assert ListedBits(groups, inUse, i) == y by { assert [] + y == y; }
        assert g == seq(16, k => false);
      }
    }
  }

  /** The whole mapping table. */
  lemma MappingRead(s: State, w: seq<bool>)
    requires s.at == Mapping1 && s.inUse16 == [] && |w| >= 16 && |w| >= 16 + ListedSize(w[..16], 0)
    ensures Waiting(s)
    ensures var h := w[..16]; var inUse := Flags(h, w[16..], 0); var r := Drive(s, w);
      if Chars(inUse) != []
      then Waiting(WithMap(s.(inUse16 := h), inUse)) &&
        r == Drive(WithMap(s.(inUse16 := h), inUse), w[16 + ListedSize(h, 0)..])
      else r.Done? && r.code == DataError
  {
    hide Chars, Drive, Flags, ListedSize, NextMap, Onward, Waiting;
    var h := w[..16];
    assert h[..0] == [] && h[0..] == h && w == h + w[16..];
    MapHeadDecodes(s, h, w[16..]);
    var s1 := s.(inUse16 := h, inUse := []);
    MapRead(s1, 0, w[16..]);
    assert [] + Flags(h, w[16..], 0) == Flags(h, w[16..], 0);
    assert w[16..][ListedSize(h, 0)..] == w[16 + ListedSize(h, 0)..];
  }

  // The numbers of tables and selectors.

  lemma GroupsStep(s: State, v: nat)
    requires s.at == Selector1 && Waiting(s)
    ensures Need(s) == 3
    ensures Advance(s, v) == if v < 2 || v > 6 then Return(DataError, s.(nGroups := v))
      else Continue(s.(nGroups := v, at := Selector2))
    ensures 2 <= v <= 6 ==> Waiting(s.(nGroups := v, at := Selector2))
  {
    hide Chars;
  }

  lemma CountStep(s: State, v: nat)
    requires s.at == Selector2 && Waiting(s)
    ensures var s1 := s.(nSelectors := v, j := 0, selectorMtf := [], at := Selector3);
      && Need(s) == 15 && (v >= 1 ==> Waiting(s1))
      && Advance(s, v) == if v < 1 then Return(DataError, s.(nSelectors := v)) else Continue(s1)
  {
    hide Chars;
  }

  /** The number of tables is refused exactly outside 2 to 6. */
  lemma GroupsNumber(s: State, w: seq<bool>)
    requires s.at == Selector1 && Waiting(s) && |w| >= 3
    ensures var v := Value(w[..3]); var s1 := s.(nGroups := v, at := Selector2);
      && w[..3] == Word(v, 3)
      && if 2 <= v <= 6 then Waiting(s1) && Drive(s, w) == Drive(s1, w[3..])
         else Drive(s, w).Done? && Drive(s, w).code == DataError
  {
    hide Advance, Drive, Moves, Need, Onward, Value, Waiting, Word;
    var v := WordAhead(w, 3);
    GroupsStep(s, v);
    DriveNext(s, w);
    OnwardParts(Advance(s, v), w[3..]);
  }

  /** The number of selectors is refused exactly when it is zero. */
  lemma SelectorsNumber(s: State, w: seq<bool>)
    requires s.at == Selector2 && Waiting(s) && |w| >= 15
    ensures var v := Value(w[..15]); var s1 := s.(nSelectors := v, j := 0, selectorMtf := [], at := Selector3);
      && w[..15] == Word(v, 15) && v < 0x8000
      && if v >= 1 then Waiting(s1) && Drive(s, w) == Drive(s1, w[15..])
         else Drive(s, w).Done? && Drive(s, w).code == DataError
  {
    hide Advance, Drive, Moves, Need, Onward, Value, Waiting, Word;
    var v := WordAhead(w, 15);
    FifteenBits();
    CountStep(s, v);
    DriveNext(s, w);
    OnwardParts(Advance(s, v), w[15..]);
  }

  lemma FifteenBits()
    ensures Pow2(15) == 0x8000
  {
    assert Pow2(7) == 128;
    Pow2Add(7, 8);
    ByteSize();
  }

  // The selectors.

  function Trues(n: nat): (w: seq<bool>)
    ensures |w| == n
  {
    seq(n, i => true)
  }

  lemma {:induction false} UnaryTrues(j: nat)
    ensures Unary(j) == Trues(j) + [false]
  {
    if j > 0 {
      UnaryTrues(j - 1);
      assert Trues(j) == [true] + Trues(j - 1);
    } else {
      assert Trues(0) == [];
    }
  }

  /** What a bit of a rank leads to. */
  lemma RankStep(s: State, b: bool)
    requires s.at == Selector3 && Waiting(s)
    ensures var o := Advance(s, if b then 1 else 0); var js := s.selectorMtf + [s.j];
      && Need(s) == 1 && Moves(o) && 0 <= s.j < s.nGroups && |s.selectorMtf| < s.nSelectors
      && (b && s.j + 1 >= s.nGroups ==> o == Return(DataError, s.(j := s.j + 1)))
      && (b && s.j + 1 < s.nGroups ==> o == Continue(s.(j := s.j + 1)))
      && Below(js, s.nGroups)
      && (!b && |js| < s.nSelectors ==> o == Continue(s.(selectorMtf := js, j := 0)))
      && (!b && |js| == s.nSelectors ==> o == Continue(SelectorsDone(s.(selectorMtf := js, j := 0))))
  {
    AdvanceMoves(s, if b then 1 else 0);
    hide Chars, Symbols;
  }

  lemma FirstRank(j: nat, js: seq<nat>, w: seq<bool>, rest: seq<bool>)
    requires w != [] && !w[0] && w[1..] == SelectorBits(js) + rest
    ensures Trues(j) + w == SelectorBits([j] + js) + rest
  {
    hide SelectorBits;
    UnaryTrues(j);
    RanksParts(j, js);
    assert w == [false] + w[1..];
    assert Trues(j) + w == Trues(j) + [false] + (SelectorBits(js) + rest);
  }

  lemma RanksParts(j: nat, js: seq<nat>)
    ensures SelectorBits([j] + js) == Unary(j) + SelectorBits(js) && SelectorBits([]) == []
  {
    assert ([j] + js)[1..] == js;
  }

  lemma OneTrue(j: nat, w: seq<bool>)
    requires w != [] && w[0]
    ensures Trues(j) + w == Trues(j + 1) + w[1..]
  {
    assert w == [true] + w[1..];
    assert Trues(j + 1) == Trues(j) + [true];
  }

  /** The run fails, or finds the ranks that are left; s.j bits of the first have been read. */
  lemma {:induction false} RanksFound(s: State, w: seq<bool>) returns (found: bool, js: seq<nat>, rest: seq<bool>)
    requires s.at == Selector3 && Waiting(s)
    ensures 0 <= s.j && |s.selectorMtf| < s.nSelectors
    ensures !found ==> Fails(Drive(s, w), DataError)
    ensures found ==> |s.selectorMtf + js| == s.nSelectors && Below(s.selectorMtf + js, s.nGroups) && s.nGroups >= 1
    ensures found ==> Trues(s.j) + w == SelectorBits(js) + rest
    ensures found ==> var s1 := SelectorsDone(s.(selectorMtf := s.selectorMtf + js, j := 0));
      Waiting(s1) && Drive(s, w) == Drive(s1, rest)
    decreases |w|
  {
    hide Advance, Below, Drive, Moves, Need, Onward, SelectorBits, SelectorsDone, Trues, Waiting;
    found, js, rest := false, [], [];
    RankStep(s, false);
    RankStep(s, true);
    if w == [] {
      DriveShort(s, w);
    } else {
      var b := w[0];
      assert w == [b] + w[1..];
      StepBit(s, b, w[1..]);
      var o := Advance(s, if b then 1 else 0);
      OnwardParts(o, w[1..]);
      var more := s.selectorMtf + [s.j];
      if b {
        if s.j + 1 < s.nGroups {
          found, js, rest := RanksFound(s.(j := s.j + 1), w[1..]);
          OneTrue(s.j, w);
        }
      } else if |more| == s.nSelectors {
        found, js, rest := true, [s.j], w[1..];
        RanksParts(s.j, []);
        assert [] + rest == rest;
        FirstRank(s.j, [], w, rest);
        assert [s.j] + [] == [s.j];
      } else {
        found, js, rest := RanksFound(s.(selectorMtf := more, j := 0), w[1..]);
        if found {
          NoTrues(w[1..]);
          FirstRank(s.j, js, w, rest);
          js := [s.j] + js;
          assert more + js[1..] == s.selectorMtf + js;
        }
      }
    }
  }

  lemma NoTrues(w: seq<bool>)
    ensures Trues(0) + w == w
  {
  }

  // The code lengths.

  /** A length is settled. */
  lemma SettleStep(s: State)
    requires s.at == Coding2 && Waiting(s)
    ensures var s1 := s.(cur := s.cur + [s.curr]);
      && Need(s) == 1 && 1 <= s.curr <= LONGEST && |s.cur| < NInUse(s) + 2 && NInUse(s1) == NInUse(s)
      && (|s1.cur| < NInUse(s) + 2 ==> Waiting(s1) && Advance(s, 0) == Continue(s1))
      && (|s1.cur| == NInUse(s) + 2 ==>
            Coding(s1) && GoodLengths(s1.cur) && Advance(s, 0) == TableDone(s1) && Moves(TableDone(s1)))
  {
    AdvanceMoves(s, 0);
    hide Chars, TableDone;
  }

  /** A move up or down: it is refused exactly when it leads out of 1 to 20. */
  lemma MoveStep(s: State, up: bool)
    requires s.at == Coding2 && Waiting(s)
    ensures var s2 := s.(at := Coding3); var s1 := s.(curr := Stepped(s.curr, up));
      && Need(s) == 1 && Advance(s, 1) == Continue(s2) && Waiting(s2) && Need(s2) == 1
      && Advance(s2, if up then 0 else 1) ==
         (if 1 <= Stepped(s.curr, up) <= LONGEST then Continue(s1) else Return(DataError, s1.(at := Coding3)))
      && (1 <= Stepped(s.curr, up) <= LONGEST ==> Waiting(s1))
  {
    hide Chars;
  }

  /** Two bits of a move, as the run sees them. */
  lemma MoveRead(s: State, up: bool, w: seq<bool>)
    requires s.at == Coding2 && Waiting(s)
    ensures var s1 := s.(curr := Stepped(s.curr, up));
      if 1 <= Stepped(s.curr, up) <= LONGEST then Waiting(s1) && Drive(s, [true, !up] + w) == Drive(s1, w)
      else Drive(s, [true, !up] + w).Done? && Drive(s, [true, !up] + w).code == DataError
  {
    hide Advance, Drive, Moves, Need, Onward, Waiting;
    var s2 := s.(at := Coding3);
    MoveStep(s, up);
    assert [true, !up] + w == [true] + ([!up] + w);
    StepBit(s, true, [!up] + w);
    OnwardParts(Advance(s, 1), [!up] + w);
    StepBit(s2, !up, w);
    OnwardParts(Advance(s2, if up then 0 else 1), w);
  }

  lemma MoveMissing(s: State, w: seq<bool>)
    requires s.at == Coding2 && Waiting(s) && (w == [] || w == [true])
    ensures Drive(s, w).Short?
  {
    hide Advance, Drive, Moves, Need, Onward, Waiting;
    MoveStep(s, true);
    if w == [] {
      DriveShort(s, w);
    } else {
      assert w == [true] + [];
      StepBit(s, true, []);
      OnwardParts(Advance(s, 1), []);
      DriveShort(s.(at := Coding3), []);
    }
  }

  lemma SettleRead(s: State, w: seq<bool>)
    requires s.at == Coding2 && Waiting(s)
    ensures var s1 := s.(cur := s.cur + [s.curr]);
      && (|s1.cur| < NInUse(s) + 2 ==> Waiting(s1) && Drive(s, [false] + w) == Drive(s1, w))
      && (|s1.cur| == NInUse(s) + 2 ==>
            Coding(s1) && |s1.cur| == NInUse(s1) + 2 && GoodLengths(s1.cur) && Moves(TableDone(s1))
            && Drive(s, [false] + w) == Onward(TableDone(s1), w))
  {
    hide Advance, Chars, Coding, Drive, GoodLengths, Moves, NInUse, Need, Onward, TableDone, Waiting;
    SettleStep(s);
    StepBit(s, false, w);
    OnwardParts(Advance(s, 0), w);
  }

  /** The state with more lengths settled. */
  ghost function WithLengths(s: State, ms: seq<seq<bool>>): State
    requires s.curr >= 0 && AllStay(s.curr, ms)
  {
    var l := Settled(s.curr, ms);
    s.(cur := s.cur + l, curr := if l == [] then s.curr else l[|l| - 1])
  }

  /** A table that has been read to its end. */
  ghost predicate FullTable(s: State) {
    Coding(s) && |s.cur| == NInUse(s) + 2 && GoodLengths(s.cur) && Moves(TableDone(s))
  }

  lemma MovesParts(m: seq<bool>, ms: seq<seq<bool>>)
    ensures MovesBits([m] + ms) == MoveBits(m) + MovesBits(ms) && MovesBits([]) == [] && MoveBits([]) == [false]
    ensures m != [] ==> MoveBits(m) == [true, !m[0]] + MoveBits(m[1..])
  {
    assert ([m] + ms)[1..] == ms;
  }

  /** The first length is settled where it is. */
  lemma SettledFirst(s: State, ms: seq<seq<bool>>)
    requires 1 <= s.curr <= LONGEST && AllStay(s.curr, ms)
    ensures AllStay(s.curr, [[]] + ms)
    ensures WithLengths(s, [[]] + ms) == WithLengths(s.(cur := s.cur + [s.curr]), ms)
  {
    var all := [[]] + ms;
    assert all[0] == [] && all[1..] == ms;
    assert Settled(s.curr, all) == [s.curr] + Settled(s.curr, ms);
    assert s.cur + ([s.curr] + Settled(s.curr, ms)) == s.cur + [s.curr] + Settled(s.curr, ms);
  }

  lemma StaysMoved(c: int, up: bool, ms: seq<seq<bool>>)
    requires 1 <= c <= LONGEST && ms != [] && AllStay(Stepped(c, up), ms)
    ensures var all := [[up] + ms[0]] + ms[1..]; AllStay(c, all) && Settled(c, all) == Settled(Stepped(c, up), ms)
  {
    var m := [up] + ms[0];
    var all := [m] + ms[1..];
    assert m[0] == up && m[1..] == ms[0] && all[0] == m && all[1..] == ms[1..];
    assert Reached(c, m) == Reached(Stepped(c, up), ms[0]);
  }

  lemma BitsMoved(up: bool, ms: seq<seq<bool>>)
    requires ms != []
    ensures MovesBits([[up] + ms[0]] + ms[1..]) == [true, !up] + MovesBits(ms)
  {
    hide MoveBits, MovesBits;
    var m := [up] + ms[0];
    assert m[1..] == ms[0] && ms == [ms[0]] + ms[1..];
    MovesParts(m, ms[1..]);
    MovesParts(ms[0], ms[1..]);
    assert [true, !up] + MoveBits(ms[0]) + MovesBits(ms[1..]) == [true, !up] + (MoveBits(ms[0]) + MovesBits(ms[1..]));
  }

  /** The first length is moved first. */
  lemma SettledMoved(s: State, up: bool, ms: seq<seq<bool>>)
    requires 1 <= s.curr <= LONGEST && ms != [] && s.curr >= 0
    requires 1 <= Stepped(s.curr, up) <= LONGEST && AllStay(Stepped(s.curr, up), ms)
    ensures var all := [[up] + ms[0]] + ms[1..];
      && AllStay(s.curr, all) && WithLengths(s, all) == WithLengths(s.(curr := Stepped(s.curr, up)), ms)
      && MovesBits(all) == [true, !up] + MovesBits(ms)
  {
    hide AllStay, MovesBits, Settled;
    StaysMoved(s.curr, up, ms);
    BitsMoved(up, ms);
  }

  /** The run fails, or finds the lengths that are left of the table. */
  lemma {:induction false} MovesFound(s: State, w: seq<bool>)
    returns (found: bool, ms: seq<seq<bool>>, rest: seq<bool>)
    requires s.at == Coding2 && Waiting(s)
    ensures 1 <= s.curr <= LONGEST && |s.cur| < NInUse(s) + 2
    ensures !found ==> Fails(Drive(s, w), DataError)
    ensures found ==> |s.cur| + |ms| == NInUse(s) + 2 && AllStay(s.curr, ms) && w == MovesBits(ms) + rest
    ensures found ==>
      FullTable(WithLengths(s, ms)) && Drive(s, w) == Onward(TableDone(WithLengths(s, ms)), rest)
    decreases |w|
  {
    hide Advance, AllStay, Coding, Drive, FullTable, GoodLengths, Moves, MovesBits, NInUse, Need, Onward, TableDone,
      Waiting, WithLengths;
    found, ms, rest := false, [], [];
    SettleStep(s);
    if w == [] || w == [true] {
      MoveMissing(s, w);
    } else if w[0] {
      var up := !w[1];
      assert w == [true, !up] + w[2..];
      MoveRead(s, up, w[2..]);
      if 1 <= Stepped(s.curr, up) <= LONGEST {
        var s1 := s.(curr := Stepped(s.curr, up));
        SameInUse(s, s1);
        var more;
        found, more, rest := MovesFound(s1, w[2..]);
        if found {
          SettledMoved(s, up, more);
          ms := [[up] + more[0]] + more[1..];
          assert [true, !up] + (MovesBits(more) + rest) == [true, !up] + MovesBits(more) + rest;
        }
      }
    } else {
      assert w == [false] + w[1..];
      var s1 := s.(cur := s.cur + [s.curr]);
      SameInUse(s, s1);
      SettleRead(s, w[1..]);
      if |s1.cur| == NInUse(s) + 2 {
        found, ms, rest := true, [[]], w[1..];
        NothingSettled(s1);
        SettledFirst(s, []);
        MovesParts([], []);
        assert ms == [[]] + [];
        assert [false] + [] + rest == [false] + rest;
        FullIs(s1);
      } else {
        var more;
        found, more, rest := MovesFound(s1, w[1..]);
        if found {
          SettledFirst(s, more);
          ms := [[]] + more;
          MovesParts([], more);
          assert [false] + (MovesBits(more) + rest) == [false] + MovesBits(more) + rest;
        }
      }
    }
  }

  lemma FullIs(s: State)
    requires Coding(s) && |s.cur| == NInUse(s) + 2 && GoodLengths(s.cur) && Moves(TableDone(s))
    ensures FullTable(s)
  {
  }

  lemma NothingSettled(s: State)
    requires 1 <= s.curr <= LONGEST
    ensures AllStay(s.curr, []) && WithLengths(s, []) == s
  {
  }

  // All tables.

  lemma StartStep(s: State, v: nat)
    requires s.at == Coding1 && Waiting(s)
    ensures var s1 := s.(curr := v, cur := [], at := Coding2);
      && Need(s) == 5 && |s.len| < s.nGroups && NInUse(s1) == NInUse(s)
      && (1 <= v <= LONGEST ==> Waiting(s1) && Advance(s, v) == Continue(s1))
      && (!(1 <= v <= LONGEST) ==> Advance(s, v).Return? && Advance(s, v).code == DataError)
  {
    hide Chars;
  }

  /** The first length of a table is refused exactly outside 1 to 20. */
  lemma StartRead(s: State, w: seq<bool>)
    requires s.at == Coding1 && Waiting(s) && |w| >= 5
    ensures var v := Value(w[..5]); var s1 := s.(curr := v, cur := [], at := Coding2);
      && w[..5] == Word(v, 5)
      && if 1 <= v <= LONGEST then Waiting(s1) && Drive(s, w) == Drive(s1, w[5..])
         else Drive(s, w).Done? && Drive(s, w).code == DataError
  {
    hide Advance, Drive, Moves, NInUse, Need, Onward, Value, Waiting, Word;
    var v := WordAhead(w, 5);
    StartStep(s, v);
    DriveNext(s, w);
    OnwardParts(Advance(s, v), w[5..]);
  }

  /** All tables have been read. */
  ghost predicate AllTables(s: State) {
    Selected(s) && |s.len| == s.nGroups && GoodTables(s) && Moves(FirstSymbol(s))
  }

  /** What comes after a table. */
  lemma TableEnds(s: State)
    requires FullTable(s) && s.at == Coding2
    ensures var s1 := s.(len := s.len + [s.cur]);
      && |s.len| < s.nGroups && NInUse(s1) == NInUse(s)
      && (|s1.len| < s.nGroups ==>
            Waiting(s1.(at := Coding1)) && TableDone(s) == Continue(s1.(at := Coding1)))
      && (|s1.len| == s.nGroups ==> AllTables(s1) && TableDone(s) == FirstSymbol(s1))
  {
    hide Chars, FirstSymbol;
  }

  lemma PathsParts(p: Path, ps: seq<Path>, n: int)
    requires GoodPath(p, n) && GoodPaths(ps, n)
    ensures GoodPaths([p] + ps, n)
    ensures Lens([p] + ps, n) == [Settled(p.start, p.moves)] + Lens(ps, n)
    ensures PathsBits([p] + ps) == Word(p.start, 5) + MovesBits(p.moves) + PathsBits(ps) && PathsBits([]) == []
  {
    hide Word, MovesBits, Settled, AllStay;
    assert ([p] + ps)[1..] == ps;
  }

  lemma NoPaths(n: int)
    ensures GoodPaths([], n) && Lens([], n) == []
  {
  }

  lemma LensMore(l: seq<seq<nat>>, a: seq<nat>, m: seq<seq<nat>>)
    ensures l + [a] + m == l + ([a] + m)
  {
  }

  lemma TableGrows(s: State, ms: seq<seq<bool>>)
    requires s.curr >= 0 && AllStay(s.curr, ms) && s.cur == []
    ensures WithLengths(s, ms).cur == Settled(s.curr, ms)
    ensures WithLengths(s, ms) == s.(cur := WithLengths(s, ms).cur, curr := WithLengths(s, ms).curr)
  {
    hide Settled, AllStay;
    assert [] + Settled(s.curr, ms) == Settled(s.curr, ms);
  }

  /** States that differ only in the tables. */
  ghost predicate TablesOnly(s: State, s1: State) {
    s1 == s.(len := s1.len, cur := s1.cur, curr := s1.curr, at := s1.at)
  }

  /** The run fails, or finds the tables that are left. */
  lemma {:induction false} PathsFound(s: State, w: seq<bool>)
    returns (found: bool, ps: seq<Path>, s1: State, rest: seq<bool>)
    requires s.at == Coding1 && Waiting(s)
    ensures |s.len| < s.nGroups
    ensures !found ==> Fails(Drive(s, w), DataError)
    ensures found ==> |s.len| + |ps| == s.nGroups && GoodPaths(ps, NInUse(s) + 2) && w == PathsBits(ps) + rest
    ensures found ==> TablesOnly(s, s1) && s1.len == s.len + Lens(ps, NInUse(s) + 2)
    ensures found ==> AllTables(s1) && Drive(s, w) == Onward(FirstSymbol(s1), rest)
    decreases s.nGroups - |s.len|
  {
    hide Advance, AllStay, AllTables, Drive, FirstSymbol, FullTable, GoodPath, GoodPaths, Lens, Moves, MovesBits,
      NInUse, Need, Onward, PathsBits, Settled, TableDone, Value, Waiting, WithLengths, Word;
    found, ps, s1, rest := false, [], s, [];
    StartStep(s, 0);
    if |w| < 5 {
      DriveShort(s, w);
    } else {
      var v := Value(w[..5]);
      assert w == w[..5] + w[5..];
      StartRead(s, w);
      if 1 <= v <= LONGEST {
        var t := s.(curr := v, cur := [], at := Coding2);
        SameInUse(s, t);
        var ms, more;
        found, ms, more := MovesFound(t, w[5..]);
        if found {
          var n := NInUse(s) + 2;
          var p := Path(v, ms);
          var f := WithLengths(t, ms);
          PathIs(p, n);
          TableGrows(t, ms);
          SameInUse(s, f);
          TableEnds(f);
          var g := f.(len := s.len + [f.cur]);
          SameInUse(s, g);
          assert w == Word(v, 5) + (MovesBits(ms) + more);
          if |g.len| == s.nGroups {
            ps, s1, rest := [p], g, more;
            NoPaths(n);
            PathsParts(p, [], n);
            assert [p] + [] == [p] && [f.cur] + [] == [f.cur];
            assert Word(v, 5) + MovesBits(ms) + [] + rest == Word(v, 5) + (MovesBits(ms) + rest);
          } else {
            var qs;
            var h := g.(at := Coding1);
            SameInUse(s, h);
            TableLeads(f, h, more);
            found, qs, s1, rest := PathsFound(h, more);
            if found {
              PathsParts(p, qs, n);
              ps := [p] + qs;
              LensMore(s.len, f.cur, Lens(qs, n));
              assert Word(v, 5) + (MovesBits(ms) + (PathsBits(qs) + rest)) ==
                Word(v, 5) + MovesBits(ms) + PathsBits(qs) + rest;
            }
          }
        }
      }
    }
  }

  lemma TableLeads(f: State, h: State, x: seq<bool>)
    requires FullTable(f) && TableDone(f) == Continue(h) && Waiting(h)
    ensures Onward(TableDone(f), x) == Drive(h, x)
  {
    hide Drive, Good, TableDone;
    OnwardTo(TableDone(f), h, x);
  }

  lemma PathIs(p: Path, n: int)
    requires |p.moves| == n && AllStay(p.start, p.moves)
    ensures GoodPath(p, n)
  {
  }

  // Reading back.

  lemma StayParts(c: int, ms: seq<seq<bool>>)
    requires AllStay(c, ms) && ms != []
    ensures 1 <= c <= LONGEST && Stays(c, ms[0])
    ensures ms[0] == [] ==> AllStay(c, ms[1..]) && ms == [[]] + ms[1..]
  {
    var m := ms[0];
    assert [m] + ms[1..] == ms;
  }

  lemma StayMoved(c: int, ms: seq<seq<bool>>)
    requires AllStay(c, ms) && ms != [] && ms[0] != []
    ensures var c1 := Stepped(c, ms[0][0]); var more := [ms[0][1..]] + ms[1..];
      1 <= c1 <= LONGEST && AllStay(c1, more) && ms == [[ms[0][0]] + more[0]] + more[1..]
  {
    var m := ms[0];
    var more := [m[1..]] + ms[1..];
    var c1 := Stepped(c, m[0]);
    assert more[0] == m[1..] && more[1..] == ms[1..];
    assert Stays(c1, m[1..]) && Reached(c, m) == Reached(c1, m[1..]);
    MovesSame(m, ms);
  }

  lemma MovesSame(m: seq<bool>, ms: seq<seq<bool>>)
    requires ms != [] && ms[0] == m != []
    ensures [[m[0]] + m[1..]] + ms[1..] == ms
  {
    assert [m[0]] + m[1..] == m;
    assert [m] + ms[1..] == ms;
  }

  /** The moves of a table are read. */
  lemma {:induction false} MovesRead(s: State, ms: seq<seq<bool>>, x: seq<bool>)
    requires s.at == Coding2 && Waiting(s) && ms != [] && |s.cur| + |ms| == NInUse(s) + 2 && AllStay(s.curr, ms)
    ensures s.curr >= 0 && FullTable(WithLengths(s, ms))
    ensures Drive(s, MovesBits(ms) + x) == Onward(TableDone(WithLengths(s, ms)), x)
    decreases |ms|, |ms[0]|
  {
    hide Advance, AllStay, Coding, Drive, FullTable, GoodLengths, Moves, MovesBits, NInUse, Need, Onward, Stays,
      TableDone, Waiting, WithLengths;
    SettleStep(s);
    StayParts(s.curr, ms);
    if ms[0] == [] {
      var s1 := s.(cur := s.cur + [s.curr]);
      var more := MovesBits(ms[1..]);
      SameInUse(s, s1);
      SettleRead(s, more + x);
      MovesParts([], ms[1..]);
      SettledFirst(s, ms[1..]);
      assert [false] + more + x == [false] + (more + x);
      if ms[1..] == [] {
        NothingSettled(s1);
        FullIs(s1);
        assert more + x == x;
      } else {
        MovesRead(s1, ms[1..], x);
      }
    } else {
      var up := ms[0][0];
      var more := [ms[0][1..]] + ms[1..];
      StayMoved(s.curr, ms);
      var s1 := s.(curr := Stepped(s.curr, up));
      SameInUse(s, s1);
      MoveRead(s, up, MovesBits(more) + x);
      SettledMoved(s, up, more);
      assert [true, !up] + MovesBits(more) + x == [true, !up] + (MovesBits(more) + x);
      MovesRead(s1, more, x);
    }
  }

  /** The tables are read. */
  lemma {:induction false} PathsRead(s: State, ps: seq<Path>, x: seq<bool>) returns (s1: State)
    requires s.at == Coding1 && Waiting(s) && ps != []
    requires |s.len| + |ps| == s.nGroups && GoodPaths(ps, NInUse(s) + 2)
    ensures TablesOnly(s, s1) && s1.len == s.len + Lens(ps, NInUse(s) + 2)
    ensures AllTables(s1) && Drive(s, PathsBits(ps) + x) == Onward(FirstSymbol(s1), x)
    decreases |ps|
  {
    hide Advance, AllStay, AllTables, Drive, FirstSymbol, FullTable, GoodPath, GoodPaths, Lens, Moves, MovesBits,
      NInUse, Need, Onward, PathsBits, Pow2, Settled, TableDone, Value, Waiting, WithLengths, Word;
    var n := NInUse(s) + 2;
    var p, qs := ps[0], ps[1..];
    assert ps == [p] + qs;
    PathsSplit(ps, n);
    StartStep(s, p.start);
    PathsParts(p, qs, n);
    var more := PathsBits(qs) + x;
    assert Word(p.start, 5) + MovesBits(p.moves) + PathsBits(qs) + x == Word(p.start, 5) + (MovesBits(p.moves) + more);
    FiveBits();
    StepWord(s, p.start, 5, MovesBits(p.moves) + more);
    OnwardParts(Advance(s, p.start), MovesBits(p.moves) + more);
    var t := s.(curr := p.start, cur := [], at := Coding2);
    SameInUse(s, t);
    MovesRead(t, p.moves, more);
    var f := WithLengths(t, p.moves);
    TableGrows(t, p.moves);
    SameInUse(s, f);
    TableEnds(f);
    var g := f.(len := s.len + [f.cur]);
    SameInUse(s, g);
    if qs == [] {
      s1 := g;
      NoPaths(n);
      assert [f.cur] + [] == [f.cur];
      assert [] + x == x;
    } else {
      var h := g.(at := Coding1);
      SameInUse(s, h);
      TableLeads(f, h, more);
      s1 := PathsRead(h, qs, x);
      LensMore(s.len, f.cur, Lens(qs, n));
    }
  }

  lemma FiveBits()
    ensures Pow2(5) == 32
  {
  }

  lemma PathsSplit(ps: seq<Path>, n: int)
    requires ps != [] && GoodPaths(ps, n) && n >= 1
    ensures GoodPath(ps[0], n) && GoodPaths(ps[1..], n)
    ensures 1 <= ps[0].start <= LONGEST && AllStay(ps[0].start, ps[0].moves) && |ps[0].moves| == n
    ensures ps[0].moves != []
  {
    hide AllStay;
    assert GoodPath(ps[0], n);
    StaysFirst(ps[0].start, ps[0].moves);
    forall t | 0 <= t < |ps[1..]| ensures GoodPath(ps[1..][t], n) { assert ps[1..][t] == ps[t + 1]; }
  }

  lemma StaysFirst(c: int, ms: seq<seq<bool>>)
    requires AllStay(c, ms)
    ensures 1 <= c <= LONGEST
  {
  }
}
