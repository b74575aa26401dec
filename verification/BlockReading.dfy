/** Exactly which bits the decompressor takes as a block. */
module BlockReading {
  import opened Bits
  import opened BlockDecoding
  import opened CanonicalCodes
  import opened CodeTables
  import opened ColumnDecoding
  import opened ColumnReading
  import opened Coroutine
  import opened Decompressor
  import opened HeaderReading
  import opened MoveToFront
  import opened ReadableFormat
  import opened StreamFormat
  import opened SymbolDecoding
  import opened SymbolMaps
  import opened TableReading
  import opened Words

  /** With fewer bits, a run that fails fails earlier or not at all later. */
  lemma PadFails(s: State, w: seq<bool>, x: seq<bool>, code: Status)
    requires Waiting(s) && Fails(Drive(s, w + x), code)
    ensures Fails(Drive(s, w), code)
  {
    hide Drive, Good;
    DriveSplit(s, w, x);
  }

  lemma NoBitsShort(s: State)
    requires Waiting(s)
    ensures Drive(s, []).Short?
  {
    hide Drive, Good;
    DriveShort(s, []);
  }

  // The front.

  /** Up to the mapping table. */
  function Fronted(s: State, crc: nat, randomised: bool, origPtr: nat): State {
    s.(storedBlockCRC := crc, randomised := randomised, origPtr := origPtr, inUse16 := [], at := Mapping1)
  }

  function FrontBits(crc: nat, randomised: bool, origPtr: nat, x: seq<bool>): seq<bool> {
    BitsOf(BLOCK_MAGIC) + (BitsOf(WordBytes(crc)) + ([randomised] + (Word(origPtr, 24) + x)))
  }

  lemma CrcFails(s: State, w: seq<bool>)
    requires s.at == BlkCrc(1) && s.storedBlockCRC == 0 && |w| < 32
    ensures Waiting(s) && Fails(Drive(s, w), DataError)
  {
    hide Drive, Value, Waiting, BitsOf, WordBytes;
    var v := w + Zeros(32 - |w|);
    CrcWaits(s);
    CrcRead(s, v);
    NoBitsShort(s.(storedBlockCRC := Value(v[..32]), at := RandBit));
    assert v[32..] == [];
    PadFails(s, w, Zeros(32 - |w|), DataError);
  }

  lemma PointerFails(s: State, w: seq<bool>)
    requires s.at == OrigPtr(1) && s.origPtr == 0 && |w| < 24
    ensures Waiting(s) && Fails(Drive(s, w), DataError)
  {
    hide Drive, Value, Waiting, Word;
    var v := w + Zeros(24 - |w|);
    PointerRead(s, v);
    var s1 := s.(origPtr := Value(v[..24]), inUse16 := [], at := Mapping1);
    assert v[24..] == [];
    if Waiting(s1) { NoBitsShort(s1); }
    PadFails(s, w, Zeros(24 - |w|), DataError);
  }

  lemma FrontFound(s: State, w: seq<bool>)
    returns (found: bool, crc: nat, randomised: bool, origPtr: nat, rest: seq<bool>)
    requires s.at == BlkHdr(1) && BitsOf(BLOCK_MAGIC) <= w
    ensures Waiting(s)
    ensures !found ==> Fails(Drive(s, w), DataError)
    ensures found ==> crc < WORD && origPtr < 0x100_0000 && w == FrontBits(crc, randomised, origPtr, rest)
    ensures found ==> var s1 := Fronted(s, crc, randomised, origPtr); Waiting(s1) && Drive(s, w) == Drive(s1, rest)
  {
    hide BitsOf, Capacity, Drive, Value, Waiting, Word, WordBytes;
    found, crc, randomised, origPtr, rest := false, 0, false, 0, [];
    BlockStart(s, w);
    var w1 := w[48..];
    assert w == BitsOf(BLOCK_MAGIC) + w1;
    var t1 := s.(storedBlockCRC := 0, at := BlkCrc(1));
    if |w1| < 32 {
      CrcFails(t1, w1);
    } else {
      CrcRead(t1, w1);
      crc := Value(w1[..32]);
      var w2 := w1[32..];
      assert w1 == BitsOf(WordBytes(crc)) + w2;
      var t2 := s.(storedBlockCRC := crc, at := RandBit);
      if w2 == [] {
        NoBitsShort(t2);
      } else {
        RandRead(t2, w2);
        randomised := w2[0];
        var w3 := w2[1..];
        assert w2 == [randomised] + w3;
        var t3 := t2.(randomised := randomised, origPtr := 0, at := OrigPtr(1));
        if |w3| < 24 {
          PointerFails(t3, w3);
        } else {
          PointerRead(t3, w3);
          origPtr := Value(w3[..24]);
          rest := w3[24..];
          assert w3 == Word(origPtr, 24) + rest;
          found := origPtr <= 10 + Capacity(t3);
        }
      }
    }
  }

  lemma FrontReads(s: State, crc: nat, randomised: bool, origPtr: nat, x: seq<bool>)
    requires s.at == BlkHdr(1) && crc < WORD && origPtr < 0x100_0000 && origPtr <= 10 + Capacity(s)
    ensures var s1 := Fronted(s, crc, randomised, origPtr);
      Waiting(s) && Waiting(s1) && Drive(s, FrontBits(crc, randomised, origPtr, x)) == Drive(s1, x)
  {
    hide BitsOf, Capacity, Drive, Leading, PointerBytes, PointerLeading, Waiting, Word, WordBytes;
    var w3 := Word(origPtr, 24) + x;
    var w2 := [randomised] + w3;
    var w1 := BitsOf(WordBytes(crc)) + w2;
    ZeroLeads(crc, origPtr);
    assert BLOCK_MAGIC[0..] == BLOCK_MAGIC && WordBytes(crc)[0..] == WordBytes(crc);
    BlkHdrWaits(s);
    MagicDecodes(s, 1, w1);
    CrcDecodes(s.(storedBlockCRC := 0, at := BlkCrc(1)), crc, 1, w2);
    var t2 := s.(storedBlockCRC := crc, at := RandBit);
    RandRead(t2, w2);
    assert w2[1..] == w3;
    var t3 := t2.(randomised := randomised, origPtr := 0, at := OrigPtr(1));
    SameCapacity(s, t3);
    PointerBits(origPtr);
    PointerDecodes(t3, origPtr, x);
  }

  // The middle.

  /** Up to the code lengths. */
  function Mapped(s: State, groups: seq<bool>, inUse: seq<bool>, nGroups: nat, ranks: seq<nat>): State
    requires Below(ranks, nGroups)
  {
    s.(inUse16 := groups, inUse := inUse, i := 16, j := 0, nGroups := nGroups, nSelectors := |ranks|,
       selectorMtf := ranks, selector := Symbols(Identity(nGroups), ranks), len := [], at := Coding1)
  }

  function MiddleBits(groups: seq<bool>, inUse: seq<bool>, nGroups: nat, ranks: seq<nat>, x: seq<bool>): seq<bool>
    requires |groups| == 16 && |inUse| == 256
  {
    groups + (ListedBits(groups, inUse, 0) + (Word(nGroups, 3) + (Word(|ranks|, 15) + (SelectorBits(ranks) + x))))
  }

  lemma MappingFails(s: State, w: seq<bool>)
    requires s.at == Mapping1 && s.inUse16 == [] && (|w| < 16 || |w| < 16 + ListedSize(w[..16], 0))
    ensures Waiting(s) && Fails(Drive(s, w), DataError)
  {
    hide Chars, Drive, Flags, ListedSize, Waiting;
    var h := if |w| < 16 then w + Zeros(16 - |w|) else w[..16];
    var n := 16 + ListedSize(h, 0);
    var x := Zeros(n - |w|);
    var v := w + x;
    assert v[..16] == h;
    MappingRead(s, v);
    assert v[n..] == [];
    var s1 := WithMap(s.(inUse16 := h), Flags(h, v[16..], 0));
    if Waiting(s1) { NoBitsShort(s1); }
    PadFails(s, w, x, DataError);
  }

  lemma GroupsFails(s: State, w: seq<bool>)
    requires s.at == Selector1 && Waiting(s) && |w| < 3
    ensures Fails(Drive(s, w), DataError)
  {
    hide Drive, Waiting;
    GroupsStep(s, 0);
    DriveShort(s, w);
  }

  lemma CountFails(s: State, w: seq<bool>)
    requires s.at == Selector2 && Waiting(s) && |w| < 15
    ensures Fails(Drive(s, w), DataError)
  {
    hide Drive, Waiting;
    CountStep(s, 0);
    DriveShort(s, w);
  }

  /** What is found of the mapping table, the numbers of tables and selectors, and the ranks. */
  ghost predicate MiddleGood(groups: seq<bool>, inUse: seq<bool>, nGroups: nat, ranks: seq<nat>) {
    && |groups| == 16 && |inUse| == 256 && Unlisted(groups, inUse) && Chars(inUse) != []
    && 2 <= nGroups <= 6 && 1 <= |ranks| < 0x8000 && Below(ranks, nGroups)
  }

  lemma MiddleFound(s: State, w: seq<bool>)
    returns (found: bool, groups: seq<bool>, inUse: seq<bool>, nGroups: nat, ranks: seq<nat>, rest: seq<bool>)
    requires s.at == Mapping1 && s.inUse16 == []
    ensures Waiting(s)
    ensures !found ==> Fails(Drive(s, w), DataError)
    ensures found ==> MiddleGood(groups, inUse, nGroups, ranks)
    ensures found ==> w == MiddleBits(groups, inUse, nGroups, ranks, rest)
    ensures found ==> var s1 := Mapped(s, groups, inUse, nGroups, ranks); Waiting(s1) && Drive(s, w) == Drive(s1, rest)
  {
    hide Below, Chars, Drive, Flags, ListedBits, ListedSize, SelectorBits, SelectorsDone, Trues, Value, Waiting, Word;
    found, groups, inUse, nGroups, ranks, rest := false, [], [], 0, [], [];
    if |w| < 16 || |w| < 16 + ListedSize(w[..16], 0) {
      MappingFails(s, w);
    } else {
      groups := w[..16];
      MappingRead(s, w);
      inUse := Flags(groups, w[16..], 0);
      var n := 16 + ListedSize(groups, 0);
      if Chars(inUse) != [] {
        assert inUse[0..] == inUse;
        FlagsListed(groups, w[16..], inUse, 0);
        UnlistedFrom(groups, inUse);
        var t1 := WithMap(s.(inUse16 := groups), inUse);
        var w1 := w[n..];
        assert w == groups + (w[16..][..ListedSize(groups, 0)] + w1);
        if |w1| < 3 {
          GroupsFails(t1, w1);
        } else {
          GroupsNumber(t1, w1);
          nGroups := Value(w1[..3]);
          var w2 := w1[3..];
          assert w1 == Word(nGroups, 3) + w2;
          if 2 <= nGroups <= 6 {
            var t2 := t1.(nGroups := nGroups, at := Selector2);
            if |w2| < 15 {
              CountFails(t2, w2);
            } else {
              SelectorsNumber(t2, w2);
              var c := Value(w2[..15]);
              var w3 := w2[15..];
              assert w2 == Word(c, 15) + w3;
              if c >= 1 {
                var t3 := t2.(nSelectors := c, j := 0, selectorMtf := [], at := Selector3);
                found, ranks, rest := RanksFound(t3, w3);
                if found {
                  NoTrues(w3);
                  assert [] + ranks == ranks;
                  RanksDone(t3.(selectorMtf := ranks, j := 0));
                }
              }
            }
          }
        }
      }
    }
  }

  lemma UnlistedFrom(groups: seq<bool>, inUse: seq<bool>)
    requires |groups| == 16 && |inUse| == 256
    requires forall k, c :: 0 <= k < 16 && !groups[k] && 16 * k <= c < 16 * k + 16 ==> !inUse[c]
    ensures Unlisted(groups, inUse)
  {
  }

  lemma RanksDone(s: State)
    requires s.nGroups >= 1 && Below(s.selectorMtf, s.nGroups)
    ensures Below(s.selectorMtf, |Identity(s.nGroups)|)
    ensures SelectorsDone(s) == s.(selector := Symbols(Identity(s.nGroups), s.selectorMtf), len := [], at := Coding1)
  {
    hide Symbols;
  }

  lemma MiddleReads(s: State, groups: seq<bool>, inUse: seq<bool>, nGroups: nat, ranks: seq<nat>, x: seq<bool>)
    requires s.at == Mapping1 && s.inUse16 == [] && MiddleGood(groups, inUse, nGroups, ranks)
    ensures Waiting(s)
    ensures var s1 := Mapped(s, groups, inUse, nGroups, ranks);
      Waiting(s1) && Drive(s, MiddleBits(groups, inUse, nGroups, ranks, x)) == Drive(s1, x)
  {
    hide Below, Chars, Drive, Flags, InSelector, ListedBits, ListedSize, SelectorBits, SelectorsDone, Unlisted,
      Waiting, Word;
    var w3 := SelectorBits(ranks) + x;
    var w2 := Word(nGroups, 3) + (Word(|ranks|, 15) + w3);
    var lb := ListedBits(groups, inUse, 0);
    var w := groups + (lb + w2);
    ListedFlags(groups, inUse, 0, w2);
    assert w[..16] == groups && w[16..] == lb + w2 && inUse[0..] == inUse;
    MappingRead(s, w);
    assert w[16 + |lb|..] == w2;
    var t1 := WithMap(s.(inUse16 := groups), inUse);
    GroupsDecode(t1, nGroups, |ranks|, w3);
    var t3 := t1.(nGroups := nGroups, nSelectors := |ranks|, j := 0, selectorMtf := [], at := Selector3);
    assert ranks[0..] == ranks;
    RanksStart(t3, ranks);
    SelectorsDecode(t3, ranks, x);
    RanksDone(t3.(selectorMtf := ranks));
  }

  lemma RanksStart(s: State, ranks: seq<nat>)
    requires s.at == Selector3 && Waiting(s) && s.selectorMtf == [] && s.j == 0 && s.nSelectors == |ranks|
    requires Below(ranks, s.nGroups)
    ensures ranks != [] && InSelector(s, ranks, ranks[0])
  {
    hide Chars;
    assert ranks[..0] == [];
  }

  // The code lengths and the symbols.

  /** The state before the first symbol. */
  function BeforeFirst(t: State): State {
    t.(groupNo := -1, groupPos := 0, y := Identity(256), tt := [])
  }

  lemma FirstFacts(s: State, t: State)
    requires AllTables(t) && TablesOnly(s, t) && |s.inUse| == 256 && Chars(s.inUse) != [] && 0 <= Capacity(s) < N_LIMIT
    ensures var o, u := BeforeFirst(t), Unread(s.inUse);
      && Before(o, 0) && Tracks(o, u, 1) && Fits(u, Capacity(o)) && SameBlock(s, o) && o.selector == s.selector
      && o.len == t.len && NInUse(o) == |Chars(s.inUse)| && FirstSymbol(t) == StartSymbol(o, 1)
      && u.y != [] && |u.y| == |Chars(s.inUse)| && Capacity(o) == Capacity(s)
  {
    hide Chars, StartSymbol;
    IdentityBelow(256, []);
    CharsFew(s.inUse);
    assert Identity(256)[..|Chars(s.inUse)|] == Identity(|Chars(s.inUse)|);
    assert Spelled(s.inUse, []) == [];
  }

  /** The tables and the symbols make a column that fits. */
  ghost predicate BackGood(s: State, ps: seq<Path>, vs: seq<int>) {
    var m := |Chars(s.inUse)|;
    && |ps| == s.nGroups && GoodPaths(ps, m + 2) && vs != [] && vs[|vs| - 1] == m + 1 && Codes(Entries(vs), m)
    && Unread(s.inUse).y != [] && |Unread(s.inUse).y| == m && Spellable(s.selector, Lens(ps, m + 2), 0, vs)
    && var r := Undo(Unread(s.inUse), Entries(vs));
      s.origPtr < |r.out| + r.run <= Capacity(s)
  }

  lemma BackWhole(s: State, o: State, ps: seq<Path>, vs: seq<int>)
    requires SameBlock(s, o) && o.selector == s.selector && |ps| == s.nGroups
    requires NInUse(o) == |Chars(s.inUse)| && GoodPaths(ps, |Chars(s.inUse)| + 2)
    requires o.len == Lens(ps, |Chars(s.inUse)| + 2)
    requires Unread(s.inUse).y != [] && |Unread(s.inUse).y| == |Chars(s.inUse)|
    ensures BackGood(s, ps, vs) <==> Whole(o, 0, Unread(s.inUse), vs)
  {
    hide Chars, GoodPath, Lens, Spellable, Undo;
  }

  /** The block at the point of output. */
  ghost predicate BackReady(s: State, vs: seq<int>, s1: State)
    requires vs != [] && Unread(s.inUse).y != [] && Codes(Entries(vs), |Unread(s.inUse).y|)
  {
    && s1.at == Output && SameBlock(s, s1)
    && var out := Flush(Undo(Unread(s.inUse), Entries(vs))).out;
      InRange(out, |Chars(s.inUse)|) && s1.tt == Spelled(s.inUse, out)
  }

  lemma BackFrom(s: State, o: State, vs: seq<int>, s1: State)
    requires vs != [] && Unread(s.inUse).y != [] && Codes(Entries(vs), |Unread(s.inUse).y|)
    requires SameBlock(s, o) && NInUse(o) == |Chars(s.inUse)| && ColumnRead(o, Unread(s.inUse), vs, s1)
    ensures BackReady(s, vs, s1)
  {
    hide Chars, Undo, Flush;
  }

  lemma BackFacts(s: State, ps: seq<Path>, vs: seq<int>)
    requires BackGood(s, ps, vs)
    ensures |ps| == s.nGroups && GoodPaths(ps, |Chars(s.inUse)| + 2) && vs != []
    ensures Unread(s.inUse).y != [] && |Unread(s.inUse).y| == |Chars(s.inUse)|
    ensures Codes(Entries(vs), |Unread(s.inUse).y|)
  {
  }

  lemma AllTablesFacts(s: State)
    requires AllTables(s)
    ensures Selected(s) && |s.len| == s.nGroups && GoodTables(s) && Moves(FirstSymbol(s))
  {
  }

  lemma InUseIs(s: State)
    ensures NInUse(s) == |Chars(s.inUse)|
  {
  }

  lemma BackFound(s: State, w: seq<bool>)
    returns (found: bool, ps: seq<Path>, vs: seq<int>, s1: State, rest: seq<bool>)
    requires s.at == Coding1 && Waiting(s) && s.len == [] && 0 <= Capacity(s) < N_LIMIT
    requires |s.inUse| == 256 && Chars(s.inUse) != []
    ensures !found ==> Fails(Drive(s, w), DataError)
    ensures found ==> BackGood(s, ps, vs)
    ensures found ==>
      w == PathsBits(ps) + (SymbolsBits(s.selector, Lens(ps, |Chars(s.inUse)| + 2), 0, vs) + rest)
    ensures found ==> Drive(s, w) == Done(Ok, s1, rest) && BackReady(s, vs, s1)
  {
    hide AllTables, BackGood, BackReady, Before, Capacity, Chars, ColumnRead, Drive, FirstSymbol, Fits, GoodPaths,
      Lens, Moves, NInUse, Onward, PathsBits, SameBlock, StartSymbol, SymbolsBits, TablesOnly, Tracks, Unread,
      Waiting, Whole;
    var t, x;
    InUseIs(s);
    found, ps, t, x := PathsFound(s, w);
    vs, s1, rest := [], s, x;
    if found {
      FirstFacts(s, t);
      AllTablesFacts(t);
      var o := BeforeFirst(t);
      assert [] + Lens(ps, |Chars(s.inUse)| + 2) == Lens(ps, |Chars(s.inUse)| + 2);
      found, vs, s1, rest := DataFound(o, 0, 1, Unread(s.inUse), x);
      if found {
        BackWhole(s, o, ps, vs);
        BackFacts(s, ps, vs);
        BackFrom(s, o, vs, s1);
      }
    }
  }

  lemma BackReads(s: State, ps: seq<Path>, vs: seq<int>, rest: seq<bool>) returns (s1: State)
    requires s.at == Coding1 && Waiting(s) && s.len == [] && 0 <= Capacity(s) < N_LIMIT
    requires |s.inUse| == 256 && Chars(s.inUse) != [] && BackGood(s, ps, vs)
    ensures Drive(s, PathsBits(ps) + (SymbolsBits(s.selector, Lens(ps, |Chars(s.inUse)| + 2), 0, vs) + rest))
      == Done(Ok, s1, rest)
    ensures BackReady(s, vs, s1)
  {
    hide AllTables, BackGood, BackReady, Before, Capacity, Chars, ColumnRead, Drive, FirstSymbol, Fits, GoodPaths,
      Lens, Moves, NInUse, Onward, PathsBits, SameBlock, StartSymbol, SymbolsBits, TablesOnly, Tracks, Waiting, Whole;
    InUseIs(s);
    BackFacts(s, ps, vs);
    GroupsSome(s);
    var x := SymbolsBits(s.selector, Lens(ps, |Chars(s.inUse)| + 2), 0, vs) + rest;
    var t := PathsRead(s, ps, x);
    FirstFacts(s, t);
    AllTablesFacts(t);
    var o := BeforeFirst(t);
    assert [] + Lens(ps, |Chars(s.inUse)| + 2) == Lens(ps, |Chars(s.inUse)| + 2);
    BackWhole(s, o, ps, vs);
    s1 := DataReads(o, 0, 1, Unread(s.inUse), vs, rest);
    BackFrom(s, o, vs, s1);
  }

  lemma GroupsSome(s: State)
    requires s.at == Coding1 && Waiting(s)
    ensures s.nGroups >= 2
  {
  }

  // The whole block.

  /** The state at the point of output holds what the block says. */
  ghost predicate Holds(s: State, x: Readable, s1: State)
    requires x.vs != [] && Unread(x.inUse).y != [] && Codes(Entries(x.vs), |Unread(x.inUse).y|)
  {
    && s1.at == Output && s1.blockSize100k == s.blockSize100k && s1.storedCombinedCRC == s.storedCombinedCRC
    && s1.storedBlockCRC == x.crc && s1.randomised == x.randomised && s1.origPtr == x.origPtr
    && InRange(Numbers(x), |Chars(x.inUse)|) && s1.tt == Spelled(x.inUse, Numbers(x))
  }

  /** The parts of a block and the state that each of them is read in. */
  lemma PartsAccept(s: State, x: Readable, t: State, capacity: int)
    requires x.crc < WORD && x.origPtr < 0x100_0000 && MiddleGood(x.groups, x.inUse, |x.paths|, x.ranks)
    requires t == Mapped(Fronted(s, x.crc, x.randomised, x.origPtr), x.groups, x.inUse, |x.paths|, x.ranks)
    requires capacity == Capacity(s)
    ensures Capacity(t) == capacity && t.inUse == x.inUse && t.len == [] && t.at == Coding1 && |t.inUse| == 256
    ensures Chars(t.inUse) != [] && t.selector == SelectorsOf(x)
    ensures BackGood(t, x.paths, x.vs) <==> Acceptable(x, capacity)
  {
    hide Chars, GoodPaths, Lens, Spellable, Undo, Symbols, Unlisted;
  }

  lemma PartsHold(s: State, x: Readable, t: State, s1: State)
    requires MiddleGood(x.groups, x.inUse, |x.paths|, x.ranks)
    requires t == Mapped(Fronted(s, x.crc, x.randomised, x.origPtr), x.groups, x.inUse, |x.paths|, x.ranks)
    requires x.vs != [] && Unread(x.inUse).y != [] && Codes(Entries(x.vs), |Unread(x.inUse).y|)
    requires BackReady(t, x.vs, s1)
    ensures Holds(s, x, s1)
  {
    hide Chars, Undo, Symbols, Flush;
  }

  lemma AcceptableParts(x: Readable, capacity: int)
    requires Acceptable(x, capacity)
    ensures Shaped(x) && x.crc < WORD && x.origPtr < 0x100_0000 && MiddleGood(x.groups, x.inUse, |x.paths|, x.ranks)
    ensures x.origPtr <= 10 + capacity
    ensures x.vs != [] && Unread(x.inUse).y != [] && Codes(Entries(x.vs), |Unread(x.inUse).y|)
  {
    hide Chars, GoodPaths, Lens, Spellable, Symbols, Unlisted;
  }

  lemma BitsJoin(x: Readable, rest: seq<bool>)
    requires Shaped(x)
    ensures ReadableBits(x) + rest == FrontBits(x.crc, x.randomised, x.origPtr,
      MiddleBits(x.groups, x.inUse, |x.paths|, x.ranks,
        PathsBits(x.paths) + (SymbolsBits(SelectorsOf(x), Lens(x.paths, |Chars(x.inUse)| + 2), 0, x.vs) + rest)))
  {
    hide BitsOf, Chars, GoodPaths, Lens, ListedBits, PathsBits, SelectorBits, Symbols, SymbolsBits, Unlisted, Word,
      WordBytes;
    var a, b, c, d := BitsOf(BLOCK_MAGIC), BitsOf(WordBytes(x.crc)), [x.randomised], Word(x.origPtr, 24);
    var e, f, g, h := x.groups, ListedBits(x.groups, x.inUse, 0), Word(|x.paths|, 3), Word(|x.ranks|, 15);
    var i, j := SelectorBits(x.ranks), PathsBits(x.paths);
    var k := SymbolsBits(SelectorsOf(x), Lens(x.paths, |Chars(x.inUse)| + 2), 0, x.vs);
    JoinFive(e, f, g, h, i, j + k, rest);
    Regroup2(j, k, rest);
    JoinFour(a, b, c, d, e + (f + (g + (h + (i + (j + k))))), rest);
  }

  lemma JoinFour(a: seq<bool>, b: seq<bool>, c: seq<bool>, d: seq<bool>, x: seq<bool>, rest: seq<bool>)
    ensures a + (b + (c + (d + x))) + rest == a + (b + (c + (d + (x + rest))))
  {
    Regroup2(a, b + (c + (d + x)), rest);
    Regroup2(b, c + (d + x), rest);
    Regroup2(c, d + x, rest);
    Regroup2(d, x, rest);
  }

  lemma JoinFive(a: seq<bool>, b: seq<bool>, c: seq<bool>, d: seq<bool>, e: seq<bool>, x: seq<bool>, rest: seq<bool>)
    ensures a + (b + (c + (d + (e + x)))) + rest == a + (b + (c + (d + (e + (x + rest)))))
  {
    Regroup2(a, b + (c + (d + (e + x))), rest);
    JoinFour(b, c, d, e, x, rest);
  }

  /** From the start of a block the run fails, or finds a block that is acceptable and holds it. */
  lemma BlockFound(s: State, w: seq<bool>) returns (found: bool, x: Readable, s1: State, rest: seq<bool>)
    requires s.at == BlkHdr(1) && 0 <= Capacity(s) < N_LIMIT && BitsOf(BLOCK_MAGIC) <= w
    ensures Waiting(s)
    ensures !found ==> Fails(Drive(s, w), DataError)
    ensures found ==> Acceptable(x, Capacity(s)) && w == ReadableBits(x) + rest
    ensures found ==> x.vs != [] && Unread(x.inUse).y != [] && Codes(Entries(x.vs), |Unread(x.inUse).y|)
    ensures found ==> Drive(s, w) == Done(Ok, s1, rest) && Holds(s, x, s1)
  {
    hide Acceptable, BackGood, BackReady, BitsOf, Capacity, Chars, Codes, Drive, Fails, FrontBits, Holds, Lens,
      MiddleBits, MiddleGood, PathsBits, ReadableBits, SelectorsOf, Shaped, SymbolsBits, Unread, Waiting;
    var crc, randomised, origPtr, w1;
    x, s1, rest := Readable(0, false, 0, [], [], [], [], []), s, [];
    found, crc, randomised, origPtr, w1 := FrontFound(s, w);
    if found {
      var t1 := Fronted(s, crc, randomised, origPtr);
      var groups, inUse, nGroups, ranks, w2;
      found, groups, inUse, nGroups, ranks, w2 := MiddleFound(t1, w1);
      if found {
        MiddleSizes(groups, inUse, nGroups, ranks);
        var t2 := Mapped(t1, groups, inUse, nGroups, ranks);
        SameCapacity(s, t2);
        var ps, vs;
        found, ps, vs, s1, rest := BackFound(t2, w2);
        if found {
          x := Readable(crc, randomised, origPtr, groups, inUse, ranks, ps, vs);
          BackFacts(t2, ps, vs);
          PartsAccept(s, x, t2, Capacity(s));
          AcceptableParts(x, Capacity(s));
          PartsHold(s, x, t2, s1);
          BitsJoin(x, rest);
        }
      }
    }
  }

  lemma MiddleSizes(groups: seq<bool>, inUse: seq<bool>, nGroups: nat, ranks: seq<nat>)
    requires MiddleGood(groups, inUse, nGroups, ranks)
    ensures |groups| == 16 && |inUse| == 256 && Chars(inUse) != [] && Below(ranks, nGroups)
  {
  }

  /** The bits of an acceptable block, whatever follows, are read as that block. */
  lemma BlockReads(s: State, x: Readable, rest: seq<bool>) returns (s1: State)
    requires s.at == BlkHdr(1) && 0 <= Capacity(s) < N_LIMIT && Acceptable(x, Capacity(s))
    ensures Waiting(s) && Shaped(x)
    ensures x.vs != [] && Unread(x.inUse).y != [] && Codes(Entries(x.vs), |Unread(x.inUse).y|)
    ensures Drive(s, ReadableBits(x) + rest) == Done(Ok, s1, rest) && Holds(s, x, s1)
  {
    hide Acceptable, BackGood, BackReady, BitsOf, Capacity, Chars, Codes, Drive, FrontBits, Holds, Lens, MiddleBits,
      MiddleGood, PathsBits, ReadableBits, SelectorsOf, Shaped, SymbolsBits, Unread, Waiting;
    AcceptableParts(x, Capacity(s));
    MiddleSizes(x.groups, x.inUse, |x.paths|, x.ranks);
    ShapedPaths(x);
    var w2 := PathsBits(x.paths) + (SymbolsBits(SelectorsOf(x), Lens(x.paths, |Chars(x.inUse)| + 2), 0, x.vs) + rest);
    var w1 := MiddleBits(x.groups, x.inUse, |x.paths|, x.ranks, w2);
    BitsJoin(x, rest);
    FrontReads(s, x.crc, x.randomised, x.origPtr, w1);
    var t1 := Fronted(s, x.crc, x.randomised, x.origPtr);
    MiddleReads(t1, x.groups, x.inUse, |x.paths|, x.ranks, w2);
    var t2 := Mapped(t1, x.groups, x.inUse, |x.paths|, x.ranks);
    PartsAccept(s, x, t2, Capacity(s));
    s1 := BackReads(t2, x.paths, x.vs, rest);
    PartsHold(s, x, t2, s1);
  }

  lemma ShapedPaths(x: Readable)
    requires Shaped(x)
    ensures GoodPaths(x.paths, |Chars(x.inUse)| + 2) && Below(x.ranks, |x.paths|)
  {
  }

  /** The bits begin with those of a block that is acceptable for a block size. */
  ghost predicate BeginsBlock(w: seq<bool>, capacity: int) {
    exists x, rest :: Acceptable(x, capacity) && w == ReadableBits(x) + rest
  }

  lemma SomeBlock(w: seq<bool>, capacity: int) returns (x: Readable, rest: seq<bool>)
    requires BeginsBlock(w, capacity)
    ensures Acceptable(x, capacity) && Shaped(x) && w == ReadableBits(x) + rest
  {
    hide Chars, GoodPaths, Lens, Spellable, Symbols, Undo, Unlisted, ReadableBits;
    x, rest :| Acceptable(x, capacity) && w == ReadableBits(x) + rest;
  }

  lemma BlockBegins(x: Readable, rest: seq<bool>, w: seq<bool>, capacity: int)
    requires Acceptable(x, capacity) && w == ReadableBits(x) + rest
    ensures BeginsBlock(w, capacity)
  {
    hide Chars, GoodPaths, Lens, Spellable, Symbols, Undo, Unlisted, ReadableBits;
  }

  /** The decompressor completes a block exactly for the bits of an acceptable one. */
  lemma BlockExactly(s: State, w: seq<bool>)
    requires s.at == BlkHdr(1) && 1 <= s.blockSize100k <= 9
    ensures Waiting(s)
    ensures Drive(s, w).Done? && Drive(s, w).code == Ok <==> BeginsBlock(w, Capacity(s))
  {
    hide Acceptable, BeginsBlock, BitsOf, Drive, Holds, ReadableBits, Waiting;
    BlockStart(s, w);
    if BitsOf(BLOCK_MAGIC) <= w {
      var found, x, s1, rest := BlockFound(s, w);
      if found { BlockBegins(x, rest, w, Capacity(s)); }
    } else if BitsOf(END_MAGIC) <= w {
      EndCode(s, w);
    }
    if BeginsBlock(w, Capacity(s)) {
      var x, rest := SomeBlock(w, Capacity(s));
      var s1 := BlockReads(s, x, rest);
    }
  }

  /** After the magic number of the end no block is completed. */
  lemma EndCode(s: State, w: seq<bool>)
    requires s.at == BlkHdr(1) && BitsOf(END_MAGIC) <= w
    ensures Waiting(s)
    ensures |w| >= 80 ==> var u := Value(w[48..80]);
      && u < WORD && w == TrailerBits(u) + w[80..]
      && Drive(s, w) == Done(StreamEnd, s.(storedCombinedCRC := u, at := Idle), w[80..])
    ensures |w| < 80 ==> Drive(s, w).Short?
  {
    hide BitsOf, Drive, TrailerBits, Value, Waiting, Word, WordBytes;
    BlockStart(s, w);
    var t := s.(storedCombinedCRC := 0, at := CombCrc(1));
    var w1 := w[48..];
    assert w == BitsOf(END_MAGIC) + w1;
    if |w1| < 32 {
      var x := Zeros(32 - |w1|);
      CombinedRead(t, w1 + x);
      EndPads(t, w1, x);
    } else {
      CombinedRead(t, w1);
      assert w[48..80] == w1[..32] && w1[32..] == w[80..];
      TrailerJoins(w, Value(w1[..32]));
    }
  }

  lemma TrailerJoins(w: seq<bool>, u: nat)
    requires |w| >= 80 && BitsOf(END_MAGIC) <= w && w[48..80] == BitsOf(WordBytes(u))
    ensures w == TrailerBits(u) + w[80..]
  {
    hide BitsOf, WordBytes;
    assert w[..48] == BitsOf(END_MAGIC);
    assert w == w[..48] + w[48..80] + w[80..];
  }

  lemma EndPads(t: State, w: seq<bool>, x: seq<bool>)
    requires Waiting(t) && Drive(t, w + x).Done? && Drive(t, w + x).rest == [] && x != []
    ensures Drive(t, w).Short?
  {
    hide Drive, Good;
    DriveSplit(t, w, x);
  }
}
