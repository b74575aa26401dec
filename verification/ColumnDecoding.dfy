/** The decompressor's column is the one the symbols of the block stand for. */
module ColumnDecoding {
  import opened Bits
  import opened BlockDecoding
  import opened CanonicalCodes
  import opened Coroutine
  import opened Decompressor
  import opened MoveToFront
  import opened PrefixCost
  import SelectorCells
  import opened StreamFormat
  import opened SymbolDecoding
  import opened SymbolMaps

  /** The byte values that numbers stand for. */
  function Spelled(inUse: seq<bool>, out: seq<int>): seq<int>
    requires forall i :: 0 <= i < |out| ==> 0 <= out[i] < |Chars(inUse)|
  {
    seq(|out|, i requires 0 <= i < |out| => Chars(inUse)[out[i]])
  }

  ghost predicate InRange(s: seq<int>, m: int) {
    forall i :: 0 <= i < |s| ==> 0 <= s[i] < m
  }

  /** The machine has decoded what u has; label 3 waits amid a run. */
  ghost predicate Tracks(s: State, u: Undoing, k: int) {
    && |s.y| == 256 && 1 <= NInUse(s) == |u.y| && NInUse(s) <= 256 && s.y[..NInUse(s)] == u.y
    && InRange(u.y, NInUse(s)) && InRange(u.out, NInUse(s)) && s.tt == Spelled(s.inUse, u.out)
    && (if k == 3 then u.run >= 1 && s.es + 1 == u.run && s.N == u.unit else u.run == 0 && u.unit == 1)
  }

  /** Room for what has been decoded, and run digits that stay small. */
  ghost predicate Fits(u: Undoing, capacity: int) {
    |u.out| + u.run <= capacity < N_LIMIT && 1 <= u.unit <= u.run + 1
  }

  lemma MovedStart(y: seq<int>, m: int, k: int)
    requires 0 <= k < m <= |y|
    ensures Moved(y, k)[..m] == Moved(y[..m], k)
  {
  }

  lemma MovedRange(y: seq<int>, k: int, m: int)
    requires 0 <= k < |y| && InRange(y, m)
    ensures InRange(Moved(y, k), m)
  {
  }

  lemma SpelledMore(inUse: seq<bool>, out: seq<int>, c: int, n: nat)
    requires InRange(out, |Chars(inUse)|) && 0 <= c < |Chars(inUse)|
    ensures InRange(out + Repeat(c, n), |Chars(inUse)|)
    ensures Spelled(inUse, out + Repeat(c, n)) == Spelled(inUse, out) + Repeat(Chars(inUse)[c], n)
    ensures InRange(out + [c], |Chars(inUse)|)
    ensures Spelled(inUse, out + [c]) == Spelled(inUse, out) + [Chars(inUse)[c]]
  {
    hide Chars;
  }

  /** One more run digit. */
  lemma DigitTracks(s: State, u: Undoing, k: int, sym: int)
    requires Tracks(s, u, k) && Fits(u, Capacity(s)) && Tabled(s) && (sym == RUNA || sym == RUNB)
    ensures var s1 := s.(es := u.run - 1 + (if sym == RUNA then 1 else 2) * u.unit, N := u.unit * 2);
      Tabled(s1) && Take(s, k, sym) == StartSymbol(s1, 3) && Tracks(s1, Undo1(u, sym), 3)
  {
    hide Chars, StartSymbol;
  }

  /** The end of a run, if there is one. */
  lemma FlushTracks(s: State, u: Undoing)
    requires Tracks(s, u, 3) && Fits(u, Capacity(s)) && Tabled(s)
    ensures var s1 := s.(tt := Spelled(s.inUse, Flush(u).out), es := 0);
      InRange(Flush(u).out, NInUse(s)) && PutRun(s) == Continue(s1) && Tabled(s1) && Tracks(s1, Flush(u), 1)
  {
    hide Chars;
    SpelledMore(s.inUse, u.out, u.y[0], u.run);
    assert s.y[0] == u.y[0];
  }

  /** A symbol other than a run digit, outside a run. */
  lemma EntryTracks(s: State, u: Undoing, sym: int)
    requires Tracks(s, u, 1) && |u.out| < Capacity(s) && Tabled(s) && 2 <= sym <= NInUse(s)
    ensures var s1 := s.(y := Moved(s.y, sym - 1), tt := s.tt + [CharOf(s, s.y[sym - 1])]);
      Tabled(s1) && TakeSymbol(s, sym) == StartSymbol(s1, 5) && Tracks(s1, Undo1(u, sym), 5)
  {
    hide Chars, StartSymbol, Moved;
    var c := s.y[sym - 1];
    assert c == u.y[sym - 1];
    SpelledMore(s.inUse, u.out, c, 0);
    MovedStart(s.y, NInUse(s), sym - 1);
    MovedRange(u.y, sym - 1, NInUse(s));
    MovedEntries(s.y, sym - 1);
    assert u.out + Repeat(u.y[0], 0) == u.out;
  }

  /** Two states that differ only in what has been decoded. */
  ghost predicate SameFrame(s: State, s1: State) {
    s1 == s.(y := s1.y, tt := s1.tt, es := s1.es, N := s1.N)
  }

  lemma PlacedFrame(s: State, s1: State, b: Block, i: int)
    requires InPlace(s, b, i) && Tabled(s1) && SameFrame(s, s1)
    ensures InPlace(s1, b, i)
  {
    hide Tabled, Sendable;
  }

  /** Any symbol but the last: the machine and the abstract decoder stay in step. */
  lemma TakeTracks(s: State, u: Undoing, k: int, sym: int) returns (s1: State, k1: int)
    requires Tracks(s, u, k) && Fits(u, Capacity(s)) && Tabled(s) && 0 <= sym <= NInUse(s) && |u.y| == NInUse(s)
    requires k == 1 || k == 3 || k == 5
    requires Fits(Undo1(u, sym), Capacity(s))
    ensures (k1 == 3 || k1 == 5) && SameFrame(s, s1) && Tabled(s1) && Tracks(s1, Undo1(u, sym), k1)
    ensures Take(s, k, sym) == StartSymbol(s1, k1)
  {
    hide Chars, StartSymbol, Tabled, Moved;
    if sym == RUNA || sym == RUNB {
      DigitTracks(s, u, k, sym);
      k1 := 3;
      s1 := s.(es := u.run - 1 + (if sym == RUNA then 1 else 2) * u.unit, N := u.unit * 2);
    } else {
      k1 := 5;
      var f, v := s, u;
      if k == 3 {
        FlushTracks(s, u);
        f, v := s.(tt := Spelled(s.inUse, Flush(u).out), es := 0), Flush(u);
      } else {
        assert Flush(u) == u by { assert u.out + Repeat(u.y[0], 0) == u.out; }
      }
      EntryTracks(f, v, sym);
      FlushTwice(u);
      s1 := f.(y := Moved(f.y, sym - 1), tt := f.tt + [CharOf(f, f.y[sym - 1])]);
    }
  }

  lemma FlushTwice(u: Undoing)
    requires u.y != []
    ensures Flush(Flush(u)) == Flush(u)
  {
    assert Flush(u).out + Repeat(u.y[0], 0) == Flush(u).out;
  }

  /** The end symbol: the last run is output and the column is complete. */
  lemma EndTracks(s: State, u: Undoing, k: int) returns (s1: State)
    requires Tracks(s, u, k) && Fits(u, Capacity(s)) && Tabled(s) && (k == 1 || k == 3 || k == 5)
    ensures SameFrame(s, s1) && InRange(Flush(u).out, NInUse(s)) && s1.tt == Spelled(s.inUse, Flush(u).out)
    ensures Take(s, k, NInUse(s) + 1) == EndBlock(s1)
  {
    hide Chars, StartSymbol, Tabled;
    s1 := s;
    if k == 3 {
      FlushTracks(s, u);
      s1 := s.(tt := Spelled(s.inUse, Flush(u).out), es := 0);
    } else {
      assert Flush(u) == u by { assert u.out + Repeat(u.y[0], 0) == u.out; }
    }
  }

  /** Decoding only adds. */
  lemma {:induction false} UndoGrows(u: Undoing, vs: seq<int>)
    requires u.y != [] && Codes(vs, |u.y|) && 1 <= u.unit <= u.run + 1
    ensures var r := Undo(u, vs); |u.out| + u.run <= |r.out| + r.run && 1 <= r.unit <= r.run + 1
  {
    if vs != [] { UndoGrows(u, vs[..|vs| - 1]); }
  }

  lemma UndoFirst(u: Undoing, v: int, vs: seq<int>)
    requires u.y != [] && 0 <= v <= |u.y| && Codes(vs, |u.y|)
    ensures Codes([v] + vs, |u.y|) && |Undo1(u, v).y| == |u.y| && Undo(u, [v] + vs) == Undo(Undo1(u, v), vs)
  {
    UndoNext(u, [], v);
    assert [] + [v] == [v];
    UndoConcat(u, [v], vs);
  }

  /** The end symbol comes last and only there. */
  ghost predicate Ended(b: Block) {
    && |b.vs| >= 1 && b.vs[|b.vs| - 1] == |Chars(b.inUse)| + 1
    && forall i :: 0 <= i < |b.vs| - 1 ==> 0 <= b.vs[i] <= |Chars(b.inUse)|
  }

  /** The symbols from the i-th on, without the last. */
  function Rest(b: Block, i: int): seq<int>
    requires 0 <= i < |b.vs|
  {
    b.vs[i..|b.vs| - 1]
  }

  /** What the run over the symbols does not touch. */
  ghost predicate SameBlock(s: State, s1: State) {
    && s1.inUse == s.inUse && s1.origPtr == s.origPtr && s1.blockSize100k == s.blockSize100k
    && s1.storedBlockCRC == s.storedBlockCRC && s1.storedCombinedCRC == s.storedCombinedCRC
    && s1.randomised == s.randomised
  }

  /** The abstract decoder's final state is within the block's capacity. */
  ghost predicate Allowed(s: State, b: Block, i: int, u: Undoing) {
    && 0 <= i < |b.vs| && u.y != [] && |u.y| == NInUse(s) == |Chars(b.inUse)| && Ended(b) && Codes(Rest(b, i), |u.y|)
    && 1 <= u.unit <= u.run + 1
    && var r := Undo(u, Rest(b, i));
      s.origPtr < |r.out| + r.run <= Capacity(s) < N_LIMIT
  }

  lemma AllowedFits(s: State, b: Block, i: int, u: Undoing)
    requires Allowed(s, b, i, u)
    ensures Fits(u, Capacity(s))
  {
    hide Undo, Chars;
    UndoGrows(u, Rest(b, i));
  }

  lemma AllowedNext(s: State, s1: State, b: Block, i: int, u: Undoing)
    requires Allowed(s, b, i, u) && i + 1 < |b.vs| && SameBlock(s, s1)
    ensures 0 <= b.vs[i] <= |u.y| && Allowed(s1, b, i + 1, Undo1(u, b.vs[i]))
    ensures Undo(u, Rest(b, i)) == Undo(Undo1(u, b.vs[i]), Rest(b, i + 1))
  {
    hide Undo, Undo1, Chars, Moved, Codes;
    RestNext(b, i, |u.y|);
    UndoFirst(u, b.vs[i], Rest(b, i + 1));
    Undo1Unit(u, b.vs[i]);
  }

  lemma RestNext(b: Block, i: int, m: int)
    requires 0 <= i && i + 1 < |b.vs| && Codes(Rest(b, i), m)
    ensures Rest(b, i) == [b.vs[i]] + Rest(b, i + 1) && 0 <= b.vs[i] <= m && Codes(Rest(b, i + 1), m)
  {
    assert Rest(b, i)[0] == b.vs[i];
    var r := Rest(b, i + 1);
    forall k | 0 <= k < |r| ensures 0 <= r[k] <= m {
      assert r[k] == Rest(b, i)[k + 1];
    }
  }

  lemma Undo1Unit(u: Undoing, v: int)
    requires 1 <= u.unit <= u.run + 1 && u.y != [] && 0 <= v <= |u.y|
    ensures var r := Undo1(u, v); |r.y| == |u.y| && 1 <= r.unit <= r.run + 1
  {
    hide Moved;
  }

  lemma AllowedLast(s: State, b: Block, i: int, u: Undoing)
    requires Allowed(s, b, i, u) && i + 1 == |b.vs|
    ensures b.vs[i] == NInUse(s) + 1 && Codes(Rest(b, i), |u.y|) && Undo(u, Rest(b, i)) == u
    ensures s.origPtr < |Flush(u).out|
  {
    assert Rest(b, i) == [];
  }

  lemma PlaceFacts(s: State, b: Block, i: int, u: Undoing)
    requires InPlace(s, b, i) && Allowed(s, b, i, u)
    ensures Sendable(b) && 0 <= i < |b.vs| && u.y != [] && Codes(Rest(b, i), |u.y|) && s.inUse == b.inUse
  {
  }

  lemma DataParts(b: Block, i: int)
    requires Sendable(b) && 0 <= i < |b.vs|
    ensures DataBits(b, i) == SymbolBits(b, i) + if i + 1 == |b.vs| then [] else DataBits(b, i + 1)
  {
    hide SymbolBits, Sendable;
  }

  lemma AlikeKeeps(s: State, a: State, b: Block, i: int, u: Undoing, k: int)
    requires Alike(s, a) && Tracks(s, u, k) && Allowed(s, b, i, u)
    ensures Tracks(a, u, k) && Allowed(a, b, i, u) && SameBlock(s, a) && SameBlock(a, a)
    ensures NInUse(s) == NInUse(a) == |u.y|
  {
    hide Chars, Undo, Ended, Rest;
  }

  lemma FrameBlock(s: State, a: State, t: State)
    requires SameBlock(s, a) && SameFrame(a, t)
    ensures SameBlock(s, t) && SameBlock(a, t) && SameBlock(s, t.(at := Output)) && t.inUse == a.inUse == s.inUse
  {
  }

  lemma BlockTrans(s: State, t: State, r: State)
    requires SameBlock(s, t) && SameBlock(t, r)
    ensures SameBlock(s, r) && NInUse(s) == NInUse(r) && r.inUse == s.inUse
  {
  }

  /** The column is long enough for the pointer: the block is ready. */
  lemma BlockEnds(e: State, out: seq<int>, x: seq<bool>)
    requires InRange(out, |Chars(e.inUse)|) && e.tt == Spelled(e.inUse, out) && e.origPtr < |out|
    ensures Moves(EndBlock(e)) && Onward(EndBlock(e), x) == Done(Ok, e.(at := Output), x)
  {
    hide Chars;
  }

  /** The coded symbols decode to the column they stand for. */
  lemma {:induction false} DataDecodes(s: State, b: Block, i: int, k: int, u: Undoing, x: seq<bool>) returns (s1: State)
    requires InPlace(s, b, i) && (k == 1 || k == 3 || k == 5) && Tracks(s, u, k) && Allowed(s, b, i, u)
    ensures Sendable(b) && Moves(StartSymbol(s, k)) && u.y != [] && Codes(Rest(b, i), |u.y|)
    ensures Onward(StartSymbol(s, k), DataBits(b, i) + x) == Done(Ok, s1, x)
    ensures s1.at == Output && SameBlock(s, s1)
    ensures InRange(Flush(Undo(u, Rest(b, i))).out, |Chars(s.inUse)|)
    ensures s1.tt == Spelled(s.inUse, Flush(Undo(u, Rest(b, i))).out)
    decreases |b.vs| - i
  {
    hide *;
    PlaceFacts(s, b, i, u);
    var v := b.vs[i];
    var w := if i + 1 == |b.vs| then [] else DataBits(b, i + 1);
    DataParts(b, i);
    assert SymbolBits(b, i) + w + x == SymbolBits(b, i) + (w + x);
    PlacedFacts(s, b, i);
    var a := SymbolDecodes(s, b, i, k, w + x);
    AlikeKeeps(s, a, b, i, u, k);
    PlacedFacts(a, b, i + 1);
    AllowedFits(a, b, i, u);
    if i + 1 == |b.vs| {
      AllowedLast(a, b, i, u);
      var e := EndTracks(a, u, k);
      FrameBlock(s, a, e);
      s1 := e.(at := Output);
      InUseSize(a);
      BlockEnds(e, Flush(u).out, x);
      assert w + x == x;
    } else {
      AllowedNext(a, a, b, i, u);
      AllowedFits(a, b, i + 1, Undo1(u, v));
      var t, k1 := TakeTracks(a, u, k, v);
      FrameBlock(s, a, t);
      AllowedNext(a, t, b, i, u);
      PlacedFrame(a, t, b, i + 1);
      s1 := DataDecodes(t, b, i + 1, k1, Undo1(u, v), x);
      BlockTrans(s, t, s1);
    }
  }

  lemma InUseSize(s: State)
    ensures NInUse(s) == |Chars(s.inUse)|
  {
  }

  // The whole block.

  /** Up to the mapping table: the magic number, the check value, the flag and the pointer. */
  lemma FrontDecodes(s: State, b: Block, x: seq<bool>)
    requires s.at == BlkHdr(1) && b.crc < WORD && b.origPtr < 0x100_0000 && b.origPtr <= 10 + Capacity(s)
    ensures var s1 := s.(storedBlockCRC := b.crc, randomised := false, origPtr := b.origPtr, inUse16 := [],
      at := Mapping1);
      && Waiting(s) && Waiting(s1)
      && Drive(s, BitsOf(BLOCK_MAGIC) + (BitsOf(WordBytes(b.crc)) + ([false] + (Word(b.origPtr, 24) + x)))) ==
        Drive(s1, x)
  {
    hide *;
    var w1 := Word(b.origPtr, 24) + x;
    var w2 := [false] + w1;
    var w3 := BitsOf(WordBytes(b.crc)) + w2;
    ZeroLeads(b.crc, b.origPtr);
    assert BLOCK_MAGIC[0..] == BLOCK_MAGIC && WordBytes(b.crc)[0..] == WordBytes(b.crc);
    assert PointerBytes(b.origPtr)[0..] == PointerBytes(b.origPtr);
    BlkHdrWaits(s);
    MagicDecodes(s, 1, w3);
    var t1 := s.(storedBlockCRC := 0, at := BlkCrc(1));
    CrcDecodes(t1, b.crc, 1, w2);
    var t2 := s.(storedBlockCRC := b.crc, at := RandBit);
    RandBitDecodes(t2, w1);
    var t3 := t2.(randomised := false, origPtr := 0, at := OrigPtr(1));
    SameCapacity(s, t3);
    PointerBits(b.origPtr);
    PointerDecodes(t3, b.origPtr, x);
  }

  lemma ZeroLeads(u: nat, v: nat)
    requires u < WORD && v < 0x100_0000
    ensures Leading(u, 0) == 0 && PointerLeading(v, 0) == 0
  {
  }

  lemma BlkHdrWaits(s: State)
    requires s.at == BlkHdr(1)
    ensures Waiting(s)
  {
  }

  lemma SameCapacity(s: State, t: State)
    requires s.blockSize100k == t.blockSize100k
    ensures Capacity(s) == Capacity(t)
  {
  }

  /** The mapping table and the selectors. */
  lemma MiddleDecodes(s: State, b: Block, x: seq<bool>)
    requires s.at == Mapping1 && s.inUse16 == [] && Sendable(b)
    ensures var s1 := s.(inUse16 := MapHead(b.inUse), inUse := b.inUse, i := 16, j := 0, nGroups := |b.len|,
                         nSelectors := |b.selectors|, selectorMtf := SelectorRanks(b), selector := b.selectors,
                         len := [], at := Coding1);
      && Waiting(s) && Waiting(s1)
      && Drive(s, MapHead(b.inUse) + (MapBody(b.inUse, 0) + (Word(|b.len|, 3) + (Word(|b.selectors|, 15)
                  + (SelectorBits(SelectorRanks(b)) + x))))) == Drive(s1, x)
  {
    hide Below, Chars, Drive, InSelector, MapBody, MapHead, Moves, NextMap, Onward, SelectorBits, SelectorRanks,
      SelectorsDone, Sendable, Waiting, Word;
    SendableFacts(b);
    var js := SelectorRanks(b);
    var w1 := SelectorBits(js) + x;
    var w2 := Word(|b.len|, 3) + (Word(|b.selectors|, 15) + w1);
    var h := MapHead(b.inUse);
    assert h[..0] == [] && h[0..] == h && b.inUse[..16 * 0] == [];
    MapHeadDecodes(s, h, MapBody(b.inUse, 0) + w2);
    var t1 := s.(inUse16 := h, inUse := []);
    MapBodyDecodes(t1, b.inUse, 0, w2);
    var t2 := WithMap(t1, b.inUse);
    GroupsDecode(t2, |b.len|, |b.selectors|, w1);
    var t3 := t2.(nGroups := |b.len|, nSelectors := |b.selectors|, j := 0, selectorMtf := [], at := Selector3);
    assert js[..0] == [] && js[0..] == js;
    SelectorStart(t3, b);
    SelectorsDecode(t3, js, x);
    SelectorsUndone(t3.(selectorMtf := js), b);
  }

  lemma SendableFacts(b: Block)
    requires Sendable(b)
    ensures |b.inUse| == 256 && |Chars(b.inUse)| >= 1 && 2 <= |b.len| <= 6 && 1 <= |b.selectors| < 0x8000
    ensures |MapHead(b.inUse)| == 16 && |SelectorRanks(b)| == |b.selectors| && b.crc < WORD && b.origPtr < 0x100_0000
    ensures Below(SelectorRanks(b), |b.len|) && |b.vs| >= 1
  {
    hide Chars, KraftSum, Ranks, MapHead;
    SelectorsListed(b);
  }

  lemma SelectorStart(s: State, b: Block)
    requires Sendable(b) && s.at == Selector3 && s.inUse == b.inUse && s.nGroups == |b.len|
    requires s.nSelectors == |b.selectors| && s.j == 0 && s.selectorMtf == []
    ensures |SelectorRanks(b)| >= 1 && InSelector(s, SelectorRanks(b), SelectorRanks(b)[0])
  {
    hide Chars, KraftSum, SelectorRanks;
    SendableFacts(b);
  }

  /** Undoing the ranks of the selectors gives the selectors. */
  lemma SelectorsUndone(s: State, b: Block)
    requires Sendable(b) && s.nGroups == |b.len| && s.selectorMtf == SelectorRanks(b)
    ensures Below(s.selectorMtf, s.nGroups) && SelectorsDone(s) == s.(selector := b.selectors, len := [], at := Coding1)
  {
    hide Chars, KraftSum;
    SendableFacts(b);
    SelectorsListed(b);
    SymbolsOfRanks(Identity(|b.len|), b.selectors);
  }

  /** The abstract decoder at the start of a block. */
  function Fresh(b: Block): Undoing {
    Undoing(Identity(|Chars(b.inUse)|), 0, 1, [])
  }

  /** What the block's symbols stand for fits a block and contains the pointer. */
  ghost predicate Proper(b: Block, capacity: int) {
    && Sendable(b) && Ended(b) && Codes(Rest(b, 0), |Fresh(b).y|)
    && var r := Undo(Fresh(b), Rest(b, 0));
      b.origPtr < |r.out| + r.run <= capacity < N_LIMIT
  }

  /** The byte values of the column. */
  ghost function Column(b: Block): seq<int>
    requires Sendable(b) && Ended(b) && Codes(Rest(b, 0), |Fresh(b).y|)
    requires InRange(Flush(Undo(Fresh(b), Rest(b, 0))).out, |Chars(b.inUse)|)
  {
    Spelled(b.inUse, Flush(Undo(Fresh(b), Rest(b, 0))).out)
  }

  /** The state before the first symbol. */
  function Opened(s: State, len: seq<seq<nat>>): State
    requires |len| >= 1 && forall t :: 0 <= t < |len| ==> len[t] != []
  {
    WithTables(s, len).(groupNo := -1, groupPos := 0, y := Identity(256), tt := [])
  }

  lemma OpenedFacts(s: State, b: Block)
    requires Proper(b, Capacity(s)) && s.at == Coding1 && s.inUse == b.inUse && s.nGroups == |b.len|
    requires s.nSelectors == |b.selectors| && s.selector == b.selectors && s.len == [] && s.origPtr == b.origPtr
    ensures InTables(s, b.len)
    ensures forall t :: 0 <= t < |b.len| ==> b.len[t] != []
    ensures var o := Opened(s, b.len);
      InPlace(o, b, 0) && Tracks(o, Fresh(b), 1) && Allowed(o, b, 0, Fresh(b)) && SameBlock(s, o)
  {
    hide KraftSum, Chars, Undo;
    IdentityBelow(256, []);
    IdentityBelow(|Chars(b.inUse)|, []);
    CharsFew(b.inUse);
    assert Identity(256)[..|Chars(b.inUse)|] == Identity(|Chars(b.inUse)|);
    assert b.len[..0] == [];
    assert Spelled(b.inUse, []) == [];
  }

  /** The code tables and the symbols. */
  lemma BackDecodes(s: State, b: Block, x: seq<bool>) returns (s1: State)
    requires Proper(b, Capacity(s)) && s.at == Coding1 && s.inUse == b.inUse && s.nGroups == |b.len|
    requires s.nSelectors == |b.selectors| && s.selector == b.selectors && s.len == [] && s.origPtr == b.origPtr
    ensures Waiting(s) && Sendable(b) && (forall t :: 0 <= t < |b.len| ==> b.len[t] != [])
    ensures Drive(s, TablesBits(b.len) + (DataBits(b, 0) + x)) == Done(Ok, s1, x)
    ensures s1.at == Output && SameBlock(s, s1) && Ended(b) && Codes(Rest(b, 0), |Fresh(b).y|)
    ensures InRange(Flush(Undo(Fresh(b), Rest(b, 0))).out, |Chars(b.inUse)|) && s1.tt == Column(b)
  {
    hide Allowed, Capacity, Chars, Codes, DataBits, Drive, Ended, Flush, Fresh, GoodTables, Identity, InPlace,
      InRange, InTables, Moves, NInUse, Onward, Proper, Rest, SameBlock, Selected, Sendable, Spelled, StartSymbol,
      Tabled, TablesBits, Tracks, Undo, Waiting, WithTables;
    ProperFacts(b, Capacity(s));
    OpenedFacts(s, b);
    var o := Opened(s, b.len);
    assert b.len[0..] == b.len;
    TablesDecode(s, b.len, DataBits(b, 0) + x);
    s1 := DataDecodes(o, b, 0, 1, Fresh(b), x);
    BlockTrans(s, o, s1);
    SameInUseAs(s, o);
  }

  lemma ProperFacts(b: Block, capacity: int)
    requires Proper(b, capacity)
    ensures Sendable(b) && Ended(b) && |b.vs| >= 1 && |b.len| >= 1 && Codes(Rest(b, 0), |Fresh(b).y|)
    ensures Fresh(b).y != []
  {
  }

  lemma SameInUseAs(s: State, o: State)
    requires SameBlock(s, o)
    ensures o.inUse == s.inUse
  {
  }

  lemma Regroup(a: seq<bool>, b: seq<bool>, c: seq<bool>, d: seq<bool>, x: seq<bool>)
    ensures a + b + c + d + x == a + (b + (c + (d + x)))
  {
  }

  lemma Regroup5(a: seq<bool>, b: seq<bool>, c: seq<bool>, d: seq<bool>, e: seq<bool>, x: seq<bool>)
    ensures a + b + c + d + e + x == a + (b + (c + (d + (e + x))))
  {
    Regroup(a, b, c, d, e + x);
  }

  lemma BlockParts(b: Block, x: seq<bool>)
    requires Sendable(b)
    ensures forall t :: 0 <= t < |b.len| ==> b.len[t] != []
    ensures BlockBits(b) + x
      == BitsOf(BLOCK_MAGIC) + (BitsOf(WordBytes(b.crc)) + ([false] + (Word(b.origPtr, 24)
         + (MapHead(b.inUse) + (MapBody(b.inUse, 0) + (Word(|b.len|, 3) + (Word(|b.selectors|, 15)
         + (SelectorBits(SelectorRanks(b)) + (TablesBits(b.len) + (DataBits(b, 0) + x))))))))))
  {
    hide *;
    SendableTables(b);
    BlockBitsAre(b);
    var a1, a2, a4 := BitsOf(BLOCK_MAGIC), BitsOf(WordBytes(b.crc)), Word(b.origPtr, 24);
    var m1, m2, m3, m4, m5 := MapHead(b.inUse), MapBody(b.inUse, 0), Word(|b.len|, 3), Word(|b.selectors|, 15),
      SelectorBits(SelectorRanks(b));
    var d1, d2 := TablesBits(b.len), DataBits(b, 0);
    var front := a1 + a2 + [false] + a4;
    var y := d1 + (d2 + x);
    Regroup3(front + m1 + m2 + m3 + m4 + m5, d1, d2, x);
    Regroup2(front + m1 + m2 + m3 + m4, m5, y);
    Regroup5(front, m1, m2, m3, m4, m5 + y);
    Regroup(a1, a2, [false], a4, m1 + (m2 + (m3 + (m4 + (m5 + y)))));
  }

  lemma Regroup2(a: seq<bool>, b: seq<bool>, x: seq<bool>)
    ensures a + b + x == a + (b + x)
  {
  }

  lemma Regroup3(a: seq<bool>, b: seq<bool>, c: seq<bool>, x: seq<bool>)
    ensures a + b + c + x == a + (b + (c + x))
  {
  }

  lemma SendableTables(b: Block)
    requires Sendable(b)
    ensures |b.inUse| == 256 && |b.vs| >= 1 && forall t :: 0 <= t < |b.len| ==> b.len[t] != []
  {
  }

  lemma BlockBitsAre(b: Block)
    requires Sendable(b)
    ensures |b.inUse| == 256 && forall t :: 0 <= t < |b.len| ==> b.len[t] != []
    ensures BlockBits(b) == BitsOf(BLOCK_MAGIC) + BitsOf(WordBytes(b.crc)) + [false] + Word(b.origPtr, 24)
      + MapHead(b.inUse) + MapBody(b.inUse, 0)
      + Word(|b.len|, 3) + Word(|b.selectors|, 15) + SelectorBits(SelectorRanks(b))
      + TablesBits(b.len) + DataBits(b, 0)
  {
  }

  /** The bits of a block, whatever follows them, bring the machine from the start of a block to
      the point of output, with the block's column, pointer and check value. */
  lemma BlockDecodes(s: State, b: Block, x: seq<bool>) returns (s1: State)
    requires s.at == BlkHdr(1) && Proper(b, Capacity(s))
    ensures Waiting(s) && Sendable(b) && Drive(s, BlockBits(b) + x) == Done(Ok, s1, x)
    ensures s1.at == Output && s1.blockSize100k == s.blockSize100k && s1.storedCombinedCRC == s.storedCombinedCRC
    ensures s1.storedBlockCRC == b.crc && s1.origPtr == b.origPtr && !s1.randomised && s1.nSelectors == |b.selectors|
    ensures Ended(b) && Codes(Rest(b, 0), |Fresh(b).y|)
    ensures InRange(Flush(Undo(Fresh(b), Rest(b, 0))).out, |Chars(b.inUse)|) && s1.tt == Column(b)
  {
    hide Below, BitsOf, BlockBits, Capacity, Chars, Codes, Column, DataBits, Drive, Ended, Flush, Fresh, InRange,
      MapBody, MapHead, Proper, Rest, SelectorBits, SelectorRanks, Sendable, TablesBits, Undo, Waiting, Word,
      WordBytes;
    ProperFacts(b, Capacity(s));
    SendableFacts(b);
    SendableTables(b);
    BlkHdrWaits(s);
    PointerSmall(b, Capacity(s));
    var w3 := TablesBits(b.len) + (DataBits(b, 0) + x);
    var w2 := MapHead(b.inUse) + (MapBody(b.inUse, 0) + (Word(|b.len|, 3) + (Word(|b.selectors|, 15)
              + (SelectorBits(SelectorRanks(b)) + w3))));
    BlockParts(b, x);
    FrontDecodes(s, b, w2);
    var t1 := s.(storedBlockCRC := b.crc, randomised := false, origPtr := b.origPtr, inUse16 := [], at := Mapping1);
    MiddleDecodes(t1, b, w3);
    var t2 := t1.(inUse16 := MapHead(b.inUse), inUse := b.inUse, i := 16, j := 0, nGroups := |b.len|,
                  nSelectors := |b.selectors|, selectorMtf := SelectorRanks(b), selector := b.selectors,
                  len := [], at := Coding1);
    SameCapacity(s, t2);
    s1 := BackDecodes(t2, b, x);
    SelectorCells.DoneCells(t2, w3);
  }

  lemma PointerSmall(b: Block, capacity: int)
    requires Proper(b, capacity)
    ensures b.origPtr <= 10 + capacity
  {
  }
}
