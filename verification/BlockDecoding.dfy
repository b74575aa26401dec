/** The decompressor, given the bits of a block, ends up with what the block carries. */
module BlockDecoding {
  import opened Bits
  import opened CanonicalCodes
  import opened CodeTables
  import opened Coroutine
  import opened Decompressor
  import opened MoveToFront
  import opened StreamFormat
  import opened SymbolMaps
  import opened Words

  // Single steps.

  /** The bits waited for, as a word. */
  lemma StepWord(s: State, v: nat, n: nat, x: seq<bool>)
    requires Waiting(s) && Need(s) == n && v < Pow2(n)
    ensures Moves(Advance(s, v))
    ensures Drive(s, Word(v, n) + x) == Onward(Advance(s, v), x)
  {
    hide *;
    var w := Word(v, n) + x;
    DriveNext(s, w);
    assert w[..n] == Word(v, n) && w[n..] == x;
    WordValue(v, n);
  }

  lemma StepBit(s: State, b: bool, x: seq<bool>)
    requires Waiting(s) && Need(s) == 1
    ensures Moves(Advance(s, if b then 1 else 0))
    ensures Drive(s, [b] + x) == Onward(Advance(s, if b then 1 else 0), x)
  {
    var v := if b then 1 else 0;
    assert Word(v, 1) == [b] by { assert Word(v / 2, 0) == []; }
    assert Pow2(1) == 2;
    hide Drive, Advance, Word;
    StepWord(s, v, 1, x);
  }

  lemma BytesFirst(b: nat, bytes: seq<nat>, x: seq<bool>)
    ensures BitsOf([b] + bytes) + x == Word(b, 8) + (BitsOf(bytes) + x)
  {
    assert ([b] + bytes)[1..] == bytes;
    BitsOfFirst([b] + bytes);
  }

  lemma StepByte(s: State, b: nat, bytes: seq<nat>, x: seq<bool>)
    requires Waiting(s) && Need(s) == 8 && b < 256
    ensures Moves(Advance(s, b))
    ensures Drive(s, BitsOf([b] + bytes) + x) == Onward(Advance(s, b), BitsOf(bytes) + x)
  {
    hide *;
    ByteSize();
    BytesFirst(b, bytes, x);
    StepWord(s, b, 8, BitsOf(bytes) + x);
  }

  lemma ByteSize()
    ensures Pow2(8) == 256
  {
    assert Pow2(4) == 16;
    Pow2Add(4, 4);
  }

  /** A byte that leads on to s1. */
  lemma ByteTo(s: State, b: nat, bytes: seq<nat>, s1: State, all: seq<nat>, x: seq<bool>)
    requires Waiting(s) && Need(s) == 8 && b < 256 && Advance(s, b) == Continue(s1) && all == [b] + bytes
    ensures Waiting(s1) && Drive(s, BitsOf(all) + x) == Drive(s1, BitsOf(bytes) + x)
  {
    hide Advance, BitsOf, Drive, Good, Need, Waiting;
    StepByte(s, b, bytes, x);
  }

  lemma LastByteTo(s: State, b: nat, s1: State, x: seq<bool>)
    requires Waiting(s) && Need(s) == 8 && b < 256 && Advance(s, b) == Continue(s1)
    ensures Waiting(s1) && Drive(s, BitsOf([b]) + x) == Drive(s1, x)
  {
    hide *;
    assert [b] == [b] + [];
    ByteTo(s, b, [], s1, [b], x);
    NoBits();
    assert [] + x == x;
  }

  /** Labels whose bits are a byte of a header or trailer. */
  ghost predicate ByteLabel(s: State) {
    s.at.Magic? || s.at.BlkHdr? || s.at.BlkCrc? || s.at.OrigPtr? || s.at.EndHdr? || s.at.CombCrc?
  }

  lemma ByteAdvance(s: State, v: nat)
    requires ByteLabel(s)
    ensures Waiting(s) && Need(s) == 8 && Advance(s, v) == AdvanceHeader(s, v)
  {
  }

  // The stream header.

  lemma HeaderStep(s: State, k: int, i: int)
    requires 1 <= i <= 4 && s.at == Magic(i) && 1 <= k <= 9
    ensures |StreamHeader(k)| == 4 && 0 <= StreamHeader(k)[i - 1] < 256
    ensures AdvanceHeader(s, StreamHeader(k)[i - 1])
      == Continue(if i == 4 then s.(blockSize100k := k, at := BlkHdr(1)) else s.(at := Magic(i + 1)))
  {
  }

  lemma {:induction false} HeaderDecodes(s: State, k: int, i: int, x: seq<bool>)
    requires 1 <= i <= 4 && s.at == Magic(i) && 1 <= k <= 9
    ensures Waiting(s.(blockSize100k := k, at := BlkHdr(1)))
    ensures Drive(s, BitsOf(StreamHeader(k)[i - 1..]) + x) == Drive(s.(blockSize100k := k, at := BlkHdr(1)), x)
    decreases 4 - i
  {
    hide Advance, AdvanceHeader, BitsOf, Drive, Good, Need, StreamHeader, Waiting;
    var h := StreamHeader(k);
    HeaderStep(s, k, i);
    ByteAdvance(s, h[i - 1]);
    if i == 4 {
      assert h[3..] == [h[3]];
      LastByteTo(s, h[3], s.(blockSize100k := k, at := BlkHdr(1)), x);
    } else {
      var s1 := s.(at := Magic(i + 1));
      ByteTo(s, h[i - 1], h[i..], s1, h[i - 1..], x);
      HeaderDecodes(s1, k, i + 1, x);
    }
  }

  // The start of a block.

  lemma MagicStep(s: State, k: int)
    requires 1 <= k <= 6 && s.at == BlkHdr(k)
    ensures |BLOCK_MAGIC| == 6 && 0 <= BLOCK_MAGIC[k - 1] < 256 && Waiting(s) && Need(s) == 8
    ensures Advance(s, BLOCK_MAGIC[k - 1])
      == Continue(if k == 6 then s.(storedBlockCRC := 0, at := BlkCrc(1)) else s.(at := BlkHdr(k + 1)))
  {
  }

  lemma {:induction false} MagicDecodes(s: State, k: int, x: seq<bool>)
    requires 1 <= k <= 6 && s.at == BlkHdr(k)
    ensures var s1 := s.(storedBlockCRC := 0, at := BlkCrc(1));
      Waiting(s1) && Drive(s, BitsOf(BLOCK_MAGIC[k - 1..]) + x) == Drive(s1, x)
    decreases 6 - k
  {
    hide *;
    MagicStep(s, k);
    if k == 6 {
      assert BLOCK_MAGIC[5..] == [BLOCK_MAGIC[5]];
      LastByteTo(s, BLOCK_MAGIC[5], s.(storedBlockCRC := 0, at := BlkCrc(1)), x);
    } else {
      var s1 := s.(at := BlkHdr(k + 1));
      ByteTo(s, BLOCK_MAGIC[k - 1], BLOCK_MAGIC[k..], s1, BLOCK_MAGIC[k - 1..], x);
      MagicDecodes(s1, k + 1, x);
    }
  }

  /** The value of the first bytes of a word. */
  function Leading(u: nat, k: int): nat
    decreases 4 - k
  {
    if k <= 0 then 0 else if k >= 4 then u else Leading(u, k + 1) / 256
  }

  lemma LeadingNext(u: nat, k: int)
    requires u < WORD && 1 <= k <= 4
    ensures |WordBytes(u)| == 4 && Leading(u, k) == (Leading(u, k - 1) * 256 + WordBytes(u)[k - 1]) % WORD
    ensures |WordBytes(u)| == 4 && WordBytes(u)[k - 1] < 256 && Leading(u, 4) == u
  {
    assert Leading(u, k) / 256 == Leading(u, k - 1);
    assert WordBytes(u)[k - 1] == Leading(u, k) % 256;
    assert Leading(u, k) < WORD;
  }

  lemma {:induction false} CrcDecodes(s: State, u: nat, k: int, x: seq<bool>)
    requires 1 <= k <= 4 && s.at == BlkCrc(k) && u < WORD && s.storedBlockCRC == Leading(u, k - 1)
    ensures var s1 := s.(storedBlockCRC := u, at := RandBit);
      Waiting(s1) && Drive(s, BitsOf(WordBytes(u)[k - 1..]) + x) == Drive(s1, x)
    decreases 4 - k
  {
    hide Advance, BitsOf, BlockMagic, Capacity, Drive, EndMagic, Good, Leading, Need, Waiting, WordBytes;
    var b := WordBytes(u);
    LeadingNext(u, k);
    ByteAdvance(s, b[k - 1]);
    if k == 4 {
      assert b[3..] == [b[3]];
      LastByteTo(s, b[3], s.(storedBlockCRC := u, at := RandBit), x);
    } else {
      var s1 := s.(storedBlockCRC := Leading(u, k), at := BlkCrc(k + 1));
      ByteTo(s, b[k - 1], b[k..], s1, b[k - 1..], x);
      CrcDecodes(s1, u, k + 1, x);
    }
  }

  lemma BitTo(s: State, b: bool, w: seq<bool>, s1: State, x: seq<bool>)
    requires Waiting(s) && Need(s) == 1 && Advance(s, if b then 1 else 0) == Continue(s1)
    ensures Waiting(s1) && Drive(s, [b] + w + x) == Drive(s1, w + x)
  {
    hide Advance, Drive, Good, Need, Waiting;
    assert [b] + w + x == [b] + (w + x);
    StepBit(s, b, w + x);
  }

  lemma RandBitDecodes(s: State, x: seq<bool>)
    requires s.at == RandBit
    ensures var s1 := s.(randomised := false, origPtr := 0, at := OrigPtr(1));
      Waiting(s) && Waiting(s1) && Drive(s, [false] + x) == Drive(s1, x)
  {
    hide Drive;
    assert [false] + x == [false] + [] + x && [] + x == x;
    BitTo(s, false, [], s.(randomised := false, origPtr := 0, at := OrigPtr(1)), x);
  }

  // The original pointer, written as one word of 24 bits, read as three bytes.

  function PointerBytes(v: nat): seq<nat> {
    [v / 256 / 256 % 256, v / 256 % 256, v % 256]
  }

  lemma PointerBits(v: nat)
    ensures Word(v, 24) == BitsOf(PointerBytes(v))
  {
    hide Word, BitsOf;
    ByteSize();
    WordSplit(v, 16);
    WordSplit(v / 256, 8);
    WordSplit(v / 256 / 256, 0);
    var b := PointerBytes(v);
    BitsOfNext([], b[0]);
    BitsOfNext([b[0]], b[1]);
    BitsOfNext([b[0], b[1]], b[2]);
    NoBits();
    assert [] + [b[0]] == [b[0]] && [b[0]] + [b[1]] == [b[0], b[1]] && [b[0], b[1]] + [b[2]] == b;
    WordModulo(v / 256 / 256, 8, 8);
    WordModulo(v / 256, 8, 8);
    WordModulo(v, 8, 8);
  }

  lemma WordSplit(v: nat, n: nat)
    ensures Word(v, n + 8) == Word(v / 256, n) + Word(v % 256, 8)
  {
    hide Word;
    ByteSize();
    WordAppend(v / 256, n, v % 256, 8);
  }

  function PointerLeading(v: nat, k: int): nat
    decreases 3 - k
  {
    if k <= 0 then 0 else if k >= 3 then v else PointerLeading(v, k + 1) / 256
  }

  lemma PointerNext(v: nat, k: int)
    requires v < 0x100_0000 && 1 <= k <= 3
    ensures |PointerBytes(v)| == 3 && PointerBytes(v)[k - 1] < 256 && PointerLeading(v, 3) == v
    ensures PointerLeading(v, k) == PointerLeading(v, k - 1) * 256 + PointerBytes(v)[k - 1]
  {
    assert PointerLeading(v, k) / 256 == PointerLeading(v, k - 1);
    assert PointerBytes(v)[k - 1] == PointerLeading(v, k) % 256;
  }

  /** A byte of the pointer, and what it leads to. */
  lemma PointerByte(s: State, v: nat, k: int, b: nat)
    requires 1 <= k <= 3 && s.at == OrigPtr(k) && s.origPtr * 256 + b == PointerLeading(v, k) && v <= 10 + Capacity(s)
    ensures k == 3 && PointerLeading(v, 3) == v ==>
      AdvanceHeader(s, b) == Continue(s.(origPtr := v, inUse16 := [], at := Mapping1))
    ensures k < 3 ==> AdvanceHeader(s, b) == Continue(s.(origPtr := PointerLeading(v, k), at := OrigPtr(k + 1)))
    ensures Capacity(s.(origPtr := PointerLeading(v, k), at := OrigPtr(k + 1))) == Capacity(s)
  {
    hide PointerLeading;
  }

  lemma PointerStep(s: State, v: nat, k: int, b: nat)
    requires 1 <= k <= 3 && s.at == OrigPtr(k) && s.origPtr * 256 + b == PointerLeading(v, k) && v <= 10 + Capacity(s)
    requires PointerLeading(v, 3) == v
    ensures Waiting(s) && Need(s) == 8
    ensures k == 3 ==> Advance(s, b) == Continue(s.(origPtr := v, inUse16 := [], at := Mapping1))
    ensures k < 3 ==> Advance(s, b) == Continue(s.(origPtr := PointerLeading(v, k), at := OrigPtr(k + 1)))
  {
    hide *;
    PointerByte(s, v, k, b);
    PointerLabel(s);
    ByteAdvance(s, b);
  }

  lemma PointerLabel(s: State)
    requires s.at.OrigPtr?
    ensures ByteLabel(s)
  {
  }

  lemma PointerLast(s: State, v: nat, b: seq<nat>, x: seq<bool>)
    requires s.at == OrigPtr(3) && v <= 10 + Capacity(s) && PointerLeading(v, 3) == v && |b| == 3 && b[2] < 256
    requires s.origPtr * 256 + b[2] == v
    ensures var s1 := s.(origPtr := v, inUse16 := [], at := Mapping1);
      Waiting(s1) && Drive(s, BitsOf(b[2..]) + x) == Drive(s1, x)
  {
    hide *;
    PointerStep(s, v, 3, b[2]);
    assert b[2..] == [b[2]];
    LastByteTo(s, b[2], s.(origPtr := v, inUse16 := [], at := Mapping1), x);
  }

  lemma PointerMore(s: State, v: nat, k: int, b: seq<nat>, x: seq<bool>)
    requires 1 <= k <= 2 && s.at == OrigPtr(k) && v <= 10 + Capacity(s) && PointerLeading(v, 3) == v && |b| == 3
    requires b[k - 1] < 256
    requires s.origPtr * 256 + b[k - 1] == PointerLeading(v, k)
    ensures var s1 := s.(origPtr := PointerLeading(v, k), at := OrigPtr(k + 1));
      Waiting(s1) && Drive(s, BitsOf(b[k - 1..]) + x) == Drive(s1, BitsOf(b[k..]) + x) && Capacity(s1) == Capacity(s)
  {
    hide *;
    PointerByte(s, v, k, b[k - 1]);
    PointerStep(s, v, k, b[k - 1]);
    ByteTo(s, b[k - 1], b[k..], s.(origPtr := PointerLeading(v, k), at := OrigPtr(k + 1)), b[k - 1..], x);
  }

  lemma PointerDecodes(s: State, v: nat, x: seq<bool>)
    requires s.at == OrigPtr(1) && v < 0x100_0000 && s.origPtr == 0 && v <= 10 + Capacity(s)
    ensures var s1 := s.(origPtr := v, inUse16 := [], at := Mapping1);
      Waiting(s) && Waiting(s1) && Drive(s, BitsOf(PointerBytes(v)) + x) == Drive(s1, x)
  {
    hide *;
    var b := PointerBytes(v);
    PointerNext(v, 1);
    PointerNext(v, 2);
    PointerNext(v, 3);
    PointerNone(v);
    PointerStep(s, v, 1, b[0]);
    assert b[0..] == b;
    PointerMore(s, v, 1, b, x);
    var s1 := s.(origPtr := PointerLeading(v, 1), at := OrigPtr(2));
    PointerMore(s1, v, 2, b, x);
    PointerLast(s1.(origPtr := PointerLeading(v, 2), at := OrigPtr(3)), v, b, x);
  }

  lemma PointerNone(v: nat)
    requires v < 0x100_0000
    ensures PointerLeading(v, 0) == 0
  {
  }

  // The mapping table.

  lemma {:induction false} MapHeadDecodes(s: State, h: seq<bool>, x: seq<bool>)
    requires s.at == Mapping1 && |h| == 16 && |s.inUse16| < 16 && s.inUse16 == h[..|s.inUse16|]
    ensures Waiting(s) && Moves(NextMap(s.(inUse16 := h, inUse := []), 0))
    ensures Drive(s, h[|s.inUse16|..] + x) == Onward(NextMap(s.(inUse16 := h, inUse := []), 0), x)
    decreases 16 - |s.inUse16|
  {
    hide Drive, NextMap;
    var i := |s.inUse16|;
    var s1 := s.(inUse16 := s.inUse16 + [h[i]]);
    assert s1.inUse16 == h[..i + 1] && h[i..] == [h[i]] + h[i + 1..];
    NextMapMoves(s.(inUse16 := h, inUse := []), 0);
    if i == 15 {
      assert h[..16] == h && h[15..] == [h[15]];
      StepBit(s, h[15], x);
    } else {
      BitTo(s, h[i], h[i + 1..], s1, x);
      MapHeadDecodes(s1, h, x);
    }
  }

  /** The state once the whole table of bytes in use is known. */
  function WithMap(s: State, inUse: seq<bool>): State {
    s.(inUse := inUse, at := Selector1, i := 16, j := 16)
  }

  /** The state amid the 16 bits of one group. */
  ghost predicate InGroup(s: State, inUse: seq<bool>) {
    && s.at == Mapping2 && |inUse| == 256 && s.inUse16 == MapHead(inUse)
    && 0 <= s.i < 16 && 0 <= s.j < 16 && s.inUse == inUse[..16 * s.i + s.j]
  }

  lemma MapBit(s: State, inUse: seq<bool>)
    requires InGroup(s, inUse)
    ensures Waiting(s) && Need(s) == 1
    ensures var s1 := s.(inUse := inUse[..16 * s.i + s.j + 1], j := s.j + 1);
      Advance(s, if inUse[16 * s.i + s.j] then 1 else 0) == if s.j < 15 then Continue(s1) else NextMap(s1, s.i + 1)
  {
    hide NextMap;
    assert inUse[..16 * s.i + s.j] + [inUse[16 * s.i + s.j]] == inUse[..16 * s.i + s.j + 1];
  }

  lemma {:induction false} GroupDecodes(s: State, inUse: seq<bool>, x: seq<bool>)
    requires InGroup(s, inUse)
    ensures var s1 := s.(inUse := inUse[..16 * s.i + 16], j := 16);
      && Waiting(s) && Moves(NextMap(s1, s.i + 1))
      && Drive(s, inUse[16 * s.i + s.j..16 * s.i + 16] + x) == Onward(NextMap(s1, s.i + 1), x)
    decreases 16 - s.j
  {
    hide Drive, NextMap, Advance;
    var n := 16 * s.i + s.j;
    MapBit(s, inUse);
    NextMapMoves(s.(inUse := inUse[..16 * s.i + 16], j := 16), s.i + 1);
    if s.j == 15 {
      assert inUse[n..n + 1] == [inUse[n]];
      StepBit(s, inUse[n], x);
    } else {
      var s1 := s.(inUse := inUse[..n + 1], j := s.j + 1);
      var w := inUse[n + 1..16 * s.i + 16];
      assert inUse[n..16 * s.i + 16] == [inUse[n]] + w;
      BitTo(s, inUse[n], w, s1, x);
      GroupDecodes(s1, inUse, x);
    }
  }

  lemma NoneInGroup(inUse: seq<bool>, i: int)
    requires |inUse| == 256 && 0 <= i < 16 && !GroupUsed(inUse, i)
    ensures inUse[..16 * i] + seq(16, k => false) == inUse[..16 * (i + 1)]
  {
    var g := inUse[16 * i..16 * i + 16];
    forall k | 0 <= k < 16 ensures g[k] == false { assert g[k] in g; }
    assert g == seq(16, k => false);
    assert inUse[..16 * (i + 1)] == inUse[..16 * i] + g;
  }

  /** A group that is in use, ahead of the others. */
  lemma GroupMoves(s: State, inUse: seq<bool>, i: int, x: seq<bool>)
    requires 0 <= i < 16 && |inUse| == 256 && s.inUse16 == MapHead(inUse) && s.inUse == inUse[..16 * i]
    requires GroupUsed(inUse, i)
    ensures var s1 := s.(at := Mapping2, i := i, inUse := inUse[..16 * i + 16], j := 16);
      && Moves(NextMap(s, i)) && Moves(NextMap(s1, i + 1))
      && Onward(NextMap(s, i), MapBody(inUse, i) + x) == Onward(NextMap(s1, i + 1), MapBody(inUse, i + 1) + x)
  {
    hide Drive, GroupUsed, Chars, Decode;
    var s1 := s.(at := Mapping2, i := i, j := 0);
    var g, y := inUse[16 * i..16 * i + 16], MapBody(inUse, i + 1);
    assert MapBody(inUse, i) == g + y;
    assert (g + y) + x == g + (y + x);
    NextMapMoves(s, i);
    GroupDecodes(s1, inUse, y + x);
  }

  /** The groups from the i-th on. */
  lemma {:induction false} MapBodyDecodes(s: State, inUse: seq<bool>, i: int, x: seq<bool>)
    requires 0 <= i <= 16 && |inUse| == 256 && s.inUse16 == MapHead(inUse) && s.inUse == inUse[..16 * i]
    requires |Chars(inUse)| >= 1
    ensures Moves(NextMap(s, i)) && Waiting(WithMap(s, inUse))
    ensures Onward(NextMap(s, i), MapBody(inUse, i) + x) == Drive(WithMap(s, inUse), x)
    decreases 16 - i
  {
    hide Drive, GroupUsed, Chars;
    NextMapMoves(s, i);
    if i == 16 {
      assert inUse[..256] == inUse && [] + x == x;
    } else if GroupUsed(inUse, i) {
      var s1 := s.(at := Mapping2, i := i, j := 0);
      MapBodyDecodes(s1.(inUse := inUse[..16 * i + 16], j := 16), inUse, i + 1, x);
      GroupMoves(s, inUse, i, x);
    } else {
      NoneInGroup(inUse, i);
      assert [] + MapBody(inUse, i + 1) == MapBody(inUse, i + 1);
      MapBodyDecodes(s.(inUse := s.inUse + seq(16, k => false)), inUse, i + 1, x);
    }
  }

  // The selectors.

  lemma GroupsDecode(s: State, nGroups: nat, nSelectors: nat, x: seq<bool>)
    requires s.at == Selector1 && Waiting(s) && 2 <= nGroups <= 6 && 1 <= nSelectors < 0x8000
    ensures var s1 := s.(nGroups := nGroups, nSelectors := nSelectors, j := 0, selectorMtf := [], at := Selector3);
      Waiting(s1) && Drive(s, Word(nGroups, 3) + (Word(nSelectors, 15) + x)) == Drive(s1, x)
  {
    hide Drive, Word, Chars;
    assert Pow2(3) == 8;
    Pow2Add(7, 8);
    ByteSize();
    assert Pow2(7) == 128;
    StepWord(s, nGroups, 3, Word(nSelectors, 15) + x);
    StepWord(s.(nGroups := nGroups, at := Selector2), nSelectors, 15, x);
  }

  /** The state amid a unary number. */
  ghost predicate InSelector(s: State, js: seq<nat>, j: int) {
    && s.at == Selector3 && Grouped(s) && |js| == s.nSelectors && Below(js, s.nGroups)
    && |s.selectorMtf| < |js| && s.selectorMtf == js[..|s.selectorMtf|]
    && 0 <= s.j && s.j + j == js[|s.selectorMtf|]
  }

  lemma {:induction false} UnaryDecodes(s: State, js: seq<nat>, j: nat, x: seq<bool>)
    requires InSelector(s, js, j)
    ensures Waiting(s) && Waiting(s.(j := s.j + j)) && Need(s.(j := s.j + j)) == 1
    ensures Drive(s, Unary(j) + x) == Drive(s.(j := s.j + j), [false] + x)
    decreases j
  {
    hide *;
    UnaryStep(s, js, j);
    if j > 0 {
      BitTo(s, true, Unary(j - 1), s.(j := s.j + 1), x);
      UnaryDecodes(s.(j := s.j + 1), js, j - 1, x);
    } else {
      assert s == s.(j := s.j + j);
    }
  }

  lemma UnaryStep(s: State, js: seq<nat>, j: nat)
    requires InSelector(s, js, j)
    ensures Waiting(s) && Need(s) == 1
    ensures Unary(j) == if j == 0 then [false] else [true] + Unary(j - 1)
    ensures j > 0 ==> Advance(s, 1) == Continue(s.(j := s.j + 1)) && InSelector(s.(j := s.j + 1), js, j - 1)
  {
    hide Chars;
  }

  lemma {:induction false} SelectorsDecode(s: State, js: seq<nat>, x: seq<bool>)
    requires s.j == 0 && |s.selectorMtf| < |js| && InSelector(s, js, js[|s.selectorMtf|])
    ensures var s1 := SelectorsDone(s.(selectorMtf := js));
      Waiting(s) && Waiting(s1) && Drive(s, SelectorBits(js[|s.selectorMtf|..]) + x) == Drive(s1, x)
    decreases |js| - |s.selectorMtf|
  {
    hide Drive, Chars, Unary, SelectorsDone;
    var i := |s.selectorMtf|;
    var more := SelectorBits(js[i + 1..]);
    assert js[i..][1..] == js[i + 1..];
    assert Unary(js[i]) + more + x == Unary(js[i]) + (more + x);
    UnaryDecodes(s, js, js[i], more + x);
    var s1 := s.(j := js[i]);
    assert js[..i] + [js[i]] == js[..i + 1];
    SelectorEnd(s1, js);
    if i + 1 == |js| {
      assert js[..i + 1] == js && more == [] && [] + x == x;
      StepBit(s1, false, x);
      assert [false] + (more + x) == [false] + x;
    } else {
      assert [false] + (more + x) == [false] + more + x;
      BitTo(s1, false, more, s.(selectorMtf := js[..i + 1]), x);
      SelectorsDecode(s.(selectorMtf := js[..i + 1]), js, x);
    }
  }

  lemma SelectorEnd(s: State, js: seq<nat>)
    requires InSelector(s, js, 0)
    ensures Waiting(s) && Need(s) == 1
    ensures var s1 := s.(selectorMtf := js[..|s.selectorMtf| + 1], j := 0);
      && Below(s1.selectorMtf, s1.nGroups)
      && Advance(s, 0) == Continue(if |s1.selectorMtf| == |js| then SelectorsDone(s1) else s1)
  {
    hide Chars, SelectorsDone;
    assert s.selectorMtf + [s.j] == js[..|s.selectorMtf| + 1];
  }

  // The code lengths.

  ghost predicate InTable(s: State, l: seq<nat>) {
    && s.at == Coding2 && Coding(s) && |l| == NInUse(s) + 2 && GoodLengths(l)
    && |s.cur| < |l| && s.cur == l[..|s.cur|] && 1 <= s.curr <= LONGEST
  }

  lemma LengthStep(s: State, l: seq<nat>, up: bool)
    requires InTable(s, l) && 1 <= s.curr + (if up then 1 else -1) <= LONGEST
    ensures var s1 := s.(curr := s.curr + if up then 1 else -1);
      && Waiting(s) && Need(s) == 1 && InTable(s1, l) && Advance(s, 1) == Continue(s.(at := Coding3))
      && Waiting(s.(at := Coding3)) && Need(s.(at := Coding3)) == 1
      && Advance(s.(at := Coding3), if up then 0 else 1) == Continue(s1)
  {
    hide Chars;
  }

  lemma {:induction false} StepsDecode(s: State, l: seq<nat>, to: nat, x: seq<bool>)
    requires InTable(s, l) && 1 <= to <= LONGEST
    ensures InTable(s.(curr := to), l) && Waiting(s) && Waiting(s.(curr := to))
    ensures Drive(s, Steps(s.curr, to) + x) == Drive(s.(curr := to), [false] + x)
    decreases if s.curr < to then to - s.curr else s.curr - to
  {
    hide *;
    LongestCode();
    TableWaits(s, l, to);
    if s.curr == to {
      assert s.(curr := to) == s;
      StepsParts(s.curr, to);
    } else {
      var up := s.curr < to;
      var s1 := s.(curr := s.curr + if up then 1 else -1);
      StepsParts(s.curr, to);
      LengthStep(s, l, up);
      var w := Steps(s1.curr, to);
      assert [true, !up] + w + x == [true] + ([!up] + w) + x;
      BitTo(s, true, [!up] + w, s.(at := Coding3), x);
      BitTo(s.(at := Coding3), !up, w, s1, x);
      StepsDecode(s1, l, to, x);
    }
  }

  lemma LongestCode()
    ensures LONGEST == 20
  {
  }

  lemma TableWaits(s: State, l: seq<nat>, to: nat)
    requires InTable(s, l) && 1 <= to <= LONGEST
    ensures 1 <= s.curr <= LONGEST && InTable(s.(curr := to), l) && Waiting(s) && Waiting(s.(curr := to))
  {
    hide Chars;
  }

  lemma StepsParts(c: nat, l: nat)
    ensures c < l ==> Steps(c, l) == [true, false] + Steps(c + 1, l)
    ensures c > l ==> Steps(c, l) == [true, true] + Steps(c - 1, l)
    ensures c == l ==> Steps(c, l) == [false]
  {
  }

  /** At the end of one length. */
  lemma LengthEnd(s: State, l: seq<nat>)
    requires InTable(s, l) && s.curr == l[|s.cur|]
    ensures var s1 := s.(cur := l[..|s.cur| + 1]);
      && Waiting(s) && Need(s) == 1
      && (|s1.cur| < |l| ==> InTable(s1, l) && Advance(s, 0) == Continue(s1))
      && (|s1.cur| == |l| ==>
            (s1.cur == l && Coding(s1) && GoodLengths(s1.cur) && |s1.cur| == NInUse(s1) + 2
             && Advance(s, 0) == TableDone(s1)))
  {
    hide Chars, TableDone;
    assert s.cur + [s.curr] == l[..|s.cur| + 1];
  }

  lemma LengthBitsParts(c: nat, l: seq<nat>, k: int)
    requires 0 <= k < |l|
    ensures LengthBits(c, l[k..]) == Steps(c, l[k]) + LengthBits(l[k], l[k + 1..])
    ensures k + 1 == |l| ==> LengthBits(l[k], l[k + 1..]) == []
  {
    assert l[k..][1..] == l[k + 1..];
  }

  lemma {:induction false} LengthsDecode(s: State, l: seq<nat>, x: seq<bool>)
    requires InTable(s, l)
    ensures var s1 := s.(cur := l, curr := l[|l| - 1]);
      && Waiting(s) && s.curr >= 0 && Coding(s1) && |s1.cur| == NInUse(s1) + 2 && GoodLengths(s1.cur)
      && Moves(TableDone(s1))
      && Drive(s, LengthBits(s.curr, l[|s.cur|..]) + x) == Onward(TableDone(s1), x)
    decreases |l| - |s.cur|
  {
    hide *;
    var k := |s.cur|;
    LengthAt(s, l);
    var c := l[k];
    var more := LengthBits(c, l[k + 1..]);
    LengthBitsParts(s.curr, l, k);
    assert Steps(s.curr, c) + more + x == Steps(s.curr, c) + (more + x);
    StepsDecode(s, l, c, more + x);
    var s1 := s.(curr := c);
    LengthEnd(s1, l);
    if k + 1 == |l| {
      assert [false] + (more + x) == [false] + x;
      TableDoneMoves(s1.(cur := l));
      StepBit(s1, false, x);
    } else {
      assert [false] + (more + x) == [false] + more + x;
      BitTo(s1, false, more, s1.(cur := l[..k + 1]), x);
      LengthsDecode(s1.(cur := l[..k + 1]), l, x);
    }
  }

  lemma LengthAt(s: State, l: seq<nat>)
    requires InTable(s, l)
    ensures |s.cur| < |l| && 1 <= l[|s.cur|] <= LONGEST && s.curr >= 0 && Waiting(s)
  {
  }
}
