/** What the compressor sends, the decompressor turns back into the data. */
module RoundTrip {
  import opened Bits
  import opened BlockCrc
  import opened BlockDecoding
  import opened CanonicalCodes
  import opened ColumnDecoding
  import opened Coroutine
  import opened Decompressor
  import opened Expanders
  import opened InverseBwt
  import opened MoveToFront
  import Rotations
  import opened RunLength
  import opened StreamDecoding
  import opened StreamFormat
  import opened SymbolMaps
  import opened Words

  /** A block that was sent: what it carries, the runs packed in it and the order of its rotations. */
  datatype Sent = Sent(b: Block, ps: seq<Pair>, p: seq<int>)

  /** The numbers of the byte values of the last column. */
  function ColumnNumbers(bytes: seq<int>, p: seq<int>, inUse: seq<bool>): (s: seq<int>)
    requires |bytes| > 0 && |bytes| <= |p| && forall k :: 0 <= k < |bytes| ==> 0 <= p[k] < |bytes|
    requires forall i :: 0 <= i < |bytes| ==> 0 <= bytes[i] < |inUse|
    ensures |s| == |bytes|
  {
    var l := Rotations.LastColumn(bytes, p);
    seq(|l|, i requires 0 <= i < |l| => Number(inUse, l[i]))
  }

  /** What the compressor guarantees of a block: runs gathered and packed, their check value, any
      sorted order of the rotations, and the move-to-front symbols of the last column. The code
      tables and selectors are whatever they are. */
  ghost predicate Faithful(x: Sent, capacity: int) {
    && Sendable(x.b) && Runs(x.ps) && |Squeezed(x.ps)| >= 1 && |Squeezed(x.ps)| <= capacity < N_LIMIT
    && x.b.crc == AsWord(CheckValue(Plain(x.ps)))
    && Rotations.IsSorted(Squeezed(x.ps), x.p) && x.b.origPtr < |Squeezed(x.ps)| && x.p[x.b.origPtr] == 0
    && (forall i :: 0 <= i < |Squeezed(x.ps)| ==> 0 <= Squeezed(x.ps)[i] < 256 && x.b.inUse[Squeezed(x.ps)[i]])
    && var s := ColumnNumbers(Squeezed(x.ps), x.p, x.b.inUse);
      && Listed(s, Identity(|Chars(x.b.inUse)|))
      && x.b.vs == MoveToFront.Coded(Ranks(Identity(|Chars(x.b.inUse)|), s), |Chars(x.b.inUse)|)
  }

  /** Numbering the bytes in use and listing them again. */
  lemma SpelledNumbers(bytes: seq<int>, p: seq<int>, inUse: seq<bool>)
    requires |bytes| > 0 && |bytes| <= |p| && forall k :: 0 <= k < |bytes| ==> 0 <= p[k] < |bytes|
    requires forall i :: 0 <= i < |bytes| ==> 0 <= bytes[i] < |inUse| && inUse[bytes[i]]
    ensures var s := ColumnNumbers(bytes, p, inUse);
      InRange(s, |Chars(inUse)|) && Spelled(inUse, s) == Rotations.LastColumn(bytes, p)
  {
    hide Chars;
    var s, l := ColumnNumbers(bytes, p, inUse), Rotations.LastColumn(bytes, p);
    forall i | 0 <= i < |l| ensures 0 <= s[i] < |Chars(inUse)| && Chars(inUse)[s[i]] == l[i] {
      CharNumbered(inUse, l[i]);
    }
    assert Spelled(inUse, s) == l;
  }

  /** The symbols of the column, all below the end symbol but the last. */
  lemma SymbolsEnd(y: seq<int>, ks: seq<nat>, b: Block)
    requires y == Identity(|Chars(b.inUse)|) && y != [] && MoveToFront.Below(ks, |y|)
    requires b.vs == MoveToFront.Coded(ks, |y|)
    ensures Ended(b) && Rest(b, 0) == Emitted(ks) + Digits(MoveToFront.Pending(ks)) && Codes(Rest(b, 0), |y|)
    ensures Flush(Undo(Undoing(y, 0, 1, []), Rest(b, 0))).out == Symbols(y, ks)
  {
    hide Chars, Emitted, Digits, Undo, Symbols, Flush;
    var w := Emitted(ks) + Digits(MoveToFront.Pending(ks));
    UndoCoded(y, ks);
    assert b.vs == w + [|y| + 1];
    assert b.vs[..|b.vs| - 1] == w;
  }

  lemma FaithfulFacts(x: Sent, capacity: int)
    requires Faithful(x, capacity)
    ensures Sendable(x.b) && |x.b.vs| >= 1 && Runs(x.ps) && 1 <= |Squeezed(x.ps)| <= capacity < N_LIMIT
    ensures |Squeezed(x.ps)| <= |x.p|
    ensures (forall k :: 0 <= k < |Squeezed(x.ps)| ==> 0 <= x.p[k] < |Squeezed(x.ps)|)
    ensures |x.b.inUse| == 256 && Identity(|Chars(x.b.inUse)|) != []
    ensures |Identity(|Chars(x.b.inUse)|)| == |Chars(x.b.inUse)|
    ensures forall i :: 0 <= i < |Squeezed(x.ps)| ==>
      0 <= Squeezed(x.ps)[i] < |x.b.inUse| && Squeezed(x.ps)[i] < 256 && x.b.inUse[Squeezed(x.ps)[i]]
    ensures x.b.origPtr < |Squeezed(x.ps)| && Rotations.IsSorted(Squeezed(x.ps), x.p) && x.p[x.b.origPtr] == 0
    ensures x.b.crc == AsWord(CheckValue(Plain(x.ps)))
    ensures Fresh(x.b) == Undoing(Identity(|Chars(x.b.inUse)|), 0, 1, [])
    ensures var s := ColumnNumbers(Squeezed(x.ps), x.p, x.b.inUse);
      && Listed(s, Identity(|Chars(x.b.inUse)|))
      && x.b.vs == MoveToFront.Coded(Ranks(Identity(|Chars(x.b.inUse)|), s), |Chars(x.b.inUse)|)
  {
    hide Chars, Squeezed, Plain, Ranks, MoveToFront.Coded, ColumnNumbers, Runs;
  }

  /** The block is decodable and its column is the last column. */
  lemma FaithfulProper(x: Sent, capacity: int)
    requires Faithful(x, capacity)
    ensures Proper(x.b, capacity)
    ensures InRange(Flush(Undo(Fresh(x.b), Rest(x.b, 0))).out, |Chars(x.b.inUse)|)
    ensures Column(x.b) == Rotations.LastColumn(Squeezed(x.ps), x.p)
  {
    hide AsWord, Below, Chars, CheckValue, Coded, Codes, ColumnNumbers, Digits, Emitted, Ended, Faithful, Flush,
      Fresh, Identity, InRange, Listed, MoveToFront.Pending, Plain, Ranks, Rest, Rotations.IsSorted,
      Rotations.LastColumn, Runs, Sendable, Spelled, Squeezed, Symbols, Undo;
    FaithfulFacts(x, capacity);
    var y := Identity(|Chars(x.b.inUse)|);
    var s := ColumnNumbers(Squeezed(x.ps), x.p, x.b.inUse);
    var ks := Ranks(y, s);
    SpelledNumbers(Squeezed(x.ps), x.p, x.b.inUse);
    SymbolsEnd(y, ks, x.b);
    SymbolsOfRanks(y, s);
    FlushSize(Undo(Fresh(x.b), Rest(x.b, 0)));
  }

  lemma FlushSize(u: Undoing)
    requires u.y != []
    ensures |Flush(u).out| == |u.out| + u.run
  {
  }

  // Back through the transforms.

  /** The text read along the links is the block, and the block again from its start. */
  lemma TextIsBlock(bytes: seq<int>, p: seq<int>, src: Source)
    requires |bytes| > 0 && Rotations.IsSorted(bytes, p) && src.start < |bytes| && p[src.start] == 0
    requires src.l == Rotations.LastColumn(bytes, p) && Links(src.l, src.t)
    ensures src.start < |src.t| == |src.l| == |bytes| && forall k :: 0 <= k < |src.t| ==> 0 <= src.t[k] < |src.t|
    ensures |Text(src)| == |bytes| + 2 && Text(src)[..|bytes|] == bytes
    ensures forall i :: 0 <= i < |bytes| + 2 ==> Text(src)[i] == Rotations.Ch(bytes, i)
  {
    hide *;
    LinksRange(bytes, p, src);
    SpellsBlock(bytes, p, src.t, src.start);
    FetchedSpells(src.l, src.t, src.start, |bytes| + 2);
    forall i: nat | i < |bytes| ensures Rotations.Ch(bytes, i) == bytes[i] { ChInside(bytes, i); }
    assert Text(src)[..|bytes|] == bytes;
  }

  lemma ChInside(bytes: seq<int>, i: nat)
    requires i < |bytes|
    ensures Rotations.Ch(bytes, i) == bytes[i]
  {
  }

  lemma LinksRange(bytes: seq<int>, p: seq<int>, src: Source)
    requires |bytes| > 0 && Rotations.IsSorted(bytes, p)
    requires src.l == Rotations.LastColumn(bytes, p) && Links(src.l, src.t) && src.start < |bytes|
    ensures |src.t| == |src.l| == |bytes| && src.start < |src.t|
    ensures forall k :: 0 <= k < |src.t| ==> 0 <= src.t[k] < |src.t|
    ensures Text(src) == Fetched(src.l, src.t, src.start, |bytes| + 2)
  {
  }

  /** A faithful block, decoded, stands for the data it was made from. */
  lemma BlockStandsFor(x: Sent, capacity: int, s: State)
    requires Faithful(x, capacity) && s.at == Output && s.origPtr == x.b.origPtr
    requires s.tt == Rotations.LastColumn(Squeezed(x.ps), x.p)
    ensures Outputs(s) && BlockText(s) == Plain(x.ps) && BlockWhole(s)
  {
    hide Faithful, Squeezed, Plain, Chars, ColumnNumbers, Ranks, MoveToFront.Coded;
    FaithfulFacts(x, capacity);
    var bytes := Squeezed(x.ps);
    ColumnBytes(bytes, x.p);
    var src := SourceOf(s);
    TextIsBlock(bytes, x.p, src);
    ExpandSqueezed(Text(src), |bytes|, x.ps);
  }

  lemma ColumnBytes(bytes: seq<int>, p: seq<int>)
    requires |bytes| > 0 && |bytes| <= |p| && forall k :: 0 <= k < |bytes| ==> 0 <= p[k] < |bytes|
    requires forall i :: 0 <= i < |bytes| ==> 0 <= bytes[i] < 256
    ensures Rotations.Bytes(Rotations.LastColumn(bytes, p))
    ensures forall i: nat :: 0 <= Rotations.Ch(bytes, i) < 256
  {
  }

  // The end of the stream.

  lemma EndStep(s: State, k: int)
    requires 1 <= k <= 6 && s.at == (if k == 1 then BlkHdr(1) else EndHdr(k))
    ensures |END_MAGIC| == 6 && 0 <= END_MAGIC[k - 1] < 256 && Waiting(s) && Need(s) == 8
    ensures Advance(s, END_MAGIC[k - 1])
      == Continue(if k == 6 then s.(storedCombinedCRC := 0, at := CombCrc(1)) else s.(at := EndHdr(k + 1)))
  {
  }

  lemma {:induction false} EndDecodes(s: State, k: int, x: seq<bool>)
    requires 1 <= k <= 6 && s.at == (if k == 1 then BlkHdr(1) else EndHdr(k))
    ensures var s1 := s.(storedCombinedCRC := 0, at := CombCrc(1));
      Waiting(s) && Waiting(s1) && Drive(s, BitsOf(END_MAGIC[k - 1..]) + x) == Drive(s1, x)
    decreases 6 - k
  {
    hide *;
    EndStep(s, k);
    if k == 6 {
      assert END_MAGIC[5..] == [END_MAGIC[5]];
      LastByteTo(s, END_MAGIC[5], s.(storedCombinedCRC := 0, at := CombCrc(1)), x);
    } else {
      var s1 := s.(at := EndHdr(k + 1));
      ByteTo(s, END_MAGIC[k - 1], END_MAGIC[k..], s1, END_MAGIC[k - 1..], x);
      EndDecodes(s1, k + 1, x);
    }
  }

  lemma {:induction false} CombinedDecodes(s: State, u: nat, k: int, x: seq<bool>)
    requires 1 <= k <= 4 && s.at == CombCrc(k) && u < WORD && s.storedCombinedCRC == Leading(u, k - 1)
    ensures Waiting(s)
    ensures Drive(s, BitsOf(WordBytes(u)[k - 1..]) + x) == Done(StreamEnd, s.(storedCombinedCRC := u, at := Idle), x)
    decreases 4 - k
  {
    hide Advance, BitsOf, BlockMagic, Capacity, Drive, EndMagic, Good, Leading, Moves, Need, Waiting, WordBytes;
    var b := WordBytes(u);
    LeadingNext(u, k);
    ByteAdvance(s, b[k - 1]);
    if k == 4 {
      assert b[3..] == [b[3]] + [];
      StepByte(s, b[3], [], x);
      NoBits();
      assert [] + x == x;
    } else {
      var s1 := s.(storedCombinedCRC := Leading(u, k), at := CombCrc(k + 1));
      ByteTo(s, b[k - 1], b[k..], s1, b[k - 1..], x);
      CombinedDecodes(s1, u, k + 1, x);
    }
  }

  lemma TrailerDecodes(s: State, u: nat, x: seq<bool>)
    requires s.at == BlkHdr(1) && u < WORD
    ensures Waiting(s) && Drive(s, TrailerBits(u) + x) == Done(StreamEnd, s.(storedCombinedCRC := u, at := Idle), x)
  {
    hide Drive, BitsOf, WordBytes;
    assert END_MAGIC[0..] == END_MAGIC && WordBytes(u)[0..] == WordBytes(u);
    assert BitsOf(END_MAGIC) + BitsOf(WordBytes(u)) + x == BitsOf(END_MAGIC) + (BitsOf(WordBytes(u)) + x);
    ZeroLeads(u, 0);
    EndDecodes(s, 1, BitsOf(WordBytes(u)) + x);
    CombinedDecodes(s.(storedCombinedCRC := 0, at := CombCrc(1)), u, 1, x);
  }

  // The whole stream.

  ghost predicate AllFaithful(xs: seq<Sent>, capacity: int) {
    forall i :: 0 <= i < |xs| ==> Faithful(xs[i], capacity)
  }

  /** The data of all blocks. */
  function Data(xs: seq<Sent>): seq<int> {
    if xs == [] then [] else Plain(xs[0].ps) + Data(xs[1..])
  }

  /** The check value of the stream, from that of the blocks before. */
  function Combined(xs: seq<Sent>, c: bv32): bv32 {
    if xs == [] then c else Combined(xs[1..], Combine(c, CheckValue(Plain(xs[0].ps))))
  }

  ghost function BlocksBits(xs: seq<Sent>): seq<bool>
    requires forall i :: 0 <= i < |xs| ==> Sendable(xs[i].b)
  {
    if xs == [] then [] else BlockBits(xs[0].b) + BlocksBits(xs[1..])
  }

  /** A whole stream: header, blocks, trailer, and what fills the last byte. */
  ghost function StreamBits(blockSize100k: int, xs: seq<Sent>, fill: seq<bool>): seq<bool>
    requires 1 <= blockSize100k <= 9 && forall i :: 0 <= i < |xs| ==> Sendable(xs[i].b)
  {
    BitsOf(StreamHeader(blockSize100k)) + (BlocksBits(xs) + (TrailerBits(AsWord(Combined(xs, 0))) + fill))
  }

  lemma DecompressedEnd(s: State, w: seq<bool>, combined: bv32, s1: State, rest: seq<bool>)
    requires Waiting(s) && Drive(s, w) == Done(StreamEnd, s1, rest) && s1.storedCombinedCRC == AsWord(combined)
    ensures Decompressed(s, w, combined) == Decoded([], Finished)
  {
    hide Drive, Good;
  }

  lemma DecompressedBlock(s: State, w: seq<bool>, combined: bv32, s1: State, rest: seq<bool>)
    requires Waiting(s) && Drive(s, w) == Done(Ok, s1, rest) && Outputs(s1) && !s1.randomised
    requires BlockWhole(s1) && AsWord(CheckValue(BlockText(s1))) == s1.storedBlockCRC
    ensures Waiting(NextBlock(s1))
    ensures var r := Decompressed(NextBlock(s1), rest, Combine(combined, CheckValue(BlockText(s1))));
      Decompressed(s, w, combined) == Decoded(BlockText(s1) + r.data, r.verdict)
  {
    hide Drive, BlockWhole, BlockText, Outputs, CheckValue, Combine;
    DriveTakes(s, w);
  }

  lemma AsWordFits(c: bv32)
    ensures AsWord(c) < WORD
  {
  }

  /** The blocks and the trailer, from the start of a block. */
  lemma {:induction false} BlocksDecode(s: State, xs: seq<Sent>, combined: bv32, fill: seq<bool>)
    requires s.at == BlkHdr(1) && AllFaithful(xs, Capacity(s))
    ensures forall i :: 0 <= i < |xs| ==> Sendable(xs[i].b)
    ensures Waiting(s)
    ensures Decompressed(s, BlocksBits(xs) + (TrailerBits(AsWord(Combined(xs, combined))) + fill), combined)
         == Decoded(Data(xs), Finished)
    decreases |xs|
  {
    hide AsWord, Below, BlockBits, BlockText, BlockWhole, BlocksBits, Capacity, Chars, CheckValue, Coded, Codes,
      Column, ColumnNumbers, Combine, Combined, Data, Decompressed, Drive, Ended, Faithful, Flush, Fresh, Identity,
      InRange, Listed, NextBlock, Outputs, Plain, Proper, Ranks, Rest, Rotations.IsSorted, Rotations.LastColumn,
      Runs, Sendable, Squeezed, TrailerBits, Undo, Waiting;
    BlkHdrWaits(s);
    AllSendable(xs, Capacity(s));
    BlocksParts(xs, combined);
    var u := AsWord(Combined(xs, combined));
    var tail := TrailerBits(u) + fill;
    AsWordFits(Combined(xs, combined));
    if xs == [] {
      TrailerDecodes(s, u, fill);
      assert [] + tail == tail;
      DecompressedEnd(s, tail, combined, s.(storedCombinedCRC := u, at := Idle), fill);
    } else {
      var more := BlocksBits(xs[1..]) + tail;
      assert BlockBits(xs[0].b) + BlocksBits(xs[1..]) + tail == BlockBits(xs[0].b) + more;
      FaithfulProper(xs[0], Capacity(s));
      var s1 := BlockDecodes(s, xs[0].b, more);
      FaithfulFacts(xs[0], Capacity(s));
      BlockStandsFor(xs[0], Capacity(s), s1);
      DecompressedBlock(s, BlockBits(xs[0].b) + more, combined, s1, more);
      NextBlockAt(s1);
      SameCapacity(s, NextBlock(s1));
      BlocksDecode(NextBlock(s1), xs[1..], Combine(combined, CheckValue(Plain(xs[0].ps))), fill);
    }
  }

  lemma NextBlockAt(s: State)
    ensures NextBlock(s).at == BlkHdr(1) && NextBlock(s).blockSize100k == s.blockSize100k
  {
  }

  lemma AllSendable(xs: seq<Sent>, capacity: int)
    requires AllFaithful(xs, capacity)
    ensures forall i :: 0 <= i < |xs| ==> Sendable(xs[i].b)
  {
    hide Sendable;
  }

  lemma BlocksParts(xs: seq<Sent>, c: bv32)
    requires forall i :: 0 <= i < |xs| ==> Sendable(xs[i].b)
    ensures xs == [] ==> BlocksBits(xs) == [] && Data(xs) == [] && Combined(xs, c) == c
    ensures xs != [] ==> BlocksBits(xs) == BlockBits(xs[0].b) + BlocksBits(xs[1..])
    ensures xs != [] ==> Data(xs) == Plain(xs[0].ps) + Data(xs[1..])
    ensures xs != [] ==> Combined(xs, c) == Combined(xs[1..], Combine(c, CheckValue(Plain(xs[0].ps))))
  {
    hide Sendable, BlockBits, Plain, CheckValue, Combine;
  }

  /** The round trip: a stream of any number of faithfully sent blocks, none included, is
      decompressed to exactly the data, and all check values are found right. */
  lemma StreamRoundTrip(s: State, blockSize100k: int, xs: seq<Sent>, fill: seq<bool>)
    requires s.at == Magic(1) && 1 <= blockSize100k <= 9 && AllFaithful(xs, 100000 * blockSize100k)
    ensures Waiting(s) && forall i :: 0 <= i < |xs| ==> Sendable(xs[i].b)
    ensures Decompressed(s, StreamBits(blockSize100k, xs, fill), 0) == Decoded(Data(xs), Finished)
  {
    hide AllFaithful, AsWord, BitsOf, BlocksBits, Combined, Data, Decompressed, Drive, Sendable, StreamHeader,
      TrailerBits, Waiting;
    AllSendable(xs, 100000 * blockSize100k);
    var h := StreamHeader(blockSize100k);
    assert h[0..] == h;
    var w := BlocksBits(xs) + (TrailerBits(AsWord(Combined(xs, 0))) + fill);
    MagicWaits(s);
    HeaderDecodes(s, blockSize100k, 1, w);
    var s1 := s.(blockSize100k := blockSize100k, at := BlkHdr(1));
    BlocksDecode(s1, xs, 0, fill);
    DecompressedSame(s, BitsOf(h) + w, s1, w, 0);
  }

  lemma MagicWaits(s: State)
    requires s.at == Magic(1)
    ensures Waiting(s)
  {
  }

  lemma DecompressedSame(s: State, w: seq<bool>, s1: State, w1: seq<bool>, combined: bv32)
    requires Waiting(s) && Waiting(s1) && Drive(s, w) == Drive(s1, w1)
    ensures Decompressed(s, w, combined) == Decompressed(s1, w1, combined)
  {
    hide Drive, BlockWhole, BlockText, Outputs, CheckValue, Combine, Good;
    DriveTakes(s, w);
    DriveTakes(s1, w1);
  }
}
