/** Exactly which bits the decompressor takes as a whole stream, and what they stand for. */
module StreamReading {
  import opened Bits
  import opened BlockCrc
  import opened BlockReading
  import opened CanonicalCodes
  import opened ColumnDecoding
  import ColumnBounds
  import opened Coroutine
  import opened Decompressor
  import opened Expanders
  import opened HeaderReading
  import opened MoveToFront
  import opened ReadableFormat
  import Rotations
  import opened RoundTrip
  import RunLength
  import opened StreamDecoding
  import opened StreamFormat
  import opened SymbolMaps
  import opened Words

  /** The column of a block. */
  ghost function ColumnOf(x: Readable): seq<int>
    requires x.vs != [] && Unread(x.inUse).y != [] && Codes(Entries(x.vs), |Unread(x.inUse).y|)
    requires InRange(Numbers(x), |Chars(x.inUse)|)
  {
    Spelled(x.inUse, Numbers(x))
  }

  /** What a column and the row of its block stand for. */
  ghost function ColumnText(tt: seq<int>, origPtr: nat): seq<int>
    requires origPtr < |tt| && Rotations.Bytes(tt)
  {
    SoundFacts(Source(tt, ChosenLinks(tt), origPtr));
    RunLength.Expanded(Text(Source(tt, ChosenLinks(tt), origPtr)), |tt|, 0)
  }

  /** Whether the last run has its count. */
  ghost predicate ColumnWhole(tt: seq<int>, origPtr: nat)
    requires origPtr < |tt| && Rotations.Bytes(tt)
  {
    SoundFacts(Source(tt, ChosenLinks(tt), origPtr));
    RunLength.Whole(Text(Source(tt, ChosenLinks(tt), origPtr)), |tt|, 0)
  }

  lemma TextOfBlock(s: State)
    requires Outputs(s)
    ensures BlockText(s) == ColumnText(s.tt, s.origPtr) && BlockWhole(s) == ColumnWhole(s.tt, s.origPtr)
  {
  }

  /** An acceptable block that is not randomised, with whole runs and the check value of its data. */
  ghost predicate Sane(x: Readable, capacity: int) {
    && Acceptable(x, capacity) && !x.randomised
    && x.vs != [] && Unread(x.inUse).y != [] && Codes(Entries(x.vs), |Unread(x.inUse).y|)
    && InRange(Numbers(x), |Chars(x.inUse)|) && x.origPtr < |ColumnOf(x)| && Rotations.Bytes(ColumnOf(x))
    && ColumnWhole(ColumnOf(x), x.origPtr) && x.crc == AsWord(CheckValue(ColumnText(ColumnOf(x), x.origPtr)))
  }

  ghost predicate AllSane(xs: seq<Readable>, capacity: int) {
    forall i :: 0 <= i < |xs| ==> Sane(xs[i], capacity)
  }

  ghost function TextOf(x: Readable, capacity: int): seq<int>
    requires Sane(x, capacity)
  {
    ColumnText(ColumnOf(x), x.origPtr)
  }

  /** The data of the blocks. */
  ghost function TextsOf(xs: seq<Readable>, capacity: int): seq<int>
    requires AllSane(xs, capacity)
  {
    if xs == [] then [] else TextOf(xs[0], capacity) + TextsOf(xs[1..], capacity)
  }

  /** Their check values, taken into that of the stream. */
  ghost function ChecksOf(xs: seq<Readable>, capacity: int, combined: bv32): bv32
    requires AllSane(xs, capacity)
  {
    if xs == [] then combined
    else ChecksOf(xs[1..], capacity, Combine(combined, CheckValue(TextOf(xs[0], capacity))))
  }

  ghost function BitsOfAll(xs: seq<Readable>, capacity: int): seq<bool>
    requires AllSane(xs, capacity)
  {
    if xs == [] then [] else ReadableBits(xs[0]) + BitsOfAll(xs[1..], capacity)
  }

  lemma AllParts(xs: seq<Readable>, capacity: int, combined: bv32)
    requires AllSane(xs, capacity)
    ensures xs != [] ==> Sane(xs[0], capacity) && Shaped(xs[0]) && AllSane(xs[1..], capacity)
    ensures xs != [] ==> BitsOfAll(xs, capacity) == ReadableBits(xs[0]) + BitsOfAll(xs[1..], capacity)
    ensures xs != [] ==> TextsOf(xs, capacity) == TextOf(xs[0], capacity) + TextsOf(xs[1..], capacity)
    ensures xs != [] ==>
      ChecksOf(xs, capacity, combined) ==
        ChecksOf(xs[1..], capacity, Combine(combined, CheckValue(TextOf(xs[0], capacity))))
    ensures xs == [] ==> BitsOfAll(xs, capacity) == [] && TextsOf(xs, capacity) == []
    ensures xs == [] ==> ChecksOf(xs, capacity, combined) == combined
  {
    hide Acceptable, CheckValue, Combine, ReadableBits, ColumnText, ColumnWhole, ColumnOf, Numbers, InRange;
    if xs != [] { SaneShaped(xs[0], capacity); }
  }

  lemma SaneShaped(x: Readable, capacity: int)
    requires Sane(x, capacity)
    ensures Acceptable(x, capacity) && Shaped(x)
  {
    hide ColumnText, ColumnWhole, ColumnOf, Numbers, InRange, GoodPaths, Unlisted, Spellable, Undo, Chars, Symbols;
  }

  lemma AllFirst(x: Readable, xs: seq<Readable>, capacity: int)
    requires Sane(x, capacity) && AllSane(xs, capacity)
    ensures AllSane([x] + xs, capacity) && ([x] + xs)[1..] == xs
  {
    hide Sane;
  }

  // One block at a time.

  lemma DecompressedFails(s: State, w: seq<bool>, combined: bv32, code: Status)
    requires Waiting(s) && Fails(Drive(s, w), code) && code != Ok && code != StreamEnd
    ensures Decompressed(s, w, combined).verdict != Finished
  {
    hide Drive, Good;
  }

  lemma DecompressedOver(s: State, w: seq<bool>, combined: bv32, s1: State, rest: seq<bool>)
    requires Waiting(s) && Drive(s, w) == Done(StreamEnd, s1, rest)
    ensures Decompressed(s, w, combined).verdict == Finished <==> s1.storedCombinedCRC == AsWord(combined)
    ensures Decompressed(s, w, combined).data == []
  {
    hide Drive, Good;
  }

  lemma DecompressedOk(s: State, w: seq<bool>, combined: bv32, s1: State, rest: seq<bool>)
    requires Waiting(s) && Drive(s, w) == Done(Ok, s1, rest) && Outputs(s1)
    ensures Decompressed(s, w, combined) == AfterBlock(s1, rest, combined) && |rest| < |w|
  {
    hide Drive, Good, AfterBlock, Outputs;
    DriveTakes(s, w);
  }

  /** A block that is held can be output; what it stands for is that of its column. */
  lemma HeldOutputs(s: State, x: Readable, s1: State, capacity: int)
    requires Acceptable(x, capacity)
    requires x.vs != [] && Unread(x.inUse).y != [] && Codes(Entries(x.vs), |Unread(x.inUse).y|) && Holds(s, x, s1)
    ensures Outputs(s1) && s1.tt == ColumnOf(x) && x.origPtr < |ColumnOf(x)| && Rotations.Bytes(ColumnOf(x))
    ensures BlockText(s1) == ColumnText(ColumnOf(x), x.origPtr) && BlockWhole(s1) == ColumnWhole(ColumnOf(x), x.origPtr)
    ensures s1.storedBlockCRC == x.crc && s1.randomised == x.randomised && s1.origPtr == x.origPtr
    ensures NextBlock(s1).at == BlkHdr(1) && NextBlock(s1).blockSize100k == s.blockSize100k
  {
    hide Lens, Spellable, Symbols, GoodPaths, Unlisted, Undo, ColumnText, ColumnWhole, BlockText, BlockWhole, Chars;
    FlushSize(Undo(Unread(x.inUse), Entries(x.vs)));
    ColumnBytesOf(x.inUse, Numbers(x));
    TextOfBlock(s1);
  }

  lemma ColumnBytesOf(inUse: seq<bool>, out: seq<int>)
    requires InRange(out, |Chars(inUse)|) && |inUse| <= 256
    ensures Rotations.Bytes(Spelled(inUse, out)) && |Spelled(inUse, out)| == |out|
  {
    hide Chars;
    ColumnBounds.CharsInRange(inUse);
  }

  lemma AfterSane(s1: State, rest: seq<bool>, combined: bv32)
    requires Outputs(s1)
    ensures var d := BlockText(s1);
      if !s1.randomised && BlockWhole(s1) && AsWord(CheckValue(d)) == s1.storedBlockCRC then
        var r := Decompressed(NextBlock(s1), rest, Combine(combined, CheckValue(d)));
        Waiting(NextBlock(s1)) && AfterBlock(s1, rest, combined) == Decoded(d + r.data, r.verdict)
      else AfterBlock(s1, rest, combined).verdict != Finished
  {
    hide BlockText, BlockWhole, Outputs, Decompressed, CheckValue, Combine, AsWord;
  }

  lemma SaneFrom(x: Readable, capacity: int)
    requires Acceptable(x, capacity) && !x.randomised
    requires x.vs != [] && Unread(x.inUse).y != [] && Codes(Entries(x.vs), |Unread(x.inUse).y|)
    requires InRange(Numbers(x), |Chars(x.inUse)|) && x.origPtr < |ColumnOf(x)| && Rotations.Bytes(ColumnOf(x))
    requires ColumnWhole(ColumnOf(x), x.origPtr)
    requires x.crc == AsWord(CheckValue(ColumnText(ColumnOf(x), x.origPtr)))
    ensures Sane(x, capacity) && TextOf(x, capacity) == ColumnText(ColumnOf(x), x.origPtr)
  {
    hide Acceptable, ColumnOf, ColumnText, ColumnWhole, Numbers, InRange;
  }

  lemma HoldsRange(s: State, x: Readable, s1: State)
    requires x.vs != [] && Unread(x.inUse).y != [] && Codes(Entries(x.vs), |Unread(x.inUse).y|) && Holds(s, x, s1)
    ensures InRange(Numbers(x), |Chars(x.inUse)|) && s1.blockSize100k == s.blockSize100k
  {
    hide Numbers, Spelled;
  }

  /** What is decompressed without damage, from the start of a block, is sane blocks and the trailer. */
  lemma {:induction false} BlocksFound(s: State, w: seq<bool>, combined: bv32)
    returns (xs: seq<Readable>, rest: seq<bool>)
    requires s.at == BlkHdr(1) && 1 <= s.blockSize100k <= 9
    requires Waiting(s) && Decompressed(s, w, combined).verdict == Finished
    ensures AllSane(xs, Capacity(s))
    ensures w == BitsOfAll(xs, Capacity(s)) + (TrailerBits(AsWord(ChecksOf(xs, Capacity(s), combined))) + rest)
    ensures Decompressed(s, w, combined).data == TextsOf(xs, Capacity(s))
    decreases |w|
  {
    hide Acceptable, AfterBlock, AllSane, AsWord, BitsOf, BitsOfAll, BlockText, BlockWhole, Capacity, CheckValue,
      ChecksOf, Codes, ColumnOf, ColumnText, ColumnWhole, Combine, Decompressed, Drive, Fails, Holds, InRange,
      NextBlock, Numbers, Outputs, ReadableBits, Sane, TextOf, TextsOf, TrailerBits, Unread, Value, Waiting;
    var capacity := Capacity(s);
    CapacityBounds(s);
    xs, rest := [], [];
    BlockStart(s, w);
    NoneSane(capacity);
    if BitsOf(BLOCK_MAGIC) <= w {
      var found, x, s1, more := BlockFound(s, w);
      if found {
        HeldOutputs(s, x, s1, capacity);
        HoldsRange(s, x, s1);
        DecompressedOk(s, w, combined, s1, more);
        AfterSane(s1, more, combined);
        SaneFrom(x, capacity);
        SameCapacity(s, NextBlock(s1));
        var c := Combine(combined, CheckValue(BlockText(s1)));
        var ys;
        ys, rest := BlocksFound(NextBlock(s1), more, c);
        AllFirst(x, ys, capacity);
        xs := [x] + ys;
        AllParts(xs, capacity, combined);
        Regroup2(ReadableBits(x), BitsOfAll(ys, capacity), TrailerBits(AsWord(ChecksOf(ys, capacity, c))) + rest);
      } else {
        DecompressedFails(s, w, combined, DataError);
      }
    } else if BitsOf(END_MAGIC) <= w {
      EndCode(s, w);
      EndLong(s, w, combined);
      var u := Value(w[48..80]);
      DecompressedOver(s, w, combined, s.(storedCombinedCRC := u, at := Idle), w[80..]);
      rest := w[80..];
      AllParts([], capacity, combined);
      assert [] + (TrailerBits(u) + rest) == TrailerBits(u) + rest;
    } else {
      DecompressedFails(s, w, combined, DataError);
    }
  }

  lemma EndLong(s: State, w: seq<bool>, combined: bv32)
    requires Waiting(s) && Decompressed(s, w, combined).verdict == Finished
    ensures !Drive(s, w).Short?
  {
    hide Drive, Good, AfterBlock;
  }

  lemma NoneSane(capacity: int)
    ensures AllSane([], capacity)
  {
  }

  lemma CapacityBounds(s: State)
    requires 1 <= s.blockSize100k <= 9
    ensures 0 <= Capacity(s) < N_LIMIT
  {
  }

  /** Sane blocks and the trailer are decompressed without damage. */
  lemma {:induction false} BlocksRead(s: State, xs: seq<Readable>, combined: bv32, rest: seq<bool>)
    requires s.at == BlkHdr(1) && 1 <= s.blockSize100k <= 9 && AllSane(xs, Capacity(s))
    ensures Waiting(s)
    ensures Decompressed(s,
        BitsOfAll(xs, Capacity(s)) + (TrailerBits(AsWord(ChecksOf(xs, Capacity(s), combined))) + rest), combined)
      == Decoded(TextsOf(xs, Capacity(s)), Finished)
    decreases |xs|
  {
    hide Acceptable, AfterBlock, AllSane, AsWord, BitsOf, BitsOfAll, BlockText, BlockWhole, Capacity, CheckValue,
      ChecksOf, Codes, ColumnOf, ColumnText, ColumnWhole, Combine, Decompressed, Drive, Holds, InRange, NextBlock,
      Numbers, Outputs, ReadableBits, Sane, TextOf, TextsOf, TrailerBits, Unread, Value, Waiting;
    var capacity := Capacity(s);
    CapacityBounds(s);
    BlkHdrWaits(s);
    AllParts(xs, capacity, combined);
    var u := AsWord(ChecksOf(xs, capacity, combined));
    AsWordFits(ChecksOf(xs, capacity, combined));
    var tail := TrailerBits(u) + rest;
    if xs == [] {
      TrailerDecodes(s, u, rest);
      assert [] + tail == tail;
      DecompressedEnd(s, tail, combined, s.(storedCombinedCRC := u, at := Idle), rest);
    } else {
      var x := xs[0];
      var more := BitsOfAll(xs[1..], capacity) + tail;
      Regroup2(ReadableBits(x), BitsOfAll(xs[1..], capacity), tail);
      SaneShaped(x, capacity);
      var s1 := BlockReads(s, x, more);
      HeldOutputs(s, x, s1, capacity);
      HoldsRange(s, x, s1);
      SaneFacts(x, capacity);
      DecompressedOk(s, ReadableBits(x) + more, combined, s1, more);
      AfterSane(s1, more, combined);
      SameCapacity(s, NextBlock(s1));
      BlocksRead(NextBlock(s1), xs[1..], Combine(combined, CheckValue(TextOf(x, capacity))), rest);
    }
  }

  lemma SaneFacts(x: Readable, capacity: int)
    requires Sane(x, capacity)
    ensures !x.randomised && x.vs != [] && Unread(x.inUse).y != [] && Codes(Entries(x.vs), |Unread(x.inUse).y|)
    ensures InRange(Numbers(x), |Chars(x.inUse)|) && x.origPtr < |ColumnOf(x)| && Rotations.Bytes(ColumnOf(x))
    ensures ColumnWhole(ColumnOf(x), x.origPtr) && TextOf(x, capacity) == ColumnText(ColumnOf(x), x.origPtr)
    ensures x.crc == AsWord(CheckValue(TextOf(x, capacity)))
  {
    hide Acceptable, ColumnOf, ColumnText, ColumnWhole, Numbers, InRange;
  }

  // The whole stream.

  /** The bits are a stream of these blocks, with something after it. */
  ghost predicate IsStream(w: seq<bool>, k: int, xs: seq<Readable>, rest: seq<bool>) {
    && 1 <= k <= 9 && AllSane(xs, 100000 * k)
    && w == BitsOf(StreamHeader(k)) +
       (BitsOfAll(xs, 100000 * k) + (TrailerBits(AsWord(ChecksOf(xs, 100000 * k, 0))) + rest))
  }

  /** A stream decompresses to the data of its blocks. */
  lemma StreamReads(s: State, w: seq<bool>, k: int, xs: seq<Readable>, rest: seq<bool>)
    requires s.at == Magic(1) && IsStream(w, k, xs, rest)
    ensures Waiting(s) && AllSane(xs, 100000 * k)
    ensures Decompressed(s, w, 0) == Decoded(TextsOf(xs, 100000 * k), Finished)
  {
    hide AllSane, AsWord, BitsOf, BitsOfAll, ChecksOf, Decompressed, Drive, StreamHeader, TextsOf, TrailerBits,
      Waiting;
    var x := BitsOfAll(xs, 100000 * k) + (TrailerBits(AsWord(ChecksOf(xs, 100000 * k, 0))) + rest);
    StreamStart(s, w);
    HeaderAhead(k, x);
    var s1 := s.(blockSize100k := k, at := BlkHdr(1));
    CapacityIs(s1);
    BlocksRead(s1, xs, 0, rest);
    DecompressedSame(s, w, s1, x, 0);
  }

  lemma HeaderAhead(k: int, x: seq<bool>)
    requires 1 <= k <= 9
    ensures var w := BitsOf(StreamHeader(k)) + x; |w| >= 32 && w[32..] == x && BitsOf(StreamHeader(k)) <= w
  {
    hide BitsOf;
  }

  lemma CapacityIs(s: State)
    ensures Capacity(s) == 100000 * s.blockSize100k
  {
  }

  /** Bits enough that begin with no stream header are damaged from the start. */
  lemma NoHeader(s: State, w: seq<bool>)
    requires s.at == Magic(1) && |w| >= 32 && forall k :: 1 <= k <= 9 ==> !(BitsOf(StreamHeader(k)) <= w)
    ensures Waiting(s) && Decompressed(s, w, 0) == Decoded([], Damaged(DataErrorMagic))
  {
    hide AfterBlock, BitsOf, Drive, Outputs, StreamHeader, Waiting;
    StreamStart(s, w);
  }

  /** Bits decompress without damage exactly when they begin with a stream: its header, sane blocks, and the
      trailer with their combined check value. */
  lemma StreamExactly(s: State, w: seq<bool>)
    requires s.at == Magic(1)
    ensures Waiting(s)
    ensures Decompressed(s, w, 0).verdict == Finished <==> exists k, xs, rest :: IsStream(w, k, xs, rest)
  {
    hide AllSane, AsWord, BitsOf, BitsOfAll, ChecksOf, Decompressed, Drive, Fails, IsStream, StreamHeader, TextsOf,
      TrailerBits, Waiting;
    StreamStart(s, w);
    if Decompressed(s, w, 0).verdict == Finished {
      if k :| 1 <= k <= 9 && BitsOf(StreamHeader(k)) <= w {
        var s1 := s.(blockSize100k := k, at := BlkHdr(1));
        CapacityIs(s1);
        DecompressedSame(s, w, s1, w[32..], 0);
        var xs, rest := BlocksFound(s1, w[32..], 0);
        StreamIs(w, k, xs, rest);
      } else {
        DecompressedFails(s, w, 0, DataErrorMagic);
      }
    }
    if k, xs, rest :| IsStream(w, k, xs, rest) { StreamReads(s, w, k, xs, rest); }
  }

  lemma StreamIs(w: seq<bool>, k: int, xs: seq<Readable>, rest: seq<bool>)
    requires 1 <= k <= 9 && AllSane(xs, 100000 * k) && BitsOf(StreamHeader(k)) <= w && |w| >= 32
    requires w[32..] == BitsOfAll(xs, 100000 * k) + (TrailerBits(AsWord(ChecksOf(xs, 100000 * k, 0))) + rest)
    ensures IsStream(w, k, xs, rest)
  {
    hide AllSane, AsWord, BitsOf, BitsOfAll, ChecksOf, TrailerBits;
    assert w == w[..32] + w[32..] && |BitsOf(StreamHeader(k))| == 32;
  }
}
