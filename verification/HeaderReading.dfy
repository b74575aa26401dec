/** What the decompressor makes of any bits at the places of the stream header, the magic numbers,
    the check values and the pointer.
 */
module HeaderReading {
  import opened Bits
  import opened BlockDecoding
  import opened CanonicalCodes
  import ColumnDecoding
  import opened Coroutine
  import opened Decompressor
  import opened RoundTrip
  import opened StreamFormat
  import opened Words

  /** A run that does not get further: the bits end, or an error is returned. */
  ghost predicate Fails(r: Result, code: Status) {
    r.Short? || r.code == code
  }

  lemma {:induction false} WordOfValue(w: seq<bool>)
    ensures Word(Value(w), |w|) == w
  {
    if w != [] {
      var n := |w| - 1;
      WordOfValue(w[..n]);
      assert Value(w) / 2 == Value(w[..n]);
      assert w == w[..n] + [w[n]];
    }
  }

  /** The next byte. */
  lemma ByteAt(w: seq<bool>) returns (v: nat)
    requires |w| >= 8
    ensures v == Value(w[..8]) < 256 && w == Word(v, 8) + w[8..] && w[..8] == Word(v, 8)
  {
    hide Word, Value, Pow2;
    v := Value(w[..8]);
    ByteSize();
    ValueFits(w[..8]);
    WordOfValue(w[..8]);
    assert w == w[..8] + w[8..];
  }

  lemma ByteRead(s: State, w: seq<bool>) returns (v: nat)
    requires ByteLabel(s) && |w| >= 8
    ensures v < 256 && w == Word(v, 8) + w[8..] && w[..8] == Word(v, 8)
    ensures Waiting(s) && Moves(AdvanceHeader(s, v)) && Drive(s, w) == Onward(AdvanceHeader(s, v), w[8..])
  {
    hide AdvanceHeader, Advance, Drive, Good, Need, Word, Value, Waiting, ByteLabel;
    v := ByteAt(w);
    ByteAdvance(s, v);
    DriveNext(s, w);
  }

  lemma ByteMissing(s: State, w: seq<bool>)
    requires ByteLabel(s) && |w| < 8
    ensures Waiting(s) && Drive(s, w) == Short(s, w)
  {
    hide Drive, ByteLabel;
    ByteAdvance(s, 0);
    DriveShort(s, w);
  }

  /** A byte and the bytes after it, as bits. */
  lemma BytesAhead(w: seq<bool>, v: nat, bytes: seq<nat>, n: nat)
    requires |w| >= 8 * (n + 1) && |bytes| == n && w[..8] == Word(v, 8)
    ensures |w[8..]| >= 8 * n && (w[8..][..8 * n] == BitsOf(bytes) ==> w[..8 * (n + 1)] == BitsOf([v] + bytes))
  {
    hide Word, BitsOf;
    BytesFirst(v, bytes, []);
    assert BitsOf([v] + bytes) + [] == BitsOf([v] + bytes) && BitsOf(bytes) + [] == BitsOf(bytes);
    assert w[..8 * (n + 1)] == w[..8] + w[8..][..8 * n];
  }

  // The stream header.

  /** The header byte at place i of four is one that begins a stream: for the last, with a block size. */
  lemma HeaderByte(s: State, i: int, v: nat)
    requires 1 <= i <= 4 && s.at == Magic(i)
    ensures ByteLabel(s)
    ensures if i < 4
      then if v == StreamHeader(1)[i - 1] then AdvanceHeader(s, v) == Continue(s.(at := Magic(i + 1)))
           else AdvanceHeader(s, v) == Return(DataErrorMagic, s)
      else if HDR_0 + 1 <= v <= HDR_0 + 9
           then AdvanceHeader(s, v) == Continue(s.(blockSize100k := v - HDR_0, at := BlkHdr(1)))
           else AdvanceHeader(s, v).Return? && AdvanceHeader(s, v).code == DataErrorMagic
  {
  }

  lemma HeadersAlike(k: int, i: int)
    requires 1 <= k <= 9 && 1 <= i <= 4
    ensures |StreamHeader(k)| == 4 && (i < 4 ==> StreamHeader(k)[i - 1] == StreamHeader(1)[i - 1])
    ensures StreamHeader(k)[i - 1..] == [StreamHeader(k)[i - 1]] + StreamHeader(k)[i..]
    ensures StreamHeader(k)[3..] == [HDR_0 + k] && StreamHeader(k)[4..] == []
  {
  }

  /** The run finds the header of some block size, or fails: with bits enough, as an error. */
  lemma {:induction false} HeaderFound(s: State, i: int, w: seq<bool>) returns (found: bool, k: int)
    requires 1 <= i <= 4 && s.at == Magic(i)
    ensures Waiting(s) && 1 <= k <= 9
    ensures found ==> |w| >= 8 * (5 - i) && w[..8 * (5 - i)] == BitsOf(StreamHeader(k)[i - 1..])
    ensures !found ==> Fails(Drive(s, w), DataErrorMagic) && (|w| >= 8 * (5 - i) ==> Drive(s, w).Done?)
    decreases 4 - i
  {
    hide AdvanceHeader, BitsOf, ByteLabel, Drive, Moves, Onward, StreamHeader, Waiting, Word;
    found, k := false, 1;
    HeaderByte(s, i, 0);
    if |w| < 8 {
      ByteMissing(s, w);
    } else {
      var v := ByteRead(s, w);
      HeaderByte(s, i, v);
      OnwardParts(AdvanceHeader(s, v), w[8..]);
      HeadersAlike(1, i);
      if i == 4 && HDR_0 + 1 <= v <= HDR_0 + 9 {
        found, k := true, v - HDR_0;
        HeadersAlike(k, 4);
        NoBits();
        BytesAhead(w, v, [], 0);
        assert [v] + [] == [v];
      } else if i < 4 && v == StreamHeader(1)[i - 1] {
        found, k := HeaderFound(s.(at := Magic(i + 1)), i + 1, w[8..]);
        HeadersAlike(k, i);
        if found { BytesAhead(w, v, StreamHeader(k)[i..], 4 - i); }
      }
    }
  }

  lemma OnwardParts(o: Outcome, x: seq<bool>)
    requires Moves(o)
    ensures o.Return? ==> Onward(o, x) == Done(o.code, o.s, x)
    ensures o.Continue? ==> Waiting(o.s) && Onward(o, x) == Drive(o.s, x)
  {
    hide Drive, Good;
  }

  /** A run gets past the stream header exactly when the first 32 bits are that of a block size from 1 to
      9; otherwise it ends as an error of the magic number. */
  lemma StreamStart(s: State, w: seq<bool>)
    requires s.at == Magic(1)
    ensures Waiting(s)
    ensures forall k :: 1 <= k <= 9 && BitsOf(StreamHeader(k)) <= w ==>
      |w| >= 32 && Waiting(s.(blockSize100k := k, at := BlkHdr(1))) &&
        Drive(s, w) == Drive(s.(blockSize100k := k, at := BlkHdr(1)), w[32..])
    ensures (forall k :: 1 <= k <= 9 ==> !(BitsOf(StreamHeader(k)) <= w)) ==>
      Fails(Drive(s, w), DataErrorMagic) && (|w| >= 32 ==> Drive(s, w).Done?)
  {
    hide BitsOf, Drive, Fails, StreamHeader, Waiting;
    MagicWaits(s);
    forall k | 1 <= k <= 9 && BitsOf(StreamHeader(k)) <= w
      ensures |w| >= 32 && Waiting(s.(blockSize100k := k, at := BlkHdr(1)))
      ensures Drive(s, w) == Drive(s.(blockSize100k := k, at := BlkHdr(1)), w[32..])
    {
      HeaderLeads(s, w, k);
    }
    var k := HeaderOrFail(s, w);
  }

  lemma HeaderLeads(s: State, w: seq<bool>, k: int)
    requires s.at == Magic(1) && 1 <= k <= 9 && BitsOf(StreamHeader(k)) <= w
    ensures Waiting(s) && |w| >= 32 && Waiting(s.(blockSize100k := k, at := BlkHdr(1)))
    ensures Drive(s, w) == Drive(s.(blockSize100k := k, at := BlkHdr(1)), w[32..])
  {
    hide BitsOf, Drive, StreamHeader, Waiting;
    MagicWaits(s);
    HeadersAlike(k, 1);
    assert StreamHeader(k)[0..] == StreamHeader(k) && w == BitsOf(StreamHeader(k)) + w[32..];
    HeaderDecodes(s, k, 1, w[32..]);
  }

  lemma HeaderOrFail(s: State, w: seq<bool>) returns (k: int)
    requires s.at == Magic(1)
    ensures Waiting(s) && 1 <= k <= 9
    ensures BitsOf(StreamHeader(k)) <= w || (Fails(Drive(s, w), DataErrorMagic) && (|w| >= 32 ==> Drive(s, w).Done?))
  {
    hide BitsOf, Drive, Fails, StreamHeader, Waiting;
    var found;
    found, k := HeaderFound(s, 1, w);
    HeadersAlike(k, 1);
    assert StreamHeader(k)[0..] == StreamHeader(k);
    if found { PrefixIs(w, BitsOf(StreamHeader(k))); }
  }

  // The start of a block, and of the trailer.

  lemma MagicByte(s: State, k: int, v: nat)
    requires 1 <= k <= 6 && s.at == BlkHdr(k)
    ensures ByteLabel(s) && |BLOCK_MAGIC| == 6 && BLOCK_MAGIC[k - 1..] == [BLOCK_MAGIC[k - 1]] + BLOCK_MAGIC[k..]
    ensures v == BLOCK_MAGIC[k - 1] && k < 6 ==> AdvanceHeader(s, v) == Continue(s.(at := BlkHdr(k + 1)))
    ensures v != BLOCK_MAGIC[k - 1] && !(k == 1 && v == END_MAGIC[0]) ==> AdvanceHeader(s, v) == Return(DataError, s)
  {
  }

  lemma EndByte(s: State, k: int, v: nat)
    requires 1 <= k <= 6 && s.at == (if k == 1 then BlkHdr(1) else EndHdr(k))
    ensures ByteLabel(s) && |END_MAGIC| == 6 && END_MAGIC[k - 1..] == [END_MAGIC[k - 1]] + END_MAGIC[k..]
    ensures v == END_MAGIC[k - 1] && k < 6 ==> AdvanceHeader(s, v) == Continue(s.(at := EndHdr(k + 1)))
    ensures v != END_MAGIC[k - 1] && k > 1 ==> AdvanceHeader(s, v) == Return(DataError, s)
  {
  }

  /** From the second byte on: the rest of the magic number, or a failure. */
  lemma {:induction false} MagicFound(s: State, k: int, w: seq<bool>) returns (found: bool)
    requires 2 <= k <= 6 && s.at == BlkHdr(k)
    ensures Waiting(s)
    ensures found ==> |w| >= 8 * (7 - k) && w[..8 * (7 - k)] == BitsOf(BLOCK_MAGIC[k - 1..])
    ensures !found ==> Fails(Drive(s, w), DataError) && (|w| >= 8 * (7 - k) ==> Drive(s, w).Done?)
    decreases 6 - k
  {
    hide AdvanceHeader, BitsOf, ByteLabel, Drive, Moves, Onward, Waiting, Word;
    found := false;
    MagicByte(s, k, 0);
    if |w| < 8 {
      ByteMissing(s, w);
    } else {
      var v := ByteRead(s, w);
      MagicByte(s, k, v);
      OnwardParts(AdvanceHeader(s, v), w[8..]);
      if v == BLOCK_MAGIC[k - 1] {
        if k == 6 {
          found := true;
          assert BLOCK_MAGIC[6..] == [];
          NoBits();
          BytesAhead(w, v, [], 0);
          assert [v] + [] == [v];
        } else {
          found := MagicFound(s.(at := BlkHdr(k + 1)), k + 1, w[8..]);
          if found { BytesAhead(w, v, BLOCK_MAGIC[k..], 6 - k); }
        }
      }
    }
  }

  lemma {:induction false} EndFound(s: State, k: int, w: seq<bool>) returns (found: bool)
    requires 2 <= k <= 6 && s.at == EndHdr(k)
    ensures Waiting(s)
    ensures found ==> |w| >= 8 * (7 - k) && w[..8 * (7 - k)] == BitsOf(END_MAGIC[k - 1..])
    ensures !found ==> Fails(Drive(s, w), DataError) && (|w| >= 8 * (7 - k) ==> Drive(s, w).Done?)
    decreases 6 - k
  {
    hide AdvanceHeader, BitsOf, ByteLabel, Drive, Moves, Onward, Waiting, Word;
    found := false;
    EndByte(s, k, 0);
    if |w| < 8 {
      ByteMissing(s, w);
    } else {
      var v := ByteRead(s, w);
      EndByte(s, k, v);
      OnwardParts(AdvanceHeader(s, v), w[8..]);
      if v == END_MAGIC[k - 1] {
        if k == 6 {
          found := true;
          assert END_MAGIC[6..] == [];
          NoBits();
          BytesAhead(w, v, [], 0);
          assert [v] + [] == [v];
        } else {
          found := EndFound(s.(at := EndHdr(k + 1)), k + 1, w[8..]);
          if found { BytesAhead(w, v, END_MAGIC[k..], 6 - k); }
        }
      }
    }
  }

  lemma MagicDiffers()
    ensures |BLOCK_MAGIC| == |END_MAGIC| == 6 && BLOCK_MAGIC[0] != END_MAGIC[0]
    ensures BLOCK_MAGIC[0..] == BLOCK_MAGIC && END_MAGIC[0..] == END_MAGIC
  {
  }

  lemma PrefixIs(w: seq<bool>, p: seq<bool>)
    requires |p| <= |w| && w[..|p|] == p
    ensures p <= w
  {
  }

  lemma NeitherFound(s: State, w: seq<bool>)
    requires s.at == BlkHdr(1) && !(BitsOf(BLOCK_MAGIC) <= w) && !(BitsOf(END_MAGIC) <= w)
    ensures Waiting(s) && Fails(Drive(s, w), DataError) && (|w| >= 48 ==> Drive(s, w).Done?)
  {
    hide AdvanceHeader, BitsOf, ByteLabel, Drive, Moves, Onward, Waiting, Word;
    MagicDiffers();
    MagicByte(s, 1, 0);
    if |w| < 8 {
      ByteMissing(s, w);
    } else {
      var v := ByteRead(s, w);
      MagicByte(s, 1, v);
      EndByte(s, 1, v);
      OnwardParts(AdvanceHeader(s, v), w[8..]);
      if v == BLOCK_MAGIC[0] {
        var found := MagicFound(s.(at := BlkHdr(2)), 2, w[8..]);
        if found {
          BytesAhead(w, v, BLOCK_MAGIC[1..], 5);
          PrefixIs(w, BitsOf(BLOCK_MAGIC));
        }
      } else if v == END_MAGIC[0] {
        var found := EndFound(s.(at := EndHdr(2)), 2, w[8..]);
        if found {
          BytesAhead(w, v, END_MAGIC[1..], 5);
          PrefixIs(w, BitsOf(END_MAGIC));
        }
      }
    }
  }

  /** Where a block may begin, a run goes on exactly when the next 48 bits are the magic number of a
      block or that of the end; otherwise it ends as a data error. */
  lemma BlockStart(s: State, w: seq<bool>)
    requires s.at == BlkHdr(1)
    ensures Waiting(s)
    ensures BitsOf(BLOCK_MAGIC) <= w ==>
      |w| >= 48 && Waiting(s.(storedBlockCRC := 0, at := BlkCrc(1))) &&
        Drive(s, w) == Drive(s.(storedBlockCRC := 0, at := BlkCrc(1)), w[48..])
    ensures BitsOf(END_MAGIC) <= w ==>
      |w| >= 48 && Waiting(s.(storedCombinedCRC := 0, at := CombCrc(1))) &&
        Drive(s, w) == Drive(s.(storedCombinedCRC := 0, at := CombCrc(1)), w[48..])
    ensures !(BitsOf(BLOCK_MAGIC) <= w) && !(BitsOf(END_MAGIC) <= w) ==>
      Fails(Drive(s, w), DataError) && (|w| >= 48 ==> Drive(s, w).Done?)
  {
    hide BitsOf, Drive, Fails, Waiting;
    ColumnDecoding.BlkHdrWaits(s);
    MagicDiffers();
    if BitsOf(BLOCK_MAGIC) <= w {
      assert w == BitsOf(BLOCK_MAGIC) + w[48..];
      MagicDecodes(s, 1, w[48..]);
    }
    if BitsOf(END_MAGIC) <= w {
      assert w == BitsOf(END_MAGIC) + w[48..];
      EndDecodes(s, 1, w[48..]);
    }
    if !(BitsOf(BLOCK_MAGIC) <= w) && !(BitsOf(END_MAGIC) <= w) { NeitherFound(s, w); }
  }

  // Words and the pointer.

  lemma WordBytesBits(u: nat)
    requires u < WORD
    ensures BitsOf(WordBytes(u)) == Word(u, 32)
  {
    hide Word, BitsOf;
    ByteSize();
    var b := WordBytes(u);
    WordSplit(u, 24);
    WordSplit(u / 256, 16);
    WordSplit(u / 256 / 256, 8);
    WordSplit(u / 256 / 256 / 256, 0);
    BitsOfNext([], b[0]);
    BitsOfNext([b[0]], b[1]);
    BitsOfNext([b[0], b[1]], b[2]);
    BitsOfNext([b[0], b[1], b[2]], b[3]);
    NoBits();
    NoWord(u / 256 / 256 / 256 / 256);
    assert [] + [b[0]] == [b[0]] && [b[0]] + [b[1]] == [b[0], b[1]];
    assert [b[0], b[1]] + [b[2]] == [b[0], b[1], b[2]] && [b[0], b[1], b[2]] + [b[3]] == b;
    assert [] + Word(b[0], 8) == Word(b[0], 8);
  }

  lemma NoWord(u: nat)
    ensures Word(u, 0) == []
  {
  }

  lemma WordAhead(w: seq<bool>, n: nat) returns (v: nat)
    requires |w| >= n
    ensures v == Value(w[..n]) < Pow2(n) && w == Word(v, n) + w[n..] && w[..n] == Word(v, n)
  {
    hide Word, Value, Pow2;
    v := Value(w[..n]);
    ValueFits(w[..n]);
    WordOfValue(w[..n]);
    assert w == w[..n] + w[n..];
  }

  lemma WordSizes()
    ensures Pow2(32) == WORD && Pow2(24) == 0x100_0000
  {
    ByteSize();
    Pow2Add(8, 8);
    Pow2Add(16, 8);
    Pow2Add(16, 16);
  }

  /** The 32 bits after the magic number are the check value of the block. */
  lemma CrcRead(s: State, w: seq<bool>)
    requires s.at == BlkCrc(1) && s.storedBlockCRC == 0 && |w| >= 32
    ensures var u := Value(w[..32]); var s1 := s.(storedBlockCRC := u, at := RandBit);
      u < WORD && w[..32] == BitsOf(WordBytes(u)) && Waiting(s) && Waiting(s1) && Drive(s, w) == Drive(s1, w[32..])
  {
    hide BitsOf, Drive, Value, Waiting, Word, WordBytes;
    WordSizes();
    var u := WordAhead(w, 32);
    WordBytesBits(u);
    ColumnDecoding.ZeroLeads(u, 0);
    assert WordBytes(u)[0..] == WordBytes(u);
    CrcDecodes(s, u, 1, w[32..]);
    CrcWaits(s);
  }

  lemma CrcWaits(s: State)
    requires s.at.BlkCrc? || s.at.CombCrc? || s.at.OrigPtr? || s.at == RandBit
    ensures Waiting(s)
  {
  }

  /** And those after the magic number of the end are that of the stream. */
  lemma CombinedRead(s: State, w: seq<bool>)
    requires s.at == CombCrc(1) && s.storedCombinedCRC == 0 && |w| >= 32
    ensures var u := Value(w[..32]);
      && u < WORD && w[..32] == BitsOf(WordBytes(u)) && Waiting(s)
      && Drive(s, w) == Done(StreamEnd, s.(storedCombinedCRC := u, at := Idle), w[32..])
  {
    hide BitsOf, Drive, Value, Waiting, Word, WordBytes;
    WordSizes();
    var u := WordAhead(w, 32);
    WordBytesBits(u);
    ColumnDecoding.ZeroLeads(u, 0);
    assert WordBytes(u)[0..] == WordBytes(u);
    CombinedDecodes(s, u, 1, w[32..]);
  }

  /** The flag of a randomised block. */
  lemma RandRead(s: State, w: seq<bool>)
    requires s.at == RandBit && w != []
    ensures var s1 := s.(randomised := w[0], origPtr := 0, at := OrigPtr(1));
      Waiting(s) && Waiting(s1) && Drive(s, w) == Drive(s1, w[1..])
  {
    hide Drive;
    assert w == [w[0]] + [] + w[1..] && [] + w[1..] == w[1..];
    BitTo(s, w[0], [], s.(randomised := w[0], origPtr := 0, at := OrigPtr(1)), w[1..]);
  }

  lemma PointerAdvance(s: State, k: int, b: nat)
    requires 1 <= k <= 3 && s.at == OrigPtr(k)
    ensures ByteLabel(s)
    ensures k < 3 ==> AdvanceHeader(s, b) == Continue(s.(origPtr := s.origPtr * 256 + b, at := OrigPtr(k + 1)))
    ensures k == 3 && s.origPtr * 256 + b > 10 + Capacity(s) ==>
      AdvanceHeader(s, b).Return? && AdvanceHeader(s, b).code == DataError
  {
  }

  lemma PointerJoined(v: nat)
    ensures var b := PointerBytes(v);
      && |b| == 3 && b[0] < 256 && b[1] < 256 && b[2] < 256 && b == [b[0]] + b[1..] && b[1..] == [b[1]] + b[2..]
      && b[2..] == [b[2]] + [] && (v < 0x100_0000 ==> (b[0] * 256 + b[1]) * 256 + b[2] == v)
  {
  }

  lemma PointerLarge(s: State, v: nat, x: seq<bool>)
    requires s.at == OrigPtr(1) && v < 0x100_0000 && s.origPtr == 0 && v > 10 + Capacity(s)
    ensures Waiting(s)
    ensures var r := Drive(s, BitsOf(PointerBytes(v)) + x); r.Done? && r.code == DataError
  {
    hide Advance, AdvanceHeader, BitsOf, ByteLabel, Capacity, Drive, Good, Moves, Need, Onward, PointerBytes, Waiting;
    var b := PointerBytes(v);
    PointerJoined(v);
    PointerAdvance(s, 1, b[0]);
    ByteAdvance(s, b[0]);
    var s1 := s.(origPtr := b[0], at := OrigPtr(2));
    ByteTo(s, b[0], b[1..], s1, b, x);
    PointerAdvance(s1, 2, b[1]);
    ByteAdvance(s1, b[1]);
    var s2 := s1.(origPtr := b[0] * 256 + b[1], at := OrigPtr(3));
    ByteTo(s1, b[1], b[2..], s2, b[1..], x);
    ColumnDecoding.SameCapacity(s, s2);
    PointerAdvance(s2, 3, b[2]);
    ByteAdvance(s2, b[2]);
    StepByte(s2, b[2], [], x);
    OnwardParts(Advance(s2, b[2]), BitsOf([]) + x);
  }

  /** The 24 bits of the pointer: it is refused exactly when it is more than ten beyond the block size. */
  lemma PointerRead(s: State, w: seq<bool>)
    requires s.at == OrigPtr(1) && s.origPtr == 0 && |w| >= 24
    ensures Waiting(s)
    ensures var v := Value(w[..24]); var s1 := s.(origPtr := v, inUse16 := [], at := Mapping1);
      && v < 0x100_0000 && w[..24] == Word(v, 24)
      && if v <= 10 + Capacity(s) then Waiting(s1) && Drive(s, w) == Drive(s1, w[24..])
         else Drive(s, w).Done? && Drive(s, w).code == DataError
  {
    hide BitsOf, Capacity, Drive, PointerBytes, Value, Waiting, Word;
    WordSizes();
    CrcWaits(s);
    var v := WordAhead(w, 24);
    PointerBits(v);
    if v <= 10 + Capacity(s) { PointerDecodes(s, v, w[24..]); } else { PointerLarge(s, v, w[24..]); }
  }
}
