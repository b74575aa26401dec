/** The compressor's streaming interface: modes, stages, and what has been taken in and given out. */
module Compressor {
  import opened Bits
  import opened BitWriters
  import opened BlockCompressor
  import opened BlockCrc
  import opened BlockLength
  import opened BlockWriter
  import ColumnDecoding
  import opened Counters
  import opened Decompressor
  import opened MainCompare
  import opened RoundTrip
  import opened RunCoder
  import opened RunLength
  import opened StreamDecoding
  import opened StreamFormat

  datatype Mode = Stopped | Running | Flushing | Finishing
  datatype Stage = Gathering | Delivering
  datatype Action = Run | Flush | Finish | Unknown
  datatype Refusal = Accepted | Refused(answer: Answer)
  datatype Answer = RunOk | FlushOk | FinishOk | StreamEnd | SequenceError | ParamError

  /** The bits written so far: a header once the first block is closed, the blocks, and at the
      end the trailer and what fills the last byte. */
  ghost predicate Streamed(k: int, headed: bool, sent: seq<Sent>, ended: bool, fill: seq<bool>, bits: seq<bool>) {
    && 1 <= k <= 9 && (!headed ==> sent == [] && !ended) && AllFaithful(sent, 100000 * k)
    && (forall i :: 0 <= i < |sent| ==> Sendable(sent[i].b))
    && bits == (if headed then BitsOf(StreamHeader(k)) + BlocksBits(sent) else [])
             + (if ended then TrailerBits(AsWord(Combined(sent, 0))) + fill else [])
  }

  lemma {:induction false} BlocksMore(xs: seq<Sent>, x: Sent, c: bv32)
    requires forall i :: 0 <= i < |xs| ==> Sendable(xs[i].b)
    requires Sendable(x.b)
    ensures forall i :: 0 <= i < |xs + [x]| ==> Sendable((xs + [x])[i].b)
    ensures BlocksBits(xs + [x]) == BlocksBits(xs) + BlockBits(x.b)
    ensures Data(xs + [x]) == Data(xs) + Plain(x.ps)
    ensures Combined(xs + [x], c) == Combine(Combined(xs, c), CheckValue(Plain(x.ps)))
    decreases |xs|
  {
    hide Sendable, BlockBits, Plain, CheckValue, Combine;
    assert forall i :: 0 <= i < |xs + [x]| ==> Sendable((xs + [x])[i].b);
    if xs == [] {
      assert [] + [x] == [x] && [x][1..] == [];
      assert BlocksBits([x]) == BlockBits(x.b) + [] && [] + BlockBits(x.b) == BlockBits(x.b) + [];
      assert Data([x]) == Plain(x.ps) + [] && [] + Plain(x.ps) == Plain(x.ps) + [];
      assert Combined([x], c) == Combined([], Combine(c, CheckValue(Plain(x.ps))));
    } else {
      assert (xs + [x])[1..] == xs[1..] + [x];
      BlocksMore(xs[1..], x, Combine(c, CheckValue(Plain(xs[0].ps))));
    }
  }

  lemma FaithfulWiden(x: Sent, n: int, capacity: int)
    requires Faithful(x, n) && n <= capacity < N_LIMIT
    ensures Faithful(x, capacity) && Sendable(x.b)
  {
    hide Squeezed, Plain, CheckValue, MoveToFront.Coded, MoveToFront.Ranks, Sendable, Rotations.IsSorted, ColumnNumbers;
    FaithfulFacts(x, n);
  }

  lemma OpenFacts(k: int, sent: seq<Sent>, bits: seq<bool>)
    requires Streamed(k, true, sent, false, [], bits)
    ensures 1 <= k <= 9 && AllFaithful(sent, 100000 * k) && (forall i :: 0 <= i < |sent| ==> Sendable(sent[i].b))
    ensures bits == BitsOf(StreamHeader(k)) + BlocksBits(sent)
  {
    hide AllFaithful, Sendable, BlocksBits, BitsOf, StreamHeader;
    assert bits == BitsOf(StreamHeader(k)) + BlocksBits(sent) + [];
  }

  lemma OpenFrom(k: int, sent: seq<Sent>, bits: seq<bool>)
    requires 1 <= k <= 9 && AllFaithful(sent, 100000 * k) && (forall i :: 0 <= i < |sent| ==> Sendable(sent[i].b))
    requires bits == BitsOf(StreamHeader(k)) + BlocksBits(sent)
    ensures Streamed(k, true, sent, false, [], bits)
  {
    hide AllFaithful, Sendable, BlocksBits, BitsOf;
    assert bits == BitsOf(StreamHeader(k)) + BlocksBits(sent) + [];
  }

  lemma FaithfulMore(xs: seq<Sent>, x: Sent, capacity: int)
    requires AllFaithful(xs, capacity) && Faithful(x, capacity)
    ensures AllFaithful(xs + [x], capacity)
  {
    hide Faithful;
  }

  /** Another block has been written. */
  lemma StreamedBlock(k: int, sent: seq<Sent>, bits: seq<bool>, x: Sent, n: int)
    requires Streamed(k, true, sent, false, [], bits) && Faithful(x, n) && n <= 100000 * k
    ensures Sendable(x.b) && Streamed(k, true, sent + [x], false, [], bits + BlockBits(x.b))
  {
    hide *;
    OpenFacts(k, sent, bits);
    Limit();
    FaithfulWiden(x, n, 100000 * k);
    BlocksMore(sent, x, 0);
    FaithfulMore(sent, x, 100000 * k);
    ColumnDecoding.Regroup2(BitsOf(StreamHeader(k)), BlocksBits(sent), BlockBits(x.b));
    OpenFrom(k, sent + [x], bits + BlockBits(x.b));
  }

  lemma Limit()
    ensures 900000 < N_LIMIT
  {
  }

  /** The header has been written. */
  lemma StreamedHeader(k: int, bits: seq<bool>)
    requires Streamed(k, false, [], false, [], bits)
    ensures bits == [] && Streamed(k, true, [], false, [], BitsOf(StreamHeader(k)))
    ensures forall i :: 0 <= i < |StreamHeader(k)| ==> StreamHeader(k)[i] < 256
  {
    hide BitsOf;
    assert BlocksBits([]) == [];
    assert BitsOf(StreamHeader(k)) + [] + [] == BitsOf(StreamHeader(k));
  }

  /** The trailer has been written and the last byte filled. */
  lemma StreamedEnd(k: int, sent: seq<Sent>, bits: seq<bool>, fill: seq<bool>)
    requires Streamed(k, true, sent, false, [], bits)
    ensures Streamed(k, true, sent, true, fill, bits + TrailerBits(AsWord(Combined(sent, 0))) + fill)
  {
    hide AllFaithful, Sendable, BlocksBits, BitsOf, TrailerBits;
    var t := TrailerBits(AsWord(Combined(sent, 0)));
    assert bits == BitsOf(StreamHeader(k)) + BlocksBits(sent) + [] == BitsOf(StreamHeader(k)) + BlocksBits(sent);
    ColumnDecoding.Regroup2(bits, t, fill);
  }

  /** What has been written in the end is a stream that decompresses to the data. */
  lemma StreamedDecompresses(k: int, sent: seq<Sent>, fill: seq<bool>, bits: seq<bool>, s: State)
    requires Streamed(k, true, sent, true, fill, bits) && s.at == Magic(1)
    ensures Waiting(s) && Decompressed(s, bits, 0) == Decoded(Data(sent), Finished)
  {
    hide AllFaithful, Sendable, BlocksBits, BitsOf, TrailerBits, Decompressed, Data, Good;
    StreamRoundTrip(s, k, sent, fill);
    var h, b, t := BitsOf(StreamHeader(k)), BlocksBits(sent), TrailerBits(AsWord(Combined(sent, 0)));
    ColumnDecoding.Regroup2(h, b, t + fill);
    assert bits == StreamBits(k, sent, fill);
  }

  lemma PlainHeld(ps: seq<Pair>, ch: int, len: int)
    ensures Plain(ps + Held(ch, len)) == Plain(ps) + Plain(Held(ch, len))
  {
    hide Plain, Squeezed, PairBytes;
    PlainNone();
    var h := Held(ch, len);
    if h == [] {
      assert ps + h == ps && Plain(ps) + [] == Plain(ps);
    } else {
      PlainMore(ps, h[0]);
      PlainMore([], h[0]);
      assert h == [h[0]] && [] + [h[0]] == [h[0]];
    }
  }

  lemma PlainNone()
    ensures Plain([]) == []
  {
  }

  /** An empty block has no runs. */
  lemma EmptyRuns(ps: seq<Pair>, ch: int, len: int)
    requires Gathered(ps, ch, len) && Squeezed(ps) == []
    ensures ps == []
  {
    if ch < NO_CHAR {
      HeldPair(ps, ch, len);
      RunsLess(ps, Pair(ch, len));
    } else {
      assert ps + Held(ch, len) == ps;
    }
    SqueezedRange(ps);
  }

  ghost predicate AllBytes(bytes: seq<nat>) {
    forall i :: 0 <= i < |bytes| ==> bytes[i] < 256
  }

  lemma BytesTogether(a: seq<nat>, writer: BitWriter, n: nat)
    requires AllBytes(a) && writer.Valid() && n <= |writer.zbits|
    ensures AllBytes(a + writer.zbits[..n])
  {
  }

  lemma StartFacts(k: int)
    requires 1 <= k <= 9
    ensures Streamed(k, false, [], false, [], []) && BitsOf([]) == [] && Data([]) == [] && Combined([], 0) == 0
    ensures Counts(0, 0, 0) && AllBytes([])
  {
    CountNone();
  }

  /** The cells of a block. */
  function Cells(x: Sent): nat {
    |Squeezed(x.ps)|
  }

  /** From the m-th on all blocks have at least n cells, but for the last one if it may be short. */
  ghost predicate Packed(xs: seq<Sent>, m: nat, n: int, short: bool) {
    forall i :: m <= i < |xs| && (short ==> i < |xs| - 1) ==> Cells(xs[i]) >= n
  }

  lemma PackedMore(xs: seq<Sent>, x: Sent, m: nat, n: int)
    requires Packed(xs, m, n, false)
    ensures Packed(xs + [x], m, n, true) && (Cells(x) >= n ==> Packed(xs + [x], m, n, false))
  {
    hide Cells;
  }

  lemma PackedNone(xs: seq<Sent>, n: int, short: bool)
    ensures Packed(xs, |xs|, n, short)
  {
  }

  lemma PackedShort(xs: seq<Sent>, m: nat, n: int, short: bool)
    requires Packed(xs, m, n, short)
    ensures Packed(xs, m, n, true)
  {
    hide Cells;
  }

  /** The blocks are as they were, or there is one more, with c cells. */
  ghost predicate BlockAdded(before: seq<Sent>, after: seq<Sent>, c: int) {
    after == before || (exists x :: after == before + [x] && Cells(x) == c)
  }

  lemma BlockAddedPacked(before: seq<Sent>, after: seq<Sent>, c: int, m: nat, n: int)
    requires BlockAdded(before, after, c) && Packed(before, m, n, false) && m <= |before|
    ensures m <= |after| && before <= after
    ensures Packed(after, m, n, true) && (c >= n ==> Packed(after, m, n, false))
  {
    hide Cells;
    if after != before {
      var x :| after == before + [x] && Cells(x) == c;
      PackedMore(before, x, m, n);
    }
  }

  class Compressor {
    const coder: RunCoder
    const writer: BitWriter
    const blockSize100k: int
    const nblockMAX: int
    const workFactor: int
    const choose: Chooser
    var stage: Stage
    var mode: Mode
    var blockNo: int
    var stateOutPos: nat
    var availInExpect: int
    var combinedCRC: bv32
    var totalInLo: nat
    var totalInHi: nat
    var totalOutLo: nat
    var totalOutHi: nat
    ghost var consumed: seq<int>
    ghost var delivered: seq<nat>
    ghost var prior: seq<nat>
    ghost var sent: seq<Sent>
    ghost var headed: bool
    ghost var ended: bool
    ghost var fill: seq<bool>

    /** The bytes taken in are those of the blocks sent, of the block being gathered, and of the
        pending run. */
    ghost predicate Accounted()
      reads this`consumed, this`sent, this`stage, coder
    {
      consumed == Data(sent) + if stage == Gathering then coder.Text()
        else Plain(Held(coder.stateInCh, coder.stateInLen))
    }

    /** The bytes given out and still to be given out are those of the stream so far. */
    ghost predicate Written()
      reads this`stateOutPos, this`delivered, this`prior, this`headed, this`sent, this`ended, this`fill, writer
    {
      && writer.Valid() && stateOutPos <= |writer.zbits| && delivered == prior + writer.zbits[..stateOutPos]
      && Streamed(blockSize100k, headed, sent, ended, fill, BitsOf(prior) + writer.Written())
      && AllBytes(prior) && |fill| < 8
      && (if ended then writer.pending == [] else writer.bsLive >= 0 && fill == [])
    }

    /** The counters tell how many bytes have gone in and out. */
    ghost predicate Counted()
      reads this`totalInLo, this`totalInHi, this`totalOutLo, this`totalOutHi, this`consumed, this`delivered
    {
      Counts(totalInLo, totalInHi, |consumed|) && Counts(totalOutLo, totalOutHi, |delivered|)
    }

    ghost predicate Valid()
      reads this`stage, this`blockNo, this`stateOutPos, this`combinedCRC
      reads this`totalInLo, this`totalInHi, this`totalOutLo, this`totalOutHi
      reads this`consumed, this`delivered, this`prior, this`sent, this`headed, this`ended, this`fill
      reads coder, coder.block, coder.inUse, writer
    {
      && 1 <= blockSize100k <= 9 && nblockMAX == 100000 * blockSize100k - 19 && ChoosesWell(choose)
      && coder.Valid() && coder.block.Length == 100000 * blockSize100k + N_OVERSHOOT
      && 0 <= coder.nblock <= 100000 * blockSize100k - 10
      && Accounted() && Written() && Counted() && combinedCRC == Combined(sent, 0) && blockNo >= 1
      && headed == (blockNo > 1 || stage == Delivering)
      && (stage == Gathering ==> writer.zbits == [] && stateOutPos == 0)
      && (ended ==> stage == Delivering && coder.stateInCh == NO_CHAR)
    }

    /** No run is pending. */
    predicate EmptyRL()
      reads coder`stateInCh, coder`stateInLen
    {
      !(coder.stateInCh < NO_CHAR && coder.stateInLen > 0)
    }

    /** The block has room for input, and no run has been ended early. */
    predicate Open()
      reads this`stage, coder
    {
      stage == Gathering && coder.nblock < nblockMAX && (coder.stateInCh == NO_CHAR ==> coder.nblock == 0)
    }

    /** Between calls: a block that takes input is open; one being given out before the end leaves
        a run pending or input expected, unless the caller is flushing. */
    ghost predicate Settled()
      reads this`stage, this`mode, this`ended, this`availInExpect, this`stateOutPos, coder, writer`zbits
    {
      && (stage == Gathering ==> Open())
      && (stage == Delivering && !ended && mode != Flushing ==> !EmptyRL() || (mode == Finishing && availInExpect > 0))
      && (ended ==> (mode == Finishing && availInExpect == 0) || mode == Stopped)
      && (mode == Stopped ==> ended && stateOutPos == |writer.zbits|)
    }

    /** An ended stream has not been given out entirely. */
    ghost predicate Unfinished()
      reads this`ended, this`stateOutPos, writer`zbits
    {
      ended ==> stateOutPos < |writer.zbits|
    }

    constructor (k: int, workFactor: int, choose: Chooser)
      requires 1 <= k <= 9 && ChoosesWell(choose)
      ensures Valid() && Settled() && Unfinished() && mode == Running && consumed == [] && delivered == []
      ensures blockSize100k == k && sent == [] && stage == Gathering
      ensures fresh(coder) && fresh(coder.block) && fresh(coder.inUse) && fresh(writer)
    {
      hide AllBytes, BitsOf, Buffered, ChoosesWell, Combined, Counts, Data, EmptyRL, Filled, Gathered, Held, Plain,
        Streamed, coder.Text;
      StartFacts(k);
      Overshoot();
      coder := new RunCoder(100000 * k + N_OVERSHOOT);
      writer := new BitWriter();
      blockSize100k := k;
      nblockMAX := 100000 * k - 19;
      this.workFactor := workFactor;
      this.choose := choose;
      stage := Gathering;
      mode := Running;
      blockNo := 1;
      stateOutPos := 0;
      availInExpect := 0;
      combinedCRC := 0;
      totalInLo, totalInHi, totalOutLo, totalOutHi := 0, 0, 0, 0;
      consumed := [];
      delivered := [];
      prior := [];
      sent := [];
      headed := false;
      ended := false;
      fill := [];
      new;
      assert [] + writer.Written() == [];
      assert Data(sent) + coder.Text() == [];
    }
  
    /** One more byte taken in. */
    method CountIn(ghost c: int)
      requires Counted()
      modifies this`totalInLo, this`totalInHi, this`consumed
      ensures Counted() && consumed == old(consumed) + [c]
    {
      hide Counts;
      CountNext(totalInLo, totalInHi, |consumed|);
      totalInLo := (totalInLo + 1) % HALF;
      if totalInLo == 0 { totalInHi := (totalInHi + 1) % HALF; }
      consumed := consumed + [c];
    }

    /** One more byte given out. */
    method CountOut(ghost c: nat)
      requires Counted()
      modifies this`totalOutLo, this`totalOutHi, this`delivered
      ensures Counted() && delivered == old(delivered) + [c]
    {
      hide Counts;
      CountNext(totalOutLo, totalOutHi, |delivered|);
      totalOutLo := (totalOutLo + 1) % HALF;
      if totalOutLo == 0 { totalOutHi := (totalOutHi + 1) % HALF; }
      delivered := delivered + [c];
    }

    /** Takes in one byte. */
    method TakeByte(c: int)
      requires Valid() && stage == Gathering && coder.nblock < nblockMAX && 0 <= c < 256
      requires coder.stateInCh == NO_CHAR ==> coder.nblock == 0
      modifies this`totalInLo, this`totalInHi, this`consumed
      modifies coder`nblock, coder`blockCRC, coder`pairs, coder`stateInCh, coder`stateInLen, coder.block, coder.inUse
      ensures Valid() && consumed == old(consumed) + [c] && coder.stateInCh < NO_CHAR && coder.stateInLen > 0
      ensures coder.nblock <= nblockMAX + 4
    {
      hide AllBytes, BitsOf, Buffered, ChoosesWell, Combined, Counted, Data, Filled, Gathered, Held, Plain, Streamed,
        coder.Text;
      Overshoot();
      NoRuns(coder);
      ghost var t := coder.Text();
      assert consumed == Data(sent) + t;
      coder.AddCharToBlock(c);
      CountIn(c);
      assert Data(sent) + t + [c] == Data(sent) + (t + [c]);
      PendingRun(coder);
    }

    /** Takes in bytes until the block is full or none are left. */
    method CopyInputUntilStop(input: seq<int>, used0: nat) returns (used: nat, progress: bool)
      requires Valid() && Open() && used0 <= |input| && forall i :: 0 <= i < |input| ==> 0 <= input[i] < 256
      requires mode != Running ==> availInExpect == |input| - used0
      modifies this`totalInLo, this`totalInHi, this`consumed, this`availInExpect
      modifies coder`nblock, coder`blockCRC, coder`pairs, coder`stateInCh, coder`stateInLen, coder.block, coder.inUse
      ensures Valid() && used0 <= used <= |input| && consumed == old(consumed) + input[used0..used]
      ensures mode != Running ==> availInExpect == |input| - used
      ensures progress == (used > used0) && (coder.nblock >= nblockMAX || used == |input|)
      ensures coder.nblock >= nblockMAX ==> !EmptyRL() && used > used0
      ensures coder.nblock < nblockMAX ==> Open()
      ensures coder.nblock <= nblockMAX + 4
    {
      hide Accounted, ChoosesWell, Combined, Counted, Filled, Gathered, Written;
      Overshoot();
      used := used0;
      progress := false;
      if mode == Running {
        while true
          invariant Valid() && used0 <= used <= |input| && consumed == old(consumed) + input[used0..used]
          invariant progress == (used > used0)
          invariant used0 == used ==> coder.nblock < nblockMAX
          invariant coder.nblock <= nblockMAX + 4
          invariant (used > used0 ==> coder.stateInCh < NO_CHAR && coder.stateInLen > 0)
          invariant coder.stateInCh == NO_CHAR ==> coder.nblock == 0
          invariant mode == Running && stage == Gathering
          decreases |input| - used
        {
          if coder.nblock >= nblockMAX { break; }
          if used == |input| { break; }
          progress := true;
          TakeByte(input[used]);
          assert input[used0..used + 1] == input[used0..used] + [input[used]];
          used := used + 1;
        }
      } else {
        while true
          invariant Valid() && used0 <= used <= |input| && consumed == old(consumed) + input[used0..used]
          invariant progress == (used > used0)
          invariant used0 == used ==> coder.nblock < nblockMAX
          invariant coder.nblock <= nblockMAX + 4
          invariant (used > used0 ==> coder.stateInCh < NO_CHAR && coder.stateInLen > 0)
          invariant coder.stateInCh == NO_CHAR ==> coder.nblock == 0
          invariant mode != Running && stage == Gathering && availInExpect == |input| - used
          decreases |input| - used
        {
          if coder.nblock >= nblockMAX { break; }
          if used == |input| { break; }
          if availInExpect == 0 { break; }
          progress := true;
          TakeByte(input[used]);
          assert input[used0..used + 1] == input[used0..used] + [input[used]];
          used := used + 1;
          availInExpect := availInExpect - 1;
        }
      }
    }
  
    /** Gives out bytes until there is no room or none are left. */
    method CopyOutputUntilStop(availOut: nat) returns (out: seq<nat>, progress: bool)
      requires Valid() && stage == Delivering
      modifies this`stateOutPos, this`totalOutLo, this`totalOutHi, this`delivered
      ensures Valid() && delivered == old(delivered) + out && |out| <= availOut
      ensures stateOutPos == old(stateOutPos) + |out| <= |writer.zbits|
      ensures (|out| == availOut || stateOutPos == |writer.zbits|)
      ensures progress == (|out| > 0)
    {
      hide Accounted, AllBytes, BitsOf, Buffered, ChoosesWell, Combined, Counted, Filled, Gathered, Streamed;
      out := [];
      progress := false;
      while true
        invariant Valid() && delivered == old(delivered) + out && |out| <= availOut && progress == (|out| > 0)
        invariant stateOutPos == old(stateOutPos) + |out| <= |writer.zbits|
        decreases |writer.zbits| - stateOutPos
      {
        if |out| == availOut { break; }
        if stateOutPos >= |writer.zbits| { break; }
        progress := true;
        var c := writer.zbits[stateOutPos];
        out := out + [c];
        assert writer.zbits[..stateOutPos + 1] == writer.zbits[..stateOutPos] + [c];
        stateOutPos := stateOutPos + 1;
        CountOut(c);
      }
    }

    /** Starts the next block, once the last one has been given out. */
    method PrepareNewBlock()
      requires Valid() && stage == Delivering && !ended && stateOutPos == |writer.zbits|
      modifies this`stage, this`blockNo, this`stateOutPos, this`prior, writer`zbits
      modifies coder`nblock, coder`blockCRC, coder`pairs, coder.inUse
      ensures Valid() && Open() && !ended
      ensures coder.stateInCh == old(coder.stateInCh) && coder.stateInLen == old(coder.stateInLen)
    {
      hide AllBytes, BitsOf, Buffered, ChoosesWell, Combined, Counted, Data, Filled, Gathered, Held, Plain, Streamed;
      Overshoot();
      BitsOfConcat(prior, writer.zbits);
      assert writer.zbits[..stateOutPos] == writer.zbits;
      assert BitsOf(prior) + writer.Written() == BitsOf(delivered) + writer.pending by {
        ColumnDecoding.Regroup2(BitsOf(prior), BitsOf(writer.zbits), writer.pending);
      }
      BytesTogether(prior, writer, stateOutPos);
      coder.PrepareNewBlock();
      prior := delivered;
      writer.Restart();
      stateOutPos := 0;
      blockNo := blockNo + 1;
      stage := Gathering;
      assert delivered == prior + [];
    }

    /** Writes the stream header, if this is the first block. */
    method PutHeader()
      requires Valid() && stage == Gathering
      modifies this`headed, writer
      ensures writer.Valid() && writer.bsLive >= 0 && headed && fill == [] && !ended && sent == old(sent)
      ensures Streamed(blockSize100k, true, sent, false, [], BitsOf(prior) + writer.Written())
      ensures |writer.Written()| <= old(|writer.Written()|) + 32
    {
      hide Accounted, AllBytes, BitsOf, Buffered, ChoosesWell, Combined, Counted, Filled, Gathered, StreamHeader,
        Streamed;
      if blockNo == 1 {
        NothingSent(blockSize100k, sent, fill, BitsOf(prior) + writer.Written());
        StreamedHeader(blockSize100k, BitsOf(prior) + writer.Written());
        BothEmpty(BitsOf(prior), writer.Written());
        HeaderSize(blockSize100k);
        PutBytes(writer, StreamHeader(blockSize100k));
        assert [] + ([] + BitsOf(StreamHeader(blockSize100k))) == BitsOf(StreamHeader(blockSize100k));
      }
      headed := true;
    }
  
    /** Ends the pending run. */
    method FlushRL()
      requires Valid() && stage == Gathering && coder.nblock <= nblockMAX + 4
      modifies coder`nblock, coder`blockCRC, coder`pairs, coder`stateInCh, coder`stateInLen, coder.block, coder.inUse
      ensures Valid() && coder.stateInCh == NO_CHAR
    {
      hide AllBytes, BitsOf, Buffered, ChoosesWell, Combined, Counted, Data, Filled, Gathered, Held, Plain, Streamed;
      Overshoot();
      coder.FlushRL();
    }

    /** Writes the gathered block, which is not empty. */
    method PutRuns()
      requires coder.Valid() && 1 <= coder.nblock <= 100000 * blockSize100k - 10 && ChoosesWell(choose)
      requires coder.block.Length == 100000 * blockSize100k + N_OVERSHOOT && 1 <= blockSize100k <= 9
      requires writer.Valid() && writer.bsLive >= 0 && combinedCRC == Combined(sent, 0)
      requires Streamed(blockSize100k, true, sent, false, [], BitsOf(prior) + writer.Written())
      modifies this`sent, this`combinedCRC, coder.block, writer
      ensures coder.Valid() && writer.Valid() && writer.bsLive >= 0 && combinedCRC == Combined(sent, 0)
      ensures Data(sent) == old(Data(sent)) + Plain(coder.pairs) && BlockAdded(old(sent), sent, coder.nblock)
      ensures |writer.Written()| <= old(|writer.Written()|) + Room(coder.nblock)
      ensures Streamed(blockSize100k, true, sent, false, [], BitsOf(prior) + writer.Written())
    {
      hide *;
      TextParts(coder);
      CellsAre(coder);
      Overshoot();
      combinedCRC := Combine(combinedCRC, !coder.blockCRC);
      ghost var w := writer.Written();
      ghost var x := EncodeBlock(coder, writer, workFactor, choose);
      StreamedBlock(blockSize100k, sent, BitsOf(prior) + w, x, coder.nblock);
      StreamedSendable(blockSize100k, sent, BitsOf(prior) + w);
      BlocksMore(sent, x, 0);
      ColumnDecoding.Regroup2(BitsOf(prior), w, BlockBits(x.b));
      BlockAddedIs(sent, x, coder.nblock);
      sent := sent + [x];
      BlockShort(x, coder.nblock);
    }

    /** Writes the gathered block, unless it is empty. */
    method PutBlock()
      requires Valid() && stage == Gathering
      modifies this`headed, this`sent, this`combinedCRC, coder.block, writer
      ensures coder.Valid() && writer.Valid() && writer.bsLive >= 0 && headed && fill == [] && !ended
      ensures combinedCRC == Combined(sent, 0)
      ensures consumed == Data(sent) + Plain(Held(coder.stateInCh, coder.stateInLen))
      ensures BlockAdded(old(sent), sent, coder.nblock)
      ensures |writer.Written()| <= old(|writer.Written()|) + 32 + Room(coder.nblock)
      ensures Streamed(blockSize100k, true, sent, false, [], BitsOf(prior) + writer.Written())
    {
      hide BitsOf, Buffered, CheckValue, ChoosesWell, Combined, Counted, Data, Filled, Gathered, Held, Plain,
        Squeezed, Streamed, Written, writer.Written;
      TextParts(coder);
      ghost var held := Plain(Held(coder.stateInCh, coder.stateInLen));
      ghost var d, t := Data(sent), Plain(coder.pairs);
      assert d + (t + held) == d + t + held;
      PutHeader();
      if coder.nblock > 0 {
        PutRuns();
      } else {
        assert d + [] == d;
        RoomPositive(coder.nblock);
      }
    }

    /** Writes the trailer and fills the last byte. */
    method PutTrailer()
      requires writer.Valid() && writer.bsLive >= 0 && combinedCRC == Combined(sent, 0)
      requires Streamed(blockSize100k, true, sent, false, [], BitsOf(prior) + writer.Written())
      modifies this`fill, writer
      ensures writer.Valid() && writer.pending == [] && writer.zbits != [] && |fill| < 8
      ensures |writer.Written()| <= old(|writer.Written()|) + 87
      ensures Streamed(blockSize100k, true, sent, true, fill, BitsOf(prior) + writer.Written())
    {
      hide *;
      ghost var bits, w := BitsOf(prior), writer.Written();
      var u := AsWord(combinedCRC);
      BytesAreSmall(u);
      TrailerSize(u);
      AsWordFits(combinedCRC);
      PutBytes(writer, END_MAGIC);
      PutBytes(writer, WordBytes(u));
      ghost var k := writer.FinishWrite();
      fill := Zeros(k);
      TrailerAre(u);
      ColumnDecoding.Regroup2(w, BitsOf(END_MAGIC), BitsOf(WordBytes(u)));
      ColumnDecoding.Regroup2(bits, w, TrailerBits(u));
      ColumnDecoding.Regroup2(bits, w + TrailerBits(u), fill);
      StreamedEnd(blockSize100k, sent, bits + w, fill);
      SomeBytes(writer, w, u, fill);
    }

    /** Compresses the block gathered so far, and ends the stream if it is the last. */
    method CompressBlock(isLast: bool)
      requires Valid() && stage == Gathering && (isLast ==> coder.stateInCh == NO_CHAR)
      modifies this`stage, this`headed, this`sent, this`ended, this`fill, this`combinedCRC, coder.block, writer
      ensures Valid() && stage == Delivering && ended == isLast && Unfinished()
      ensures BlockAdded(old(sent), sent, coder.nblock)
      ensures |writer.zbits| <= 4 * (100000 * blockSize100k + N_OVERSHOOT) - coder.nblock
    {
      hide Room, AllBytes, BitsOf, Buffered, ChoosesWell, Combined, Counted, Data, Filled, Gathered, Held, BlockAdded,
        Plain, Streamed;
      Overshoot();
      PendingFew(writer);
      PutBlock();
      if isLast { PutTrailer(); }
      WrittenFits(writer, blockSize100k, coder.nblock);
      ended := isLast;
      stage := Delivering;
      assert writer.zbits[..0] == [] && prior + [] == prior;
    }
  
    /** How much is left to do without more input: nothing but to give out a block. */
    ghost function Rank(): nat
      reads this`stage, this`mode, this`availInExpect, coder
    {
      if stage == Delivering && EmptyRL() && availInExpect == 0 && mode != Running then 0 else 1
    }

    /** Ends the block if it is full or its input is used up. Tells whether it is still open. */
    method CloseBlock(used: nat, inputLength: nat, ghost m: nat) returns (open: bool)
      requires m <= |sent| && Packed(sent, m, nblockMAX, false)
      requires Valid() && stage == Gathering && used <= inputLength && coder.nblock <= nblockMAX + 4
      requires mode != Running ==> availInExpect == inputLength - used
      requires coder.nblock >= nblockMAX || used == inputLength
      requires coder.nblock >= nblockMAX ==> !EmptyRL()
      requires mode != Stopped
      modifies this`stage, this`headed, this`sent, this`ended, this`fill, this`combinedCRC, writer
      modifies coder`nblock, coder`blockCRC, coder`pairs, coder`stateInCh, coder`stateInLen, coder.block, coder.inUse
      ensures Valid() && open == (stage == Gathering)
      ensures !open ==> Settled() && Unfinished() && (Rank() == 0 || old(coder.nblock) >= nblockMAX)
      ensures open ==>
        mode == Running && used == inputLength && coder.nblock < nblockMAX && coder.nblock == old(coder.nblock)
      ensures open ==> coder.stateInCh == old(coder.stateInCh) && !ended
      ensures old(sent) <= sent && Packed(sent, m, nblockMAX, Rank() == 0)
    {
      hide BlockAdded, Open, Packed, Unfinished, Valid;
      NotEnded();
      open := false;
      ghost var before := sent;
      if mode != Running && availInExpect == 0 {
        FlushRL();
        CompressBlock(mode == Finishing);
        BlockAddedPacked(before, sent, coder.nblock, m, nblockMAX);
      } else if coder.nblock >= nblockMAX {
        CompressBlock(false);
        BlockAddedPacked(before, sent, coder.nblock, m, nblockMAX);
        PackedShort(sent, m, nblockMAX, false);
      } else {
        open := true;
      }
    }

    lemma NotEnded()
      requires Valid() && stage == Gathering
      ensures !ended && writer.zbits == [] && stateOutPos == 0
    {
      hide Accounted, Written, Counted, ChoosesWell;
    }

    lemma EndedEmpty()
      requires Valid() && ended
      ensures EmptyRL()
    {
      hide Accounted, Written, Counted, ChoosesWell;
    }

    /** Gives out the block, and starts the next one unless there is nothing more to do now. */
    method DeliverBlock(availOut: nat) returns (out: seq<nat>, progress: bool, stop: bool)
      requires Valid() && Settled() && mode != Stopped && stage == Delivering
      modifies this`stage, this`blockNo, this`stateOutPos, this`totalOutLo, this`totalOutHi, this`delivered, this`prior
      modifies coder`nblock, coder`blockCRC, coder`pairs, coder.inUse, writer`zbits
      ensures Valid() && delivered == old(delivered) + out && |out| <= availOut && progress == (out != [])
      ensures !stop ==> Open() && old(Rank()) == 1 && !ended
      ensures out == [] && old(Unfinished()) ==> Unfinished()
      ensures stop ==> Settled() && Stops(availOut - |out|) && (stage == Gathering ==> mode == Flushing)
    {
      hide EmptyRL, Valid;
      out, progress := CopyOutputUntilStop(availOut);
      stop := true;
      if stateOutPos < |writer.zbits| { return; }
      if ended { EndedEmpty(); }
      if mode == Finishing && availInExpect == 0 && EmptyRL() { return; }
      PrepareNewBlock();
      if mode == Flushing && availInExpect == 0 && EmptyRL() { return; }
      stop := false;
    }

    /** Why handling stops: the output is full, the stream is over, the flush is done, or the
        input is used up. */
    ghost predicate Stops(room: int)
      reads this`stage, this`mode, this`availInExpect, this`stateOutPos, this`ended, coder`stateInCh, coder`stateInLen
      reads writer`zbits
    {
      && (stage == Gathering ==> mode != Finishing && (mode == Flushing ==> availInExpect == 0 && EmptyRL()))
      && (stage == Delivering ==> if stateOutPos < |writer.zbits| then room == 0 else mode == Finishing && ended)
    }

    /** One round: gives out the block if there is one, then fills the next one. */
    method Step(input: seq<int>, used0: nat, room: nat, ghost m: nat)
      returns (used: nat, out: seq<nat>, progress: bool, stop: bool)
      requires m <= |sent| && Packed(sent, m, nblockMAX, Rank() == 0)
      requires Valid() && Settled() && mode != Stopped && forall i :: 0 <= i < |input| ==> 0 <= input[i] < 256
      requires used0 <= |input| && (mode != Running ==> availInExpect == |input| - used0)
      modifies this`stage, this`blockNo, this`stateOutPos, this`availInExpect, this`combinedCRC
      modifies this`totalInLo, this`totalInHi, this`totalOutLo, this`totalOutHi
      modifies this`consumed, this`delivered, this`prior, this`sent, this`headed, this`ended, this`fill
      modifies coder, coder.block, coder.inUse, writer
      ensures Valid() && Settled() && used0 <= used <= |input| && |out| <= room
      ensures consumed == old(consumed) + input[used0..used] && delivered == old(delivered) + out
      ensures progress == (used > used0 || out != []) && (mode != Running ==> availInExpect == |input| - used)
      ensures stop ==> Stops(room - |out|) && (stage == Gathering && mode == Running ==> used == |input|)
      ensures !stop ==> used > used0 || Rank() < old(Rank())
      ensures if stop then out != [] || !old(Unfinished()) || Unfinished() else Unfinished()
      ensures old(sent) <= sent && Packed(sent, m, nblockMAX, if stop then mode != Running else Rank() == 0)
      ensures old(stage) == Gathering && used0 < |input| ==> used > used0
    {
      hide EmptyRL, Packed, Valid;
      PackedShort(sent, m, nblockMAX, Rank() == 0);
      used, out, progress := used0, [], false;
      assert input[used0..used0] == [];
      if stage == Delivering {
        out, progress, stop := DeliverBlock(room);
        if stop { return; }
      }
      assert stage.Gathering?;
      var next, taken := CopyInputUntilStop(input, used);
      progress := progress || taken;
      used := next;
      stop := CloseBlock(used, |input|, m);
      PackedShort(sent, m, nblockMAX, Rank() == 0);
    }

    /** Takes in input and gives out output until one of them stops it. */
    method HandleCompress(input: seq<int>, availOut: nat) returns (used: nat, out: seq<nat>, progress: bool)
      requires Valid() && Settled() && mode != Stopped && forall i :: 0 <= i < |input| ==> 0 <= input[i] < 256
      requires mode != Running ==> availInExpect == |input|
      modifies this`stage, this`blockNo, this`stateOutPos, this`availInExpect, this`combinedCRC
      modifies this`totalInLo, this`totalInHi, this`totalOutLo, this`totalOutHi
      modifies this`consumed, this`delivered, this`prior, this`sent, this`headed, this`ended, this`fill
      modifies coder, coder.block, coder.inUse, writer
      ensures Valid() && Settled() && used <= |input| && |out| <= availOut && progress == (used > 0 || out != [])
      ensures consumed == old(consumed) + input[..used] && delivered == old(delivered) + out
      ensures mode != Running ==> availInExpect == |input| - used
      ensures Stops(availOut - |out|) && (stage == Gathering && mode == Running ==> used == |input|)
      ensures out == [] && old(Unfinished()) ==> Unfinished()
      ensures old(sent) <= sent && Packed(sent, |old(sent)|, nblockMAX, mode != Running)
      ensures old(stage) == Gathering && input != [] ==> used > 0
    {
      hide *;
      used, out, progress := 0, [], false;
      assert input[..0] == [];
      ghost var m := |sent|;
      PackedNone(sent, nblockMAX, Rank() == 0);
      while true
        invariant Valid() && Settled() && used <= |input| && |out| <= availOut && progress == (used > 0 || out != [])
        invariant consumed == old(consumed) + input[..used] && delivered == old(delivered) + out
        invariant mode != Running ==> availInExpect == |input| - used
        invariant out == [] && old(Unfinished()) ==> Unfinished()
        invariant old(sent) <= sent && Packed(sent, m, nblockMAX, Rank() == 0)
        invariant old(stage) == Gathering && input != [] && used == 0 ==> stage == Gathering
        decreases |input| - used, Rank()
      {
        var next, more, did, stop := Step(input, used, availOut - |out|, m);
        progress := progress || did;
        out := out + more;
        assert input[..used] + input[used..next] == input[..next];
        used := next;
        if stop { break; }
      }
    }
  
    /** Why a call is refused, if it is, before anything is done. */
    ghost function Response(action: Action, availIn: nat): (r: Refusal)
      reads this`mode, this`availInExpect
    {
      match mode
      case Stopped => Refused(SequenceError)
      case Running => if action == Unknown then Refused(ParamError) else Accepted
      case Flushing => if action != Flush || availInExpect != availIn then Refused(SequenceError) else Accepted
      case Finishing => if action != Finish || availInExpect != availIn then Refused(SequenceError) else Accepted
    }

    /** Everything announced has been taken in and nothing is held back. */
    ghost predicate Through(used: nat, availIn: nat)
      reads this`consumed, this`sent, this`stateOutPos, writer`zbits
    {
      used == availIn && consumed == Data(sent) && stateOutPos == |writer.zbits|
    }

    lemma NothingHeld()
      requires Valid() && EmptyRL() && (stage == Gathering ==> Open())
      ensures consumed == Data(sent) && stateOutPos <= |writer.zbits|
    {
      hide AllBytes, BitsOf, Buffered, ChoosesWell, Combined, Counted, Data, Filled, Gathered, Held, Plain, Streamed;
      HeldNothing(coder);
      assert Data(sent) + [] == Data(sent);
    }

    lemma DeliveredBytes()
      requires Valid()
      ensures AllBytes(delivered)
    {
      hide Accounted, AllBytes, BitsOf, Buffered, ChoosesWell, Combined, Counted, Filled, Gathered, Streamed;
      BytesTogether(prior, writer, stateOutPos);
    }

    /** What has been given out when the stream has ended decompresses to what was taken in. */
    lemma StoppedDecompresses(s: State)
      requires Valid() && Settled() && mode == Stopped && s.at == Magic(1)
      ensures Waiting(s) && Decompressed(s, BitsOf(delivered), 0) == Decoded(consumed, Finished)
    {
      hide Accounted, AllBytes, BitsOf, Buffered, ChoosesWell, Combined, Counted, Data, Decompressed, Filled,
        Gathered, Open, Streamed, Waiting;
      EndedEmpty();
      NothingHeld();
      assert writer.zbits[..stateOutPos] == writer.zbits;
      BitsOfConcat(prior, writer.zbits);
      assert BitsOf(prior) + writer.Written() == BitsOf(delivered) by {
        assert BitsOf(writer.zbits) + [] == BitsOf(writer.zbits);
      }
      StreamedHeaded(blockSize100k, headed, sent, fill, BitsOf(delivered));
      StreamedDecompresses(blockSize100k, sent, fill, BitsOf(delivered), s);
    }

    /** There are bytes written that have not been given out. */
    ghost predicate Remaining()
      reads this`stateOutPos, writer`zbits
    {
      stateOutPos < |writer.zbits|
    }

    /** Goes on flushing. */
    method GoOnFlushing(input: seq<int>, availOut: nat) returns (ret: Answer, used: nat, out: seq<nat>)
      requires Valid() && Settled() && Unfinished() && mode == Flushing && availInExpect == |input|
      requires forall i :: 0 <= i < |input| ==> 0 <= input[i] < 256
      modifies this`mode, this`stage, this`blockNo, this`stateOutPos, this`availInExpect, this`combinedCRC
      modifies this`totalInLo, this`totalInHi, this`totalOutLo, this`totalOutHi
      modifies this`consumed, this`delivered, this`prior, this`sent, this`headed, this`ended, this`fill
      modifies coder, coder.block, coder.inUse, writer
      ensures Valid() && Settled() && Unfinished() && used <= |input| && |out| <= availOut
      ensures consumed == old(consumed) + input[..used] && delivered == old(delivered) + out
      ensures old(sent) <= sent && Packed(sent, |old(sent)|, nblockMAX, true)
      ensures if ret == RunOk then mode == Running && Through(used, |input|)
        else ret == FlushOk && mode == Flushing && |out| == availOut
    {
      hide Data, EmptyRL, Open, Packed, Valid;
      var progress;
      used, out, progress := HandleCompress(input, availOut);
      assert stage.Gathering? || stage.Delivering?;
      if stage == Gathering { NotEnded(); }
      if availInExpect > 0 || !EmptyRL() || stateOutPos < |writer.zbits| { return FlushOk, used, out; }
      NothingHeld();
      mode := Running;
      ret := RunOk;
    }

    /** Goes on finishing. */
    method GoOnFinishing(input: seq<int>, availOut: nat) returns (ret: Answer, used: nat, out: seq<nat>)
      requires Valid() && Settled() && Unfinished() && mode == Finishing && availInExpect == |input|
      requires forall i :: 0 <= i < |input| ==> 0 <= input[i] < 256
      modifies this`mode, this`stage, this`blockNo, this`stateOutPos, this`availInExpect, this`combinedCRC
      modifies this`totalInLo, this`totalInHi, this`totalOutLo, this`totalOutHi
      modifies this`consumed, this`delivered, this`prior, this`sent, this`headed, this`ended, this`fill
      modifies coder, coder.block, coder.inUse, writer
      ensures Valid() && Settled() && (Unfinished() || mode == Stopped) && used <= |input| && |out| <= availOut
      ensures consumed == old(consumed) + input[..used] && delivered == old(delivered) + out
      ensures old(sent) <= sent && Packed(sent, |old(sent)|, nblockMAX, true)
      ensures if ret == Answer.StreamEnd then mode == Stopped && Through(used, |input|)
        else mode == Finishing && |out| == availOut && ret == if used > 0 || out != [] then FinishOk else SequenceError
      ensures mode == Finishing ==> Remaining()
      ensures old(stage) == Gathering && input != [] ==> used > 0
    {
      hide Data, EmptyRL, Open, Packed, Valid;
      var progress;
      used, out, progress := HandleCompress(input, availOut);
      assert stage.Gathering? || stage.Delivering?;
      if ended { EndedEmpty(); }
      if !progress { return SequenceError, used, out; }
      if availInExpect > 0 || !EmptyRL() || stateOutPos < |writer.zbits| { return FinishOk, used, out; }
      NothingHeld();
      mode := Stopped;
      ret := Answer.StreamEnd;
    }

    /** One call of the compressor. */
    method BzCompress(input: seq<int>, availOut: nat, action: Action) returns (ret: Answer, used: nat, out: seq<nat>)
      requires Valid() && Settled() && (Unfinished() || mode == Stopped)
      requires forall i :: 0 <= i < |input| ==> 0 <= input[i] < 256
      modifies this`mode, this`stage, this`blockNo, this`stateOutPos, this`availInExpect, this`combinedCRC
      modifies this`totalInLo, this`totalInHi, this`totalOutLo, this`totalOutHi
      modifies this`consumed, this`delivered, this`prior, this`sent, this`headed, this`ended, this`fill
      modifies coder, coder.block, coder.inUse, writer
      ensures Valid() && Settled() && (Unfinished() || mode == Stopped) && used <= |input| && |out| <= availOut
      ensures consumed == old(consumed) + input[..used] && delivered == old(delivered) + out
      ensures old(Response(action, |input|)).Refused? ==>
        ret == old(Response(action, |input|)).answer && unchanged(this, coder, coder.block, coder.inUse, writer)
      ensures old(Response(action, |input|)).Accepted? && action == Run ==>
        mode == Running && ret == if used > 0 || out != [] then RunOk else ParamError
      ensures old(Response(action, |input|)).Accepted? && action == Flush ==>
        if ret == RunOk then mode == Running && Through(used, |input|)
          else ret == FlushOk && mode == Flushing && |out| == availOut
      ensures old(Response(action, |input|)).Accepted? && action == Finish ==>
        if ret == Answer.StreamEnd then mode == Stopped && Through(used, |input|)
        else mode == Finishing && |out| == availOut && ret == if used > 0 || out != [] then FinishOk else SequenceError
      ensures mode == Stopped <==> old(mode) == Stopped || ret == Answer.StreamEnd
      ensures old(Response(action, |input|)).Accepted? && mode == Finishing ==> Remaining()
      ensures old(sent) <= sent && Packed(sent, |old(sent)|, nblockMAX, action != Run)
      ensures old(Response(action, |input|)).Accepted? && action == Finish && old(stage) == Gathering && input != [] ==>
        used > 0
    {
      hide EmptyRL, Open, Packed, Remaining, Stops, Through, Valid;
      ret, used, out := SequenceError, 0, [];
      PackedNone(sent, nblockMAX, action != Run);
      assert input[..0] == [];
      if mode == Running {
        if action == Flush {
          availInExpect := |input|;
          mode := Flushing;
        } else if action == Finish {
          availInExpect := |input|;
          mode := Finishing;
        } else if action != Run {
          return ParamError, used, out;
        }
      }
      match mode
      case Stopped =>
      case Running =>
        var progress;
        used, out, progress := HandleCompress(input, availOut);
        ret := if progress then RunOk else ParamError;
      case Flushing =>
        if action != Flush || availInExpect != |input| { return; }
        ret, used, out := GoOnFlushing(input, availOut);
      case Finishing =>
        if action != Finish || availInExpect != |input| { return; }
        ret, used, out := GoOnFinishing(input, availOut);
    }
  }

  lemma BlockAddedIs(sent: seq<Sent>, x: Sent, c: int)
    requires |Squeezed(x.ps)| == c
    ensures BlockAdded(sent, sent + [x], c)
  {
    hide Squeezed;
    assert Cells(x) == c;
  }

  lemma CellsAre(coder: RunCoder)
    requires coder.Valid()
    ensures |Squeezed(coder.pairs)| == coder.nblock
  {
    hide Gathered, Plain, Register, Squeezed;
  }

  lemma HeldNothing(coder: RunCoder)
    requires coder.Valid() && !(coder.stateInCh < NO_CHAR && coder.stateInLen > 0)
    ensures Held(coder.stateInCh, coder.stateInLen) == [] && coder.stateInCh == NO_CHAR && Plain([]) == []
    ensures coder.nblock == 0 ==> coder.Text() == []
  {
    TextParts(coder);
  }

  lemma StreamedHeaded(k: int, headed: bool, sent: seq<Sent>, fill: seq<bool>, bits: seq<bool>)
    requires Streamed(k, headed, sent, true, fill, bits)
    ensures headed
  {
  }

  lemma HeaderSize(k: int)
    requires 1 <= k <= 9
    ensures |BitsOf(StreamHeader(k))| == 32
  {
  }

  lemma TrailerSize(u: nat)
    ensures |BitsOf(END_MAGIC)| == 48 && |BitsOf(WordBytes(u))| == 32
  {
  }

  lemma RoomPositive(n: nat)
    ensures Room(n) >= 0
  {
  }

  lemma PendingFew(writer: BitWriter)
    requires writer.Valid() && writer.zbits == []
    ensures |writer.Written()| <= 32
  {
  }

  /** What is written fits into the storage behind the block. */
  lemma WrittenFits(writer: BitWriter, k: int, n: int)
    requires 1 <= k <= 9 && 0 <= n <= 100000 * k - 10 && |writer.Written()| <= 32 + 32 + Room(n) + 87
    ensures |writer.zbits| <= 4 * (100000 * k + N_OVERSHOOT) - n
  {
    assert |writer.Written()| >= 8 * |writer.zbits|;
  }

  /** What the coder holds: the block and the pending run. */
  lemma TextParts(coder: RunCoder)
    requires coder.Valid()
    ensures coder.Text() == Plain(coder.pairs) + Plain(Held(coder.stateInCh, coder.stateInLen))
    ensures !coder.blockCRC == CheckValue(Plain(coder.pairs)) && (coder.nblock == 0 ==> Plain(coder.pairs) == [])
  {
    hide Plain, Held, Filled, Gathered, CheckValue, Register, Squeezed, Runs;
    PlainNone();
    PlainHeld(coder.pairs, coder.stateInCh, coder.stateInLen);
    FilledBytes(coder.block[..], coder.nblock, coder.inUse[..], coder.blockCRC, coder.pairs, coder.stateInCh,
      coder.stateInLen);
    if coder.nblock == 0 { EmptyRuns(coder.pairs, coder.stateInCh, coder.stateInLen); }
  }

  lemma NoRuns(coder: RunCoder)
    requires coder.Valid() && (coder.stateInCh == NO_CHAR ==> coder.nblock == 0)
    ensures coder.stateInCh == NO_CHAR ==> coder.pairs == []
  {
    if coder.stateInCh == NO_CHAR { EmptyRuns(coder.pairs, coder.stateInCh, coder.stateInLen); }
  }

  lemma PendingRun(coder: RunCoder)
    requires coder.Valid() && 0 <= coder.stateInCh < 256
    ensures coder.stateInCh < NO_CHAR && coder.stateInLen > 0
  {
  }

  lemma SomeBytes(writer: BitWriter, w: seq<bool>, u: nat, fill: seq<bool>)
    requires writer.pending == [] && writer.Written() == w + TrailerBits(u) + fill
    ensures writer.zbits != []
  {
    hide TrailerBits;
    assert BitsOf([]) == [];
    TrailerLong(u);
    assert |w + TrailerBits(u) + fill| > 0;
  }

  lemma TrailerLong(u: nat)
    ensures TrailerBits(u) != []
  {
    hide BitsOf;
    assert END_MAGIC == [END_MAGIC[0]] + END_MAGIC[1..];
    BitsOfConcat([END_MAGIC[0]], END_MAGIC[1..]);
    assert |BitsOf([END_MAGIC[0]])| == 8;
  }

  lemma TrailerAre(u: nat)
    ensures TrailerBits(u) == BitsOf(END_MAGIC) + BitsOf(WordBytes(u))
  {
  }

  lemma StreamedSendable(k: int, sent: seq<Sent>, bits: seq<bool>)
    requires Streamed(k, true, sent, false, [], bits)
    ensures forall i :: 0 <= i < |sent| ==> Sendable(sent[i].b)
  {
    hide Sendable, AllFaithful;
  }

  lemma NothingSent(k: int, sent: seq<Sent>, fill: seq<bool>, bits: seq<bool>)
    requires Streamed(k, false, sent, false, fill, bits)
    ensures sent == [] && Streamed(k, false, [], false, [], bits)
  {
  }

  lemma BothEmpty(a: seq<bool>, b: seq<bool>)
    requires a + b == []
    ensures a == [] && b == []
  {
    assert |a + b| == 0;
  }

  lemma Overshoot()
    ensures N_OVERSHOOT == 34 && NO_CHAR == 256
  {
  }
}
