/** The decompressor's streaming interface: however the input is cut and whatever room there is
    for output, the same bytes come out and the same verdict is reached.
 */
module StreamDecompressor {
  import opened Bits
  import opened BlockCrc
  import opened ColumnBounds
  import opened Coroutine
  import opened Counters
  import opened Decompressor
  import opened Expanders
  import opened DecoderStore
  import opened OutputTables
  import opened ResumableDecoder
  import Rotations
  import RunLength
  import opened StreamDecoding

  /** The tables a block is output from. */
  datatype OutputState = NoTables | Fast(fast: FastExpander) | Small(small: SmallExpander)

  /** What a call answers; randomised blocks are not followed. */
  datatype Reply = Replied(code: Status) | SequenceError | Randomised

  function Beginning(): State {
    State(Magic(1), 0, 0, 0, false, 0, [], [], 0, 0, 0, 0, [], [], [], [], 0, 0, 0, 0, 0, 0, 0, 0, [], [])
  }

  /** What follows some data that has been given out. */
  function Onto(data: seq<int>, r: Decoded): Decoded {
    Decoded(data + r.data, r.verdict)
  }

  lemma OntoTwice(data: seq<int>, more: seq<int>, r: Decoded)
    ensures Onto(data, Onto(more, r)) == Onto(data + more, r)
  {
    assert data + (more + r.data) == data + more + r.data;
  }

  lemma SameDrive(s: State, w: seq<bool>, s1: State, w1: seq<bool>, combined: bv32)
    requires Waiting(s) && Waiting(s1) && Drive(s, w) == Drive(s1, w1)
    ensures Decompressed(s, w, combined) == Decompressed(s1, w1, combined)
  {
    hide Drive, Good, AfterBlock;
    DriveTakes(s, w);
    DriveTakes(s1, w1);
  }

  lemma DoneDecompressed(s: State, w: seq<bool>, combined: bv32, code: Status, s1: State, rest: seq<bool>)
    requires Waiting(s) && Drive(s, w) == Done(code, s1, rest)
    ensures Decompressed(s, w, combined)
         == if code ==
           StreamEnd then Decoded([], if AsWord(combined) == s1.storedCombinedCRC then Finished else Damaged(DataError))
            else if code != Ok || !Outputs(s1) then Decoded([], Damaged(code))
            else AfterBlock(s1, rest, combined)
  {
    hide Drive, Good, AfterBlock, Outputs;
    DriveTakes(s, w);
  }

  lemma KeptOutputs(s: State)
    requires Kept(s) && s.at == Output
    ensures Outputs(s) && |s.tt| <= 900000
  {
  }

  lemma ReadyFacts(m: Machine)
    requires Ready(m)
    ensures Waiting(m.s) && m.live <= 32 && m.s.at != Output && m.s.at != Idle
  {
  }

  ghost predicate Stops(r: Stop) {
    (r.starved ==> Waiting(r.m.s)) && (!r.starved && r.code == Ok ==> Outputs(r.m.s))
  }

  /** What a stream comes to from where a run stops, with more bytes to come. */
  ghost function FromStop(r: Stop, later: seq<nat>, combined: bv32): Decoded
    requires Stops(r)
  {
    if r.starved then Decompressed(r.m.s, Coroutine.Pending(r.m) + BitsOf(later), combined)
    else if r.code == StreamEnd then
      Decoded([], if AsWord(combined) == r.m.s.storedCombinedCRC then Finished else Damaged(DataError))
    else if r.code != Ok then Decoded([], Damaged(r.code))
    else AfterBlock(r.m.s, Coroutine.Pending(r.m) + BitsOf(r.rest + later), combined)
  }

  lemma FromStarved(r: Stop, later: seq<nat>, combined: bv32)
    requires Stops(r) && r.starved
    ensures Waiting(r.m.s)
    ensures FromStop(r, later, combined) == Decompressed(r.m.s, Coroutine.Pending(r.m) + BitsOf(later), combined)
  {
    hide Decompressed, AfterBlock, BitsOf, Good, Outputs;
  }

  lemma FromEnded(r: Stop, later: seq<nat>, combined: bv32)
    requires Stops(r) && !r.starved
    ensures var d := FromStop(r, later, combined);
      if r.code == StreamEnd then
        d == Decoded([], if AsWord(combined) == r.m.s.storedCombinedCRC then Finished else Damaged(DataError))
      else if r.code != Ok then d == Decoded([], Damaged(r.code))
      else Outputs(r.m.s) && d == AfterBlock(r.m.s, Coroutine.Pending(r.m) + BitsOf(r.rest + later), combined)
  {
    hide Decompressed, AfterBlock, BitsOf, Good, Outputs;
  }

  lemma StopsIf(r: Stop)
    requires r.starved ==> Ready(r.m)
    requires !r.starved && r.code == Ok ==> Kept(r.m.s) && r.m.s.at == Output
    ensures Stops(r)
  {
    hide Good;
  }

  /** What a run on the bytes at hand means for the rest of the stream. */
  lemma RunMeans(m: Machine, input: seq<nat>, later: seq<nat>, combined: bv32)
    requires Ready(m) && Kept(m.s) && forall i :: 0 <= i < |input| ==> input[i] < 256
    ensures Waiting(m.s)
    ensures var r := Coroutine.Run(m, input);
      Stops(r) && Decompressed(m.s, Coroutine.Pending(m) + BitsOf(input + later), combined) ==
        FromStop(r, later, combined)
  {
    hide *;
    ReadyFacts(m);
    var r := Coroutine.Run(m, input);
    RunKeeps(m, input);
    RunDrive(m, input);
    StopsIf(r);
    BitsOfConcat(input, later);
    var w, x := Coroutine.Pending(m) + BitsOf(input), BitsOf(later);
    assert w + x == Coroutine.Pending(m) + BitsOf(input + later);
    DriveSplit(m.s, w, x);
    if r.starved {
      ReadyFacts(r.m);
      FromStarved(r, later, combined);
      SameDrive(m.s, w + x, r.m.s, Coroutine.Pending(r.m) + x, combined);
    } else {
      FromEnded(r, later, combined);
      BitsOfConcat(r.rest, later);
      assert Coroutine.Pending(r.m) + BitsOf(r.rest) + x == Coroutine.Pending(r.m) + BitsOf(r.rest + later);
      if r.code == Ok { KeptOutputs(r.m.s); }
      DoneDecompressed(m.s, w + x, combined, r.code, r.m.s, Coroutine.Pending(r.m) + BitsOf(r.rest) + x);
    }
  }

  class StreamDecompressor {
    const smallDecompress: bool
    const dstate: DState
    var output: OutputState
    var calculatedCombinedCRC: bv32
    const totalOut: Counter
    ghost const whole: seq<nat>
    ghost var received: seq<nat>
    ghost var delivered: seq<int>
    ghost var settled: seq<int>
    ghost var failed: bool

    /** What the whole input stands for. */
    ghost function Promised(): Decoded {
      Decompressed(Beginning(), BitsOf(whole), 0)
    }

    /** What has been received is the start of the whole input. */
    ghost predicate Fed()
      reads this`received
    {
      |received| <= |whole| && received == whole[..|received|] && (forall i :: 0 <= i < |whole| ==> whole[i] < 256)
    }

    /** The bits not yet used. */
    ghost function Left(): seq<bool>
      requires |received| <= |whole|
      reads this`received, dstate
    {
      Coroutine.Pending(dstate.Resting()) + BitsOf(whole[|received|..])
    }

    /** Waiting for input. */
    ghost predicate Awaiting()
      reads this`received, this`delivered, this`settled, this`calculatedCombinedCRC, dstate, dstate.Parts()
    {
      && Fed() && dstate.Sane() && dstate.state == dstate.s.at && Ready(dstate.Resting()) && Kept(dstate.s)
      && delivered == settled
      && Promised() == Onto(settled, Decompressed(dstate.s, Left(), calculatedCombinedCRC))
    }

    /** A block is complete; what it promises. */
    ghost predicate Complete()
      reads this`received, this`settled, this`calculatedCombinedCRC, dstate, dstate.Parts()
    {
      && Fed() && dstate.Sane() && dstate.state == dstate.s.at == Output && Kept(dstate.s) && Outputs(dstate.s)
      && dstate.bsLive <= 32
      && Promised() == Onto(settled, AfterBlock(dstate.s, Left(), calculatedCombinedCRC))
    }

    /** The objects that output goes through. */
    ghost function Expander(): set<object>
      reads this`output
    {
      match output case NoTables => {} case Fast(f) => {f} case Small(e) => {e}
    }

    ghost function Repr(): set<object>
      reads this`output
    {
      match output case NoTables => {} case Fast(f) => {f, f.tt} case Small(e) => {e, e.ll16, e.ll4, e.cftab}
    }

    /** What has been output of the block, by either expander. */
    ghost predicate Expanding(src: Source)
      reads this`output, this`delivered, this`settled, Repr()
    {
      match output
      case NoTables => false
      case Fast(f) => f.Valid() && f.stateOutLen >= 0 && f.src == src && delivered == settled + f.emitted
      case Small(e) => e.Valid() && e.src == src && delivered == settled + e.emitted
    }

    ghost predicate Outputting()
      reads this`received, this`settled, this`calculatedCombinedCRC, this`output, this`delivered, Repr(), dstate
      reads dstate.Parts()
    {
      Complete() && !dstate.s.randomised && Expanding(SourceOf(dstate.s))
    }

    ghost predicate Over()
      reads this`received, this`delivered, dstate
    {
      Fed() && dstate.state == dstate.s.at == Idle && Promised() == Decoded(delivered, Finished)
    }

    ghost predicate Valid()
      reads this, Repr(), dstate, dstate.Parts()
    {
      && dstate !in Repr() && this !in Repr() && dstate.state == dstate.s.at
      && if dstate.s.at == Output then Outputting() else if dstate.s.at == Idle then Over() else Awaiting()
    }

    /** The counters tell how many bytes have gone in and out. */
    ghost predicate Counted()
      reads this`received, this`delivered, dstate.totalIn, totalOut
    {
      && dstate.totalIn.Valid() && dstate.totalIn.n == |received|
      && totalOut.Valid() && totalOut.n == |delivered| && dstate.totalIn != totalOut
    }

    constructor (small: bool, ghost whole: seq<nat>)
      requires forall i :: 0 <= i < |whole| ==> whole[i] < 256
      ensures Valid() && received == [] && delivered == [] && this.whole == whole && !failed && dstate.s.at == Magic(1)
      ensures fresh(dstate) && fresh(dstate.Parts()) && Repr() == {} && Expander() == {}
      ensures Counted() && fresh(dstate.totalIn) && fresh(totalOut)
    {
      hide Beginning, BitsOf, Decompressed, Kept, Onto, Outputting, Over, Pending, Ready, Waiting;
      smallDecompress := small;
      BeginningFacts();
      dstate := new DState(Beginning());
      output := NoTables;
      calculatedCombinedCRC := 0;
      this.whole := whole;
      received := [];
      delivered := [];
      settled := [];
      failed := false;
      totalOut := new Counter();
      new;
      assert whole[0..] == whole;
      assert [] + BitsOf(whole) == BitsOf(whole);
      OntoNothing(Decompressed(Beginning(), BitsOf(whole), 0));
    }

    /** Runs the decoder on the bytes at hand. */
    method RunOn(input: seq<nat>, used0: nat) returns (code: Status, used: nat, ghost starved: bool)
      requires Awaiting() && used0 <= |input| && received + input[used0..] <= whole && dstate.totalIn.Valid()
      modifies this`received, dstate, dstate.Parts(), dstate.totalIn
      ensures used0 <= used <= |input| && received == old(received) + input[used0..used] && Fed() && dstate.bsLive <= 32
      ensures starved && |received| == |whole| ==> Promised() == Decoded(delivered, Unfinished)
      ensures starved ==> used == |input| && code == Ok && Awaiting() && dstate.s.at != Output && dstate.s.at != Idle
      ensures !starved ==> 8 * (|input| - used) + dstate.bsLive < 8 * (|input| - used0) + old(dstate.bsLive)
      ensures !starved && code == Ok ==> Complete()
      ensures !starved && code == StreamEnd ==> dstate.state == dstate.s.at == Idle && Promised() == Onto(settled,
        Decoded([], if AsWord(calculatedCombinedCRC) == dstate.storedCombinedCRC then Finished else Damaged(DataError)))
      ensures !starved && code != Ok && code != StreamEnd ==> Promised() == Onto(settled, Decoded([], Damaged(code)))
      ensures dstate.totalIn.Valid() && dstate.totalIn.n == old(dstate.totalIn.n) + used - used0
    {
      hide AsWord, Awaiting, Common, Complete, DState.Sane, Fed, Good, Kept, Need, Onto, Promised, Ready, Run,
        Counter.Valid, FromStop, Stops, Waiting;
      ghost var m, later := dstate.Resting(), whole[|received| + |input| - used0..];
      RunLeft(input[used0..], later);
      RunKeeps(m, input[used0..]);
      ghost var r := Coroutine.Run(m, input[used0..]);
      var n;
      code, n, starved := dstate.Decompress(input[used0..]);
      used := used0 + n;
      assert input[used0..][n..] == input[used..] && input[used0..][..n] == input[used0..used];
      ghost var received0 := received;
      received := received + input[used0..used];
      FedMore(received0, input[used0..], n);
      if starved {
        RunStarves(r, later);
      } else {
        RunEnds(r, later);
      }
    }

    /** What is promised, by the run on the bytes at hand. */
    lemma RunLeft(input: seq<nat>, later: seq<nat>)
      requires Awaiting() && received + input <= whole && later == whole[|received| + |input|..]
      ensures dstate.Sane() && dstate.state == dstate.s.at && Ready(dstate.Resting()) && Kept(dstate.s)
      ensures delivered == settled
      ensures Fed() && Stops(Coroutine.Run(dstate.Resting(), input)) && forall i :: 0 <= i < |whole| ==> whole[i] < 256
      ensures Promised() ==
        Onto(settled, FromStop(Coroutine.Run(dstate.Resting(), input), later, calculatedCombinedCRC))
    {
      hide AsWord, BitsOf, Decompressed, DState.Sane, FromStop, Good, Kept, Need, Onto, Outputs, Pending, Promised,
        Ready, Run,
        Stops, Waiting;
      RestOf(whole, received, input);
      RunMeans(dstate.Resting(), input, later, calculatedCombinedCRC);
    }

    lemma FedMore(received0: seq<nat>, input: seq<nat>, n: nat)
      requires n <= |input| && received0 + input <= whole && received == received0 + input[..n]
      requires forall i :: 0 <= i < |whole| ==> whole[i] < 256
      ensures Fed() && whole[|received|..] == input[n..] + whole[|received0| + |input|..]
    {
      RestOf(whole, received0, input);
    }

    lemma RunStarves(r: Stop, later: seq<nat>)
      requires Fed() && later == whole[|received|..] && r.starved && Stops(r) && r.m == dstate.Resting() && Ready(r.m)
      requires dstate.Sane() && dstate.state == dstate.s.at && Kept(dstate.s) && delivered == settled
      requires r.m.live < Need(r.m.s)
      requires Promised() == Onto(settled, FromStop(r, later, calculatedCombinedCRC))
      ensures Awaiting() && dstate.s.at != Output && dstate.s.at != Idle && dstate.bsLive <= 32
      ensures |received| == |whole| ==> Promised() == Decoded(delivered, Unfinished)
    {
      hide BitsOf, Decompressed, DState.Sane, FromStop, Good, Kept, Need, Pending, Promised, Ready, Stops, Waiting;
      FromStarved(r, later, calculatedCombinedCRC);
      ReadyFacts(r.m);
      if |received| == |whole| {
        NothingLeft(r.m, later, calculatedCombinedCRC);
        assert settled + [] == settled;
      }
    }

    lemma RunEnds(r: Stop, later: seq<nat>)
      requires Fed() && whole[|received|..] == r.rest + later && !r.starved && Stops(r) && r.m == dstate.Resting()
      requires r.m.live <= 32
      requires Promised() == Onto(settled, FromStop(r, later, calculatedCombinedCRC))
      requires r.code == Ok ==> dstate.Sane() && Kept(dstate.s) && dstate.s.at == Output
      requires r.code == Ok || r.code == StreamEnd ==> dstate.state == dstate.s.at && Common(dstate.s, dstate.Now())
      ensures r.code == Ok ==> Complete()
      ensures r.code == StreamEnd ==> Promised() == Onto(settled,
        Decoded([], if AsWord(calculatedCombinedCRC) == dstate.storedCombinedCRC then Finished else Damaged(DataError)))
      ensures r.code != Ok && r.code != StreamEnd ==> Promised() == Onto(settled, Decoded([], Damaged(r.code)))
    {
      hide AfterBlock, AsWord, BitsOf, DState.Sane, FromStop, Kept, Onto, Outputs, Pending, Promised, Stops;
      FromEnded(r, later, calculatedCombinedCRC);
    }

    /** Makes the tables that the block is output from. */
    method PrepareOutput()
      requires Complete() && !dstate.s.randomised && delivered == settled
      modifies this`output
      ensures Outputting() && fresh(Repr()) && output.Small? == smallDecompress
    {
      hide AfterBlock, Fed, Kept, Left, Onto, Outputs, Promised, Sound, SourceOf, FastExpander.Valid,
        SmallExpander.Valid;
      KeptOutputs(dstate.s);
      dstate.ColumnKnown();
      ghost var src := SourceOf(dstate.s);
      SourceFacts(dstate.s);
      assert settled + [] == settled;
      if smallDecompress {
        var e := PrepareSmall(dstate.tt[..dstate.save.nblock], dstate.origPtr, src);
        output := Small(e);
      } else {
        var f := PrepareFast(dstate.tt[..dstate.save.nblock], dstate.origPtr, src);
        output := Fast(f);
      }
    }

    /** Outputs from the tables of the FAST decoder. When corruption is found, what was output in this
        call does not count as given out. */
    method PutFast(availOut: nat) returns (out: seq<int>, corrupt: bool, over: bool, crc: bv32)
      requires Outputting() && dstate !in Repr() && this !in Repr() && totalOut.Valid() && availOut < HALF
      requires output.Fast?
      modifies this`delivered, Expander(), totalOut
      ensures delivered == old(delivered) + out && |out| <= availOut && delivered <= settled + BlockText(dstate.s)
      ensures totalOut.Valid() && totalOut.n == old(totalOut.n) + |out|
      ensures corrupt ==> !BlockWhole(dstate.s)
      ensures !corrupt && over ==>
        delivered == settled + BlockText(dstate.s) && BlockWhole(dstate.s) && crc == CheckValue(BlockText(dstate.s))
      ensures !corrupt && !over ==> Outputting() && |out| == availOut
      ensures !corrupt && !over ==> |delivered| < |settled + BlockText(dstate.s)| || !BlockWhole(dstate.s)
    {
      hide Counter.Valid, AfterBlock, BlockText, BlockWhole, CheckValue, Fed, Kept, Left, Onto, Outputs, Promised,
        RunLength.Expanded, RunLength.Whole, Served, Sound, SourceOf, Standing, Text, FastExpander.Valid,
          SmallExpander.Valid;
      SourceFacts(dstate.s);
      var e := output.fast;
      ghost var before := e.emitted;
      out, corrupt := e.Expand(availOut);
      over := e.nblockUsed == e.saveNblock + 1 && e.stateOutLen == 0;
      crc := !e.calculatedBlockCRC;
      ServedFast(e, corrupt);
      ServedMeans(dstate.s, e.nblockUsed, e.k0, e.stateOutCh, e.stateOutLen, before, out, e.emitted, availOut, corrupt,
        e.calculatedBlockCRC, crc);
      assert settled + before + out == settled + (before + out);
      if corrupt {
        out := [];
      } else {
        totalOut.Add(|out|);
        delivered := delivered + out;
      }
    }

    /** Outputs from the tables of the SMALL decoder. */
    method PutSmall(availOut: nat) returns (out: seq<int>, corrupt: bool, over: bool, crc: bv32)
      requires Outputting() && dstate !in Repr() && this !in Repr() && totalOut.Valid() && availOut < HALF
      requires output.Small?
      modifies this`delivered, Expander(), totalOut
      ensures delivered == old(delivered) + out && |out| <= availOut && delivered <= settled + BlockText(dstate.s)
      ensures totalOut.Valid() && totalOut.n == old(totalOut.n) + |out|
      ensures corrupt ==> !BlockWhole(dstate.s)
      ensures !corrupt && over ==>
        delivered == settled + BlockText(dstate.s) && BlockWhole(dstate.s) && crc == CheckValue(BlockText(dstate.s))
      ensures !corrupt && !over ==> Outputting() && |out| == availOut
      ensures !corrupt && !over ==> |delivered| < |settled + BlockText(dstate.s)| || !BlockWhole(dstate.s)
    {
      hide Counter.Valid, AfterBlock, BlockText, BlockWhole, CheckValue, Fed, Kept, Left, Onto, Outputs, Promised,
        RunLength.Expanded, RunLength.Whole, Served, Sound, SourceOf, Standing, Text, FastExpander.Valid,
          SmallExpander.Valid;
      SourceFacts(dstate.s);
      var e := output.small;
      ghost var before := e.emitted;
      out, corrupt := e.Expand(availOut);
      over := e.nblockUsed == e.saveNblock + 1 && e.stateOutLen == 0;
      crc := !e.calculatedBlockCRC;
      ServedSmall(e, corrupt);
      ServedMeans(dstate.s, e.nblockUsed, e.k0, e.stateOutCh, e.stateOutLen, before, out, e.emitted, availOut, corrupt,
        e.calculatedBlockCRC, crc);
      assert !corrupt && over ==> e.nblockUsed == |dstate.s.tt| + 1;
      totalOut.AddEach(|out|);
      delivered := delivered + out;
      assert settled + before + out == settled + (before + out);
    }

    /** Outputs as much of the block as there is room for. */
    method PutBlock(availOut: nat) returns (out: seq<int>, corrupt: bool, over: bool, crc: bv32)
      requires Outputting() && dstate !in Repr() && this !in Repr() && totalOut.Valid() && availOut < HALF
      modifies this`delivered, Expander(), totalOut
      ensures delivered == old(delivered) + out && |out| <= availOut && delivered <= settled + BlockText(dstate.s)
      ensures totalOut.Valid() && totalOut.n == old(totalOut.n) + |out|
      ensures corrupt ==> !BlockWhole(dstate.s)
      ensures !corrupt && over ==>
        delivered == settled + BlockText(dstate.s) && BlockWhole(dstate.s) && crc == CheckValue(BlockText(dstate.s))
      ensures !corrupt && !over ==> Outputting() && |out| == availOut
      ensures !corrupt && !over ==> |delivered| < |settled + BlockText(dstate.s)| || !BlockWhole(dstate.s)
    {
      hide BlockText, BlockWhole, CheckValue, Complete, Expander, Outputs, Repr, Sound, SourceOf;
      match output
      case Fast(_) => out, corrupt, over, crc := PutFast(availOut);
      case Small(_) => out, corrupt, over, crc := PutSmall(availOut);
    }

    /** The block has been output: its check value is taken into that of the stream, and the
        next block is awaited. */
    method NextBlockStarts(crc: bv32)
      requires Complete() && !dstate.s.randomised && delivered == settled + BlockText(dstate.s) && BlockWhole(dstate.s)
      requires crc == CheckValue(BlockText(dstate.s)) && AsWord(crc) == dstate.s.storedBlockCRC
      modifies this`calculatedCombinedCRC, this`settled, dstate`state, dstate`s
      ensures Awaiting() && dstate.state == dstate.s.at == BlkHdr(1)
    {
      hide AfterBlock, AsWord, BitsOf, BlockText, BlockWhole, CheckValue, Combine, Decompressed, Kept, NextBlock,
        Onto, Outputs, Pending, Promised, Ready, Waiting;
      NextKept(dstate.s, dstate.bsBuff, dstate.bsLive);
      BlockDone(dstate.s, Left(), calculatedCombinedCRC);
      OntoTwice(settled, BlockText(dstate.s),
        Decompressed(NextBlock(dstate.s), Left(), Combine(calculatedCombinedCRC, crc)));
      PendingSame(dstate.Resting(), NextBlock(dstate.s));
      calculatedCombinedCRC := Combine(calculatedCombinedCRC, crc);
      settled := delivered;
      dstate.BlockOver();
    }
  
    lemma BlockPromised()
      requires Complete() && !dstate.s.randomised
      ensures settled + BlockText(dstate.s) <= Promised().data
      ensures !BlockWhole(dstate.s) || AsWord(CheckValue(BlockText(dstate.s))) != dstate.s.storedBlockCRC ==>
        Promised() == Decoded(settled + BlockText(dstate.s), Damaged(DataError))
    {
      hide AfterBlock, AsWord, BlockText, BlockWhole, CheckValue, Combine, Decompressed, Kept, Left, NextBlock,
        Outputs, Promised, Ready, Waiting;
      NextKept(dstate.s, 0, 0);
      if !BlockWhole(dstate.s) || AsWord(CheckValue(BlockText(dstate.s))) != dstate.s.storedBlockCRC {
        BlockDamaged(dstate.s, Left(), calculatedCombinedCRC);
      } else {
        BlockDone(dstate.s, Left(), calculatedCombinedCRC);
        var r := Decompressed(NextBlock(dstate.s), Left(),
          Combine(calculatedCombinedCRC, CheckValue(BlockText(dstate.s))));
        assert settled + (BlockText(dstate.s) + r.data) == settled + BlockText(dstate.s) + r.data;
      }
    }

    /** Outputs the block, and checks it when it is over. */
    method GiveBlock(availOut: nat) returns (out: seq<int>, damaged: bool, over: bool)
      requires Outputting() && dstate !in Repr() && this !in Repr() && totalOut.Valid() && availOut < HALF
      modifies this`delivered, this`calculatedCombinedCRC, this`settled, this`failed, dstate`state, dstate`s
      modifies Expander(), totalOut
      ensures delivered == old(delivered) + out && |out| <= availOut && delivered <= Promised().data
      ensures totalOut.Valid() && totalOut.n == old(totalOut.n) + |out|
      ensures failed == (old(failed) || damaged) && (damaged ==> Promised().verdict == Damaged(DataError))
      ensures damaged ==> Promised().data == delivered || CutShort(dstate.s)
      ensures !damaged && !over ==> Outputting() && |out| == availOut && dstate.state == dstate.s.at == Output
      ensures !damaged && !over ==> Promised() != Decoded(delivered, Finished)
      ensures !damaged && over ==> Awaiting() && dstate.state == dstate.s.at == BlkHdr(1)
    {
      hide Counter.Valid, AfterBlock, AsWord, Awaiting, BlockText, BlockWhole, CheckValue, Expanding, Fed, Kept, Left,
        Onto,
        Outputs, Promised, Sound, SourceOf;
      BlockPromised();
      ghost var text := settled + BlockText(dstate.s);
      var crc;
      out, damaged, over, crc := PutBlock(availOut);
      PrefixOf(delivered, text, Promised().data);
      if damaged {
        failed := true;
      } else if over {
        dstate.ColumnKnown();
        if AsWord(crc) != dstate.storedBlockCRC {
          damaged := true;
          failed := true;
        } else {
          NextBlockStarts(crc);
        }
      }
    }

    /** What is known of a call's answer. */
    ghost predicate Answers(ret: Reply, unread: nat, room: int)
      reads this, Repr(), dstate, dstate.Parts()
    {
      && delivered <= Promised().data
      && match ret
         case SequenceError => !failed && Valid() && dstate.s.at == Idle && Promised() == Decoded(delivered, Finished)
         case Randomised => failed && Promised() == Decoded(delivered, Unsupported)
         case Replied(StreamEnd) => !failed && Valid() && dstate.s.at == Idle &&
           Promised() == Decoded(delivered, Finished)
         case Replied(Ok) =>
           && !failed && Valid() && dstate.s.at != Idle
           && if dstate.s.at == Output then room == 0 && Promised() != Decoded(delivered, Finished)
              else unread == 0 && (|received| == |whole| ==> Promised() == Decoded(delivered, Unfinished))
         case Replied(code) =>
           && failed && Promised().verdict == Damaged(code)
           && (Promised().data == delivered || (code == DataError && CutShort(dstate.s)))
    }
  
    /** Decodes the next block and makes ready to output it, or tells why not. */
    method DecodeBlock(input: seq<nat>, used0: nat) returns (ret: Reply, used: nat, stop: bool)
      requires Awaiting() && used0 <= |input| && received + input[used0..] <= whole && !failed
      requires dstate !in Repr() && this !in Repr() && dstate.totalIn.Valid()
      modifies this`received, this`output, this`failed, dstate, dstate.Parts(), dstate.totalIn
      ensures used0 <= used <= |input| && received == old(received) + input[used0..used]
      ensures dstate !in Repr() && this !in Repr()
      ensures stop ==> Answers(ret, |input| - used, 1) && ret != SequenceError && output == old(output)
      ensures !stop ==> Outputting() && fresh(Repr()) && !failed && dstate.state == dstate.s.at == Output
      ensures !stop ==> 8 * (|input| - used) + dstate.bsLive < 8 * (|input| - used0) + old(dstate.bsLive)
      ensures dstate.totalIn.Valid() && dstate.totalIn.n == old(dstate.totalIn.n) + used - used0
    {
      hide AfterBlock, AsWord, Decompressed, Expanding, Fed, Kept, Left, Outputs, Promised, Ready, Repr, Sound,
        SourceOf, Waiting;
      stop := true;
      var code;
      ghost var starved;
      code, used, starved := RunOn(input, used0);
      ret := Replied(code);
      assert settled + [] == settled;
      if code == StreamEnd {
        if AsWord(calculatedCombinedCRC) != dstate.storedCombinedCRC {
          failed := true;
          ret := Replied(DataError);
        }
      } else if code != Ok || dstate.state != Output {
        failed := code != Ok;
      } else if dstate.blockRandomised {
        NotFollowed(dstate.s, Left(), calculatedCombinedCRC);
        failed := true;
        ret := Randomised;
      } else {
        PrepareOutput();
        stop := false;
      }
    }

    /** Outputs the block if there is one, and decodes the next one. */
    method Step(input: seq<nat>, used0: nat, room: nat) returns (ret: Reply, used: nat, out: seq<int>, stop: bool)
      requires Valid() && !failed && dstate.s.at != Idle && used0 <= |input| && received + input[used0..] <= whole
      requires dstate.totalIn.Valid() && totalOut.Valid() && room < HALF && dstate.totalIn != totalOut
      modifies dstate.totalIn, totalOut
      modifies this`received, this`delivered, this`settled, this`calculatedCombinedCRC, this`output, this`failed
      modifies dstate, dstate.Parts(), Expander()
      ensures used0 <= used <= |input| && received == old(received) + input[used0..used]
      ensures |out| <= room && delivered == old(delivered) + out
      ensures stop ==> Answers(ret, |input| - used, room - |out|) && ret != SequenceError && output == old(output)
      ensures !stop ==> Valid() && !failed && dstate.s.at != Idle && fresh(Expander())
      ensures !stop ==> 8 * (|input| - used) + dstate.bsLive < 8 * (|input| - used0) + old(dstate.bsLive)
      ensures dstate.totalIn.Valid() && dstate.totalIn.n == old(dstate.totalIn.n) + used - used0
      ensures totalOut.Valid() && totalOut.n == old(totalOut.n) + |out|
    {
      hide Counter.Valid, Awaiting, Outputting, Over, Promised;
      used, out, stop := used0, [], true;
      assert input[used0..used0] == [];
      if dstate.state == Output {
        var damaged, over;
        out, damaged, over := GiveBlock(room);
        if damaged { return Replied(DataError), used, out, true; }
        if !over { return Replied(Ok), used, out, true; }
      }
      ret, used, stop := DecodeBlock(input, used);
    }

    /** One call of the decompressor. */
    method BzDecompress(input: seq<nat>, availOut: nat) returns (ret: Reply, used: nat, out: seq<int>)
      requires Valid() && !failed && received + input <= whole && availOut < HALF && Counted()
      modifies dstate.totalIn, totalOut
      modifies this`received, this`delivered, this`settled, this`calculatedCombinedCRC, this`output, this`failed
      modifies dstate, dstate.Parts(), Expander()
      ensures used <= |input| && received == old(received) + input[..used]
      ensures |out| <= availOut && delivered == old(delivered) + out
      ensures Answers(ret, |input| - used, availOut - |out|) && (!failed ==> Valid())
      ensures ret == SequenceError <==> old(dstate.s.at) == Idle
      ensures Counted()
      ensures fresh(Expander() - old(Expander()))
    {
      hide Answers, Counter.Valid, Awaiting, Complete, Expander, Fed, Kept, Left, Outputting, Over, Pending, Promised,
        Repr;
      used, out := 0, [];
      assert input[..0] == [] && input[0..] == input;
      if dstate.state == Idle {
        IdleAnswers(|input|, availOut);
        return SequenceError, used, out;
      }
      while true
        invariant Valid() && !failed && dstate.s.at != Idle && used <= |input|
        invariant received == old(received) + input[..used]
        invariant |out| <= availOut && delivered == old(delivered) + out && Counted()
        invariant fresh(Expander() - old(Expander()))
        decreases 8 * (|input| - used) + dstate.bsLive
      {
        assert input[..used] + input[used..] == input;
        var next, more, stop;
        ret, next, more, stop := Step(input, used, availOut - |out|);
        out := out + more;
        assert input[..used] + input[used..next] == input[..next];
        used := next;
        if stop { AnswersValid(ret, |input| - used, availOut - |out|); return; }
      }
    }

    lemma IdleAnswers(unread: nat, room: int)
      requires Valid() && !failed && dstate.state == Idle
      ensures Answers(SequenceError, unread, room) && dstate.s.at == Idle
    {
      hide Promised;
    }

    lemma AnswersValid(ret: Reply, unread: nat, room: int)
      requires Answers(ret, unread, room)
      ensures !failed ==> Valid()
    {
      hide Valid, Promised;
    }
  }

  lemma NotFollowed(s: State, w: seq<bool>, combined: bv32)
    requires Outputs(s) && s.randomised
    ensures AfterBlock(s, w, combined) == Decoded([], Unsupported)
  {
    hide Outputs;
  }

  lemma PrefixOf(a: seq<int>, b: seq<int>, c: seq<int>)
    requires a <= b <= c
    ensures a <= c
  {
  }

  lemma NothingLeft(m: Machine, left: seq<nat>, combined: bv32)
    requires Ready(m) && m.live < Need(m.s) && left == []
    ensures Waiting(m.s) && Decompressed(m.s, Coroutine.Pending(m) + BitsOf(left), combined) == Decoded([], Unfinished)
  {
    hide Good, Drive, AfterBlock, Need;
    NoBits();
    assert Coroutine.Pending(m) + [] == Coroutine.Pending(m);
    DriveShort(m.s, Coroutine.Pending(m));
  }

  lemma BlockDone(s: State, w: seq<bool>, combined: bv32)
    requires Outputs(s) && !s.randomised && BlockWhole(s) && AsWord(CheckValue(BlockText(s))) == s.storedBlockCRC
    ensures AfterBlock(s, w, combined) ==
      Onto(BlockText(s), Decompressed(NextBlock(s), w, Combine(combined, CheckValue(BlockText(s)))))
  {
    hide Outputs, BlockWhole, BlockText, CheckValue, Combine, Decompressed;
  }

  lemma BlockDamaged(s: State, w: seq<bool>, combined: bv32)
    requires Outputs(s) && !s.randomised && (!BlockWhole(s) || AsWord(CheckValue(BlockText(s))) != s.storedBlockCRC)
    ensures AfterBlock(s, w, combined) == Decoded(BlockText(s), Damaged(DataError))
  {
    hide Outputs, BlockWhole, BlockText, CheckValue, Combine, Decompressed;
  }

  lemma PendingSame(m: Machine, s: State)
    ensures Coroutine.Pending(m.(s := s)) == Coroutine.Pending(m)
  {
  }

  lemma NextKept(s: State, buff: nat, live: nat)
    requires Kept(s) && s.at == Output && live <= 32
    ensures Kept(NextBlock(s)) && Ready(Machine(NextBlock(s), buff, live)) && NextBlock(s).at == BlkHdr(1)
    ensures Waiting(NextBlock(s)) && NextBlock(s) == s.(at := BlkHdr(1))
  {
  }

  lemma ServedFast(f: FastExpander, corrupt: bool)
    requires !corrupt ==> f.Valid()
    ensures !corrupt ==> f.saveNblock == |f.src.l|
    ensures !corrupt ==>
      Standing(f.src, f.nblockUsed, f.k0, f.stateOutCh, f.stateOutLen, f.emitted, f.calculatedBlockCRC)
  {
    hide Standing;
  }

  lemma ServedSmall(e: SmallExpander, corrupt: bool)
    requires !corrupt ==> e.Valid()
    ensures !corrupt ==> e.saveNblock == |e.src.l|
    ensures !corrupt ==>
      Standing(e.src, e.nblockUsed, e.k0, e.stateOutCh, e.stateOutLen, e.emitted, e.calculatedBlockCRC)
  {
    hide Standing;
  }

  /** What a call of an expander means for the block. */
  lemma ServedMeans(s: State, used: int, k0: int, ch: int, len: int, before: seq<int>, out: seq<int>, after: seq<int>,
                    avail: nat, corrupt: bool, reg: bv32, crc: bv32)
    requires crc == !reg && Outputs(s) && Served(SourceOf(s), used, len, before, out, after, avail, corrupt)
    requires !corrupt ==> Standing(SourceOf(s), used, k0, ch, len, after, reg)
    ensures after == before + out && |out| <= avail && after <= BlockText(s) && (corrupt ==> !BlockWhole(s))
    ensures !corrupt && used == |s.tt| + 1 && len == 0 ==>
      after == BlockText(s) && BlockWhole(s) && crc == CheckValue(BlockText(s))
    ensures !corrupt && !(used == |s.tt| + 1 && len == 0) ==>
      |out| == avail && (|after| < |BlockText(s)| || !BlockWhole(s))
  {
    hide RunLength.Expanded, RunLength.Whole, Text, SourceOf, Standing, Served, Register;
    SourceFacts(s);
    ServedParts(SourceOf(s), used, len, before, out, after, avail, corrupt);
    if !corrupt {
      StandingPrefix(SourceOf(s), used, k0, ch, len, after, reg);
      StandingCheck(SourceOf(s), used, k0, ch, len, after, reg);
      if !(used == |s.tt| + 1 && len == 0) { StandingShort(SourceOf(s), used, k0, ch, len, after, reg); }
    }
  }

  lemma ServedParts(src: Source, used: int, len: int, before: seq<int>, out: seq<int>, after: seq<int>, avail: nat,
                    corrupt: bool)
    requires Served(src, used, len, before, out, after, avail, corrupt)
    ensures Sound(src) && |src.t| == |src.l| && (forall k :: 0 <= k < |src.t| ==> 0 <= src.t[k] < |src.t|)
    ensures (forall k :: 0 <= k < |Text(src)| ==> 0 <= Text(src)[k] < 256)
    ensures after == before + out && |out| <= avail && after <= RunLength.Expanded(Text(src), |src.l|, 0)
    ensures corrupt ==> !RunLength.Whole(Text(src), |src.l|, 0)
    ensures |out| < avail && !corrupt ==> used == |src.l| + 1 && len == 0
  {
    hide Text, RunLength.Expanded, RunLength.Whole, Sound;
  }

  /** A block that is not over is not all output, or lacks the count of its last run. */
  lemma StandingShort(src: Source, used: int, k0: int, ch: int, len: int, emitted: seq<int>, crc: bv32)
    requires Standing(src, used, k0, ch, len, emitted, crc) && !(used == |src.l| + 1 && len == 0)
    ensures Sound(src) && |src.t| == |src.l| && (forall k :: 0 <= k < |src.t| ==> 0 <= src.t[k] < |src.t|)
    ensures (forall k :: 0 <= k < |Text(src)| ==> 0 <= Text(src)[k] < 256)
    ensures |emitted| < |RunLength.Expanded(Text(src), |src.l|, 0)| || !RunLength.Whole(Text(src), |src.l|, 0)
  {
    hide Text, RunLength.Expanded, RunLength.Whole, Register;
    StandingPrefix(src, used, k0, ch, len, emitted, crc);
    if used <= |src.l| {
      RunLength.ExpandStep(Text(src), |src.l|, used - 1);
      assert |RunLength.Expanded(Text(src), |src.l|, used - 1)| > 0;
    }
  }

  lemma StandingCheck(src: Source, used: int, k0: int, ch: int, len: int, emitted: seq<int>, crc: bv32)
    requires Standing(src, used, k0, ch, len, emitted, crc)
    ensures crc == Register(emitted) && !crc == CheckValue(emitted)
  {
    hide Register, Text;
  }

  lemma SourceFacts(s: State)
    requires Outputs(s)
    ensures SourceOf(s).l == s.tt && SourceOf(s).start == s.origPtr && Sound(SourceOf(s))
  {
  }

  lemma RestOf(whole: seq<nat>, received: seq<nat>, input: seq<nat>)
    requires received + input <= whole
    ensures |received| + |input| <= |whole| && whole[|received|..] == input + whole[|received| + |input|..]
    ensures (forall i :: 0 <= i < |whole| ==> whole[i] < 256) ==> forall i :: 0 <= i < |input| ==> input[i] < 256
    ensures forall n :: 0 <= n <= |input| ==> received + input[..n] == whole[..|received| + n]
    ensures forall n :: 0 <= n <= |input| ==> whole[|received| + n..] == input[n..] + whole[|received| + |input|..]
  {
    assert forall i :: 0 <= i < |input| ==> input[i] == (received + input)[|received| + i] == whole[|received| + i];
  }

  lemma BeginningFacts()
    ensures Ready(Machine(Beginning(), 0, 0)) && Waiting(Beginning()) && Kept(Beginning()) && Beginning().at == Magic(1)
    ensures Beginning().blockSize100k == 0
    ensures Beginning().storedBlockCRC == Beginning().storedCombinedCRC == Beginning().origPtr == 0
    ensures !Beginning().randomised
    ensures Coroutine.Pending(Machine(Beginning(), 0, 0)) == []
  {
  }

  lemma OntoNothing(r: Decoded)
    ensures Onto([], r) == r
  {
    assert [] + r.data == r.data;
  }
}
