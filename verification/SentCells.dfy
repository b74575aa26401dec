/** What the compressor sends never has the decompressor store outside the arrays of selectors. */
module SentCells {
  import opened Bits
  import opened BlockCrc
  import opened BlockDecoding
  import opened BlockLength
  import opened CanonicalCodes
  import opened ColumnDecoding
  import opened Decompressor
  import opened RoundTrip
  import opened RunLength
  import opened SelectorCells
  import opened StreamDecoding
  import opened StreamFormat

  /** The cells stored into while all blocks of a stream are decoded, whatever their check values. */
  ghost function StreamCells(s: State, w: seq<bool>): set<int>
    requires Waiting(s)
    decreases |w|
  {
    DriveTakes(s, w);
    Cells(s, w) + match Drive(s, w)
      case Short(_, _) => {}
      case Done(code, s1, rest) => if code == Ok && s1.at == Output then StreamCells(NextBlock(s1), rest) else {}
  }

  /** A block of at most 900000 bytes has no more selectors than there is room for. */
  lemma FewSelectors(x: Sent, capacity: int)
    requires Faithful(x, capacity) && capacity <= 900000
    ensures |x.b.selectors| <= MAX_SELECTORS
  {
    hide Faithful, Sendable;
    FewSymbols(x, capacity);
  }

  lemma BlockInside(s: State, x: Sent, more: seq<bool>) returns (s1: State)
    requires s.at == BlkHdr(1) && Faithful(x, Capacity(s)) && Capacity(s) <= 900000
    ensures Waiting(s) && Sendable(x.b) && Drive(s, BlockBits(x.b) + more) == Done(Ok, s1, more)
    ensures s1.at == Output && s1.blockSize100k == s.blockSize100k
    ensures Cells(s, BlockBits(x.b) + more) == UpTo(|x.b.selectors|) && Inside(UpTo(|x.b.selectors|))
  {
    hide BlockBits, Capacity, Cells, Drive, Faithful, Sendable, Waiting;
    FaithfulProper(x, Capacity(s));
    s1 := BlockDecodes(s, x.b, more);
    FewSelectors(x, Capacity(s));
    DoneCells(s, BlockBits(x.b) + more);
  }

  lemma StreamNext(s: State, w: seq<bool>)
    requires Waiting(s) && Drive(s, w).Done?
    ensures var r := Drive(s, w);
      && |r.rest| < |w| && Waiting(NextBlock(r.s))
      && StreamCells(s, w)
         == Cells(s, w) + if r.code == Ok && r.s.at == Output then StreamCells(NextBlock(r.s), r.rest) else {}
  {
    hide Cells, Drive;
    DriveTakes(s, w);
  }

  /** The blocks and the trailer, from the start of a block. */
  lemma {:induction false} BlocksInside(s: State, xs: seq<Sent>, combined: bv32, fill: seq<bool>)
    requires s.at == BlkHdr(1) && AllFaithful(xs, Capacity(s)) && Capacity(s) <= 900000
    ensures Waiting(s) && forall i :: 0 <= i < |xs| ==> Sendable(xs[i].b)
    ensures var w := BlocksBits(xs) + (TrailerBits(AsWord(Combined(xs, combined))) + fill);
      && Drive(s, w).Done? && (Drive(s, w).code == Ok || Drive(s, w).code == StreamEnd) && Inside(StreamCells(s, w))
    decreases |xs|
  {
    hide AsWord, BlockBits, BlocksBits, Capacity, Cells, CheckValue, Combine, Combined, Data, Drive, Faithful,
      NextBlock, Sendable, StreamCells, TrailerBits, Waiting;
    BlkHdrWaits(s);
    AllSendable(xs, Capacity(s));
    BlocksParts(xs, combined);
    var u := AsWord(Combined(xs, combined));
    var tail := TrailerBits(u) + fill;
    AsWordFits(Combined(xs, combined));
    if xs == [] {
      TrailerDecodes(s, u, fill);
      assert [] + tail == tail;
      EndCells(s, tail);
      StreamNext(s, tail);
    } else {
      var more := BlocksBits(xs[1..]) + tail;
      assert BlockBits(xs[0].b) + BlocksBits(xs[1..]) + tail == BlockBits(xs[0].b) + more;
      var s1 := BlockInside(s, xs[0], more);
      StreamNext(s, BlockBits(xs[0].b) + more);
      NextBlockAt(s1);
      SameCapacity(s, NextBlock(s1));
      BlocksInside(NextBlock(s1), xs[1..], Combine(combined, CheckValue(Plain(xs[0].ps))), fill);
    }
  }

  lemma SameCells(s: State, w: seq<bool>, s1: State, w1: seq<bool>)
    requires Waiting(s) && Waiting(s1) && Outer(s.at) && Outer(s1.at) && Drive(s, w) == Drive(s1, w1)
    requires Drive(s, w).Done? && (Drive(s, w).code == Ok || Drive(s, w).code == StreamEnd)
    ensures StreamCells(s, w) == StreamCells(s1, w1)
  {
    hide Cells, Drive;
    if Drive(s, w).code == Ok {
      DoneCells(s, w);
      DoneCells(s1, w1);
    } else {
      EndCells(s, w);
      EndCells(s1, w1);
    }
    StreamNext(s, w);
    StreamNext(s1, w1);
  }

  /** Decoding a whole stream that was sent, all stores are inside. */
  lemma StreamInside(s: State, blockSize100k: int, xs: seq<Sent>, fill: seq<bool>)
    requires s.at == Magic(1) && 1 <= blockSize100k <= 9 && AllFaithful(xs, 100000 * blockSize100k)
    ensures Waiting(s) && forall i :: 0 <= i < |xs| ==> Sendable(xs[i].b)
    ensures Inside(StreamCells(s, StreamBits(blockSize100k, xs, fill)))
  {
    hide AllFaithful, AsWord, BitsOf, BlocksBits, Cells, Combined, Drive, Sendable, StreamCells, StreamHeader,
      TrailerBits, Waiting;
    AllSendable(xs, 100000 * blockSize100k);
    var h := StreamHeader(blockSize100k);
    assert h[0..] == h;
    var w := BlocksBits(xs) + (TrailerBits(AsWord(Combined(xs, 0))) + fill);
    MagicWaits(s);
    HeaderDecodes(s, blockSize100k, 1, w);
    var s1 := s.(blockSize100k := blockSize100k, at := BlkHdr(1));
    BlocksInside(s1, xs, 0, fill);
    SameCells(s, BitsOf(h) + w, s1, w);
  }
}
