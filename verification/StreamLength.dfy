/** How many bytes a stream takes. */
module StreamLength {
  import opened Bits
  import opened BitWriters
  import opened BlockCrc
  import BlockDecoding
  import opened BlockLength
  import C = Compressor
  import CanonicalCodes
  import opened Decompressor
  import opened MoveToFront
  import opened RoundTrip
  import opened RunCoder
  import opened RunLength
  import opened StreamDecoding
  import opened StreamFormat

  /** Packing adds at most one byte to four. */
  lemma {:induction false} PackedCells(ps: seq<Pair>)
    requires Runs(ps)
    ensures 4 * |Squeezed(ps)| <= 5 * |Plain(ps)|
  {
    if ps != [] {
      var n := |ps| - 1;
      PackedCells(ps[..n]);
      PairCells(ps[n]);
    }
  }

  lemma PairCells(p: Pair)
    requires p.len >= 1
    ensures 4 * |PairBytes(p)| <= 5 * p.len
  {
  }

  function TotalCells(xs: seq<Sent>): nat {
    if xs == [] then 0 else C.Cells(xs[0]) + TotalCells(xs[1..])
  }

  lemma FaithfulCells(x: Sent, capacity: int)
    requires Faithful(x, capacity)
    ensures Sendable(x.b) && Runs(x.ps) && |BlockBits(x.b)| <= Room(C.Cells(x))
  {
    hide AsWord, BlockBits, CheckValue, ColumnNumbers, MoveToFront.Coded, Plain, Ranks, Room, Runs, Sendable,
      Squeezed;
    FaithfulFacts(x, capacity);
    BlockShort(x, C.Cells(x));
  }

  /** What each cell and each block adds at most. */
  lemma RoomLinear(n: nat)
    ensures Room(n) <= 21 * n + 60823
  {
    assert (n + G_SIZE) / G_SIZE <= n / 50 + 1;
  }

  /** All blocks together. */
  lemma {:induction false} BlocksShort(xs: seq<Sent>, capacity: int)
    requires AllFaithful(xs, capacity)
    ensures forall i :: 0 <= i < |xs| ==> Sendable(xs[i].b)
    ensures |BlocksBits(xs)| <= 21 * TotalCells(xs) + 60823 * |xs|
    ensures 4 * TotalCells(xs) <= 5 * |Data(xs)|
    decreases |xs|
  {
    hide BlockBits, C.Cells, Faithful, Plain, Room, Sendable;
    SendableAll(xs, capacity);
    if xs != [] {
      FaithfulCells(xs[0], capacity);
      RoomLinear(C.Cells(xs[0]));
      CellsFew(xs[0]);
      BlocksShort(xs[1..], capacity);
    }
  }

  lemma CellsFew(x: Sent)
    requires Runs(x.ps)
    ensures 4 * C.Cells(x) <= 5 * |Plain(x.ps)|
  {
    PackedCells(x.ps);
  }

  lemma SendableAll(xs: seq<Sent>, capacity: int)
    requires AllFaithful(xs, capacity)
    ensures forall i :: 0 <= i < |xs| ==> Sendable(xs[i].b)
  {
    hide Runs, Squeezed, Sendable, CheckValue, Plain, ColumnNumbers;
  }

  /** Full blocks are not many. */
  lemma {:induction false} FewBlocks(xs: seq<Sent>, n: nat)
    requires C.Packed(xs, 0, n, true)
    ensures xs != [] ==> (|xs| - 1) * n <= TotalCells(xs)
    decreases |xs|
  {
    hide C.Cells;
    if |xs| > 1 {
      assert C.Cells(xs[0]) >= n;
      forall i | 0 <= i < |xs[1..]| - 1 ensures C.Cells(xs[1..][i]) >= n { assert xs[1..][i] == xs[i + 1]; }
      FewBlocks(xs[1..], n);
      BlockLength.OneMore(n, |xs| - 2);
    }
  }

  /** A bound on the bytes of the stream for n bytes of data, for a block size. */
  function StreamRoom(n: nat, blockSize100k: int): int
    requires 1 <= blockSize100k <= 9
  {
    var cells := 5 * n / 4;
    (32 + 21 * cells + 60823 * (1 + cells / (100000 * blockSize100k - 19)) + 87) / 8
  }

  lemma Share(cells: nat, total: nat, count: nat, n: nat)
    requires n > 0 && total <= cells && (count > 0 ==> (count - 1) * n <= total)
    ensures count <= 1 + cells / n
  {
    if count > 0 {
      var q, r := cells / n, cells % n;
      assert cells == q * n + r;
      if count - 1 > q {
        Multiple(count - 1 - q, n);
        Spread(count - 1, q, n);
        assert false;
      }
    }
  }

  lemma Spread(a: int, b: int, n: int)
    ensures (a - b) * n == a * n - b * n
  {
  }

  /** What has been written of a stream whose blocks are full, ended or not, is within the bound. */
  lemma StreamedShort(k: int, headed: bool, sent: seq<Sent>, ended: bool, fill: seq<bool>, bits: seq<bool>, n: nat)
    requires C.Streamed(k, headed, sent, ended, fill, bits) && C.Packed(sent, 0, 100000 * k - 19, true)
    requires |Data(sent)| <= n && |fill| < 8
    ensures |bits| <= 8 * StreamRoom(n, k) + 7
  {
    hide AllFaithful, BitsOf, BlocksBits, C.Packed, Combined, Data, Sendable, TotalCells;
    BlocksShort(sent, 100000 * k);
    FewBlocks(sent, 100000 * k - 19);
    C.HeaderSize(k);
    C.TrailerSize(AsWord(Combined(sent, 0)));
    C.TrailerAre(AsWord(Combined(sent, 0)));
    Share(5 * n / 4, TotalCells(sent), |sent|, 100000 * k - 19);
  }

  /** A stream that has ended takes more than no bytes. */
  lemma StreamedSome(k: int, headed: bool, sent: seq<Sent>, fill: seq<bool>, bits: seq<bool>)
    requires C.Streamed(k, headed, sent, true, fill, bits)
    ensures bits != []
  {
    hide AllFaithful, BitsOf, BlocksBits, Combined, Sendable, TrailerBits;
    C.TrailerLong(AsWord(Combined(sent, 0)));
  }

  /** The bytes are the beginning of a stream for a beginning of the data. */
  ghost predicate Begins(bytes: seq<nat>, data: seq<int>, k: int) {
    exists headed, sent, ended, fill, more ::
      C.Streamed(k, headed, sent, ended, fill, BitsOf(bytes) + more) && Data(sent) <= data
  }

  /** Bytes still to be given out mean that the stream is longer than what has been given out. */
  lemma RemainingBegins(c: C.Compressor, data: seq<int>) returns (written: seq<nat>)
    requires c.Valid() && c.Remaining() && c.consumed <= data
    ensures c.delivered < written && Begins(written, data, c.blockSize100k)
  {
    hide AllFaithful, BitsOf, BlocksBits, C.Streamed, Combined, Data, Filled, Gathered, Plain, Sendable;
    written := c.prior + c.writer.zbits;
    BitsOfConcat(c.prior, c.writer.zbits);
    assert BitsOf(c.prior) + c.writer.Written() == BitsOf(written) + c.writer.pending;
    assert Data(c.sent) <= c.consumed;
  }

  /** So what has been given out is then below the bound. */
  lemma RemainingShort(c: C.Compressor, n: nat)
    requires c.Valid() && c.Remaining() && |c.consumed| <= n && C.Packed(c.sent, 0, c.nblockMAX, true)
    ensures |c.delivered| < StreamRoom(n, c.blockSize100k)
  {
    hide AllFaithful, BitsOf, BlocksBits, C.Packed, C.Streamed, Combined, Data, Filled, Gathered, Plain, Sendable,
      StreamRoom;
    assert |Data(c.sent)| <= |c.consumed|;
    StreamedShort(c.blockSize100k, c.headed, c.sent, c.ended, c.fill, BitsOf(c.prior) + c.writer.Written(), n);
  }

  /** A stream that is over has some bytes. */
  lemma StoppedSome(c: C.Compressor)
    requires c.Valid() && c.Settled() && c.mode == C.Stopped
    ensures c.delivered != []
  {
    hide AllFaithful, BitsOf, BlocksBits, C.Streamed, Combined, Data, Filled, Gathered, Plain, Sendable;
    StreamedSome(c.blockSize100k, c.headed, c.sent, c.fill, BitsOf(c.prior) + c.writer.Written());
  }

  // The stream of no data.

  lemma {:induction false} SameBytes(a: seq<nat>, b: seq<nat>)
    requires C.AllBytes(a) && C.AllBytes(b) && BitsOf(a) == BitsOf(b)
    ensures a == b
    decreases |a|
  {
    hide CanonicalCodes.Word, CanonicalCodes.Value;
    if a != [] {
      var n := |a| - 1;
      LastByte(a);
      LastByte(b);
      SameBytes(a[..n], b[..n]);
      assert a == a[..n] + [a[n]] && b == b[..n] + [b[n]];
    }
  }

  lemma LastByte(a: seq<nat>)
    requires C.AllBytes(a) && a != []
    ensures var n := |a| - 1;
      && BitsOf(a)[..8 * n] == BitsOf(a[..n]) && C.AllBytes(a[..n])
      && CanonicalCodes.Value(BitsOf(a)[8 * n..]) == a[n]
  {
    hide CanonicalCodes.Word, CanonicalCodes.Value;
    var n := |a| - 1;
    BlockDecoding.ByteSize();
    CanonicalCodes.WordValue(a[n], 8);
    assert BitsOf(a) == BitsOf(a[..n]) + CanonicalCodes.Word(a[n], 8);
  }

  /** Header and trailer, with a check value of zero. */
  function EmptyBytes(blockSize100k: int): seq<nat>
    requires 1 <= blockSize100k <= 9
  {
    [0x42, 0x5a, 0x68, 0x30 + blockSize100k, 0x17, 0x72, 0x45, 0x38, 0x50, 0x90, 0, 0, 0, 0]
  }

  lemma EmptyBits(k: int)
    requires 1 <= k <= 9
    ensures BitsOf(EmptyBytes(k)) == BitsOf(StreamHeader(k)) + TrailerBits(0) && C.AllBytes(EmptyBytes(k))
  {
    hide BitsOf;
    var h, e, z := StreamHeader(k), END_MAGIC, WordBytes(0);
    assert EmptyBytes(k) == h + e + z;
    BitsOfConcat(h + e, z);
    BitsOfConcat(h, e);
  }

  lemma NoBlocks(sent: seq<Sent>, capacity: int)
    requires AllFaithful(sent, capacity) && Data(sent) == []
    ensures sent == []
  {
    hide Faithful, Plain;
    assert sent != [] ==> |Plain(sent[0].ps)| <= |Data(sent)|;
    if sent != [] { FaithfulSome(sent[0], capacity); }
  }

  lemma FaithfulSome(x: Sent, capacity: int)
    requires Faithful(x, capacity)
    ensures Plain(x.ps) != []
  {
    hide AsWord, CheckValue, ColumnNumbers, MoveToFront.Coded, Plain, Ranks, Runs, Sendable, Squeezed;
    FaithfulFacts(x, capacity);
    PackedCells(x.ps);
  }

  /** The stream of no data is these fourteen bytes. */
  lemma EmptyStream(c: C.Compressor)
    requires c.Valid() && c.Settled() && c.mode == C.Stopped && c.consumed == []
    ensures c.delivered == EmptyBytes(c.blockSize100k)
  {
    hide AllFaithful, BitsOf, BlocksBits, C.AllBytes, C.Streamed, Combined, Data, EmptyBytes, Filled, Gathered, Plain,
      Sendable, StreamHeader, TrailerBits;
    var k := c.blockSize100k;
    c.DeliveredBytes();
    assert c.writer.zbits[..c.stateOutPos] == c.writer.zbits;
    BitsOfConcat(c.prior, c.writer.zbits);
    assert BitsOf(c.prior) + c.writer.Written() == BitsOf(c.delivered) by {
      assert BitsOf(c.writer.zbits) + [] == BitsOf(c.writer.zbits);
    }
    assert Data(c.sent) == [];
    EmptyStreamed(k, c.headed, c.sent, c.fill, BitsOf(c.delivered), |c.delivered|);
    EmptyBits(k);
    SameBytes(c.delivered, EmptyBytes(k));
  }

  lemma EmptyStreamed(k: int, headed: bool, sent: seq<Sent>, fill: seq<bool>, bits: seq<bool>, n: nat)
    requires C.Streamed(k, headed, sent, true, fill, bits) && Data(sent) == [] && |fill| < 8 && |bits| == 8 * n
    ensures 1 <= k <= 9 && bits == BitsOf(StreamHeader(k)) + TrailerBits(0)
  {
    hide AllFaithful, BitsOf, Sendable, Data;
    NoBlocks(sent, 100000 * k);
    C.StartFacts(k);
    C.HeaderSize(k);
    C.TrailerSize(0);
    assert BlocksBits(sent) == [];
    assert bits == BitsOf(StreamHeader(k)) + [] + (TrailerBits(0) + fill);
    assert fill == [];
  }
}
