/** Compressing one gathered block: sorting, move-to-front, and writing. */
module BlockCompressor {
  import opened Bits
  import opened BitWriters
  import opened BlockCrc
  import opened BlockSort
  import opened BlockWriter
  import CanonicalCodes
  import opened Decompressor
  import HeaderBits
  import MainCompare
  import MoveToFront
  import opened MtfEncoder
  import Rotations
  import opened RoundTrip
  import opened RunCoder
  import opened RunLength
  import opened StreamDecoding
  import opened StreamFormat
  import opened SymbolMaps
  import ColumnDecoding
  import Words

  /** How tables are chosen for the symbols of a block: for every 50 symbols one of the tables. */
  type Chooser = (seq<int>, nat) -> seq<nat>

  ghost predicate ChoosesWell(choose: Chooser) {
    forall vs, nGroups: nat :: nGroups >= 1 ==> Picked(choose(vs, nGroups), |vs|, nGroups)
  }

  /** There is such a choice: the first table for all symbols. */
  lemma SomeChoose()
    ensures exists choose: Chooser :: ChoosesWell(choose)
  {
    var choose: Chooser := (vs, nGroups) => seq((|vs| + 49) / 50, i => 0);
    assert ChoosesWell(choose);
  }

  /** The sorted order, as it lies in storage that is also seen as half words. */
  method AsHalves(ptr: array<int>, n: nat) returns (cells: array<int>)
    requires n <= ptr.Length && forall k :: 0 <= k < n ==> 0 <= ptr[k]
    ensures fresh(cells) && cells.Length == 2 * ptr.Length && Holds(cells[..], ptr[..], 0, n)
  {
    cells := new int[2 * ptr.Length](_ => 0);
    for k := 0 to n
      invariant forall j :: 0 <= j < k ==> cells[2 * j] + 65536 * cells[2 * j + 1] == ptr[j]
    {
      cells[2 * k] := ptr[k] % 65536;
      cells[2 * k + 1] := ptr[k] / 65536;
    }
  }

  /** The sorted order, its first row, and the last column in numbers. */
  ghost predicate Sorted(bytes: seq<int>, p: seq<int>, origPtr: int) {
    && |bytes| > 0 && Rotations.IsSorted(bytes, p) && 0 <= origPtr < |bytes| && p[origPtr] == 0
  }

  lemma SortedFacts(bytes: seq<int>, p: seq<int>, origPtr: int)
    requires Sorted(bytes, p, origPtr)
    ensures 0 < |bytes| <= |p| && 0 <= origPtr < |bytes| && forall k :: 0 <= k < |bytes| ==> 0 <= p[k] < |bytes|
  {
  }

  /** Sorts the block, which stays as it is. */
  method SortBlock(block: array<int>, nblock: nat, workFactor: int) returns (ptr: array<int>, origPtr: int)
    requires 0 < nblock <= 900000 && nblock + MainCompare.N_OVERSHOOT <= block.Length
    requires forall i :: 0 <= i < nblock ==> 0 <= block[i] < 256
    modifies block
    ensures fresh(ptr) && ptr.Length == nblock && block[..nblock] == old(block[..nblock])
    ensures Sorted(block[..nblock], ptr[..], origPtr)
  {
    ptr := new int[nblock];
    var eclass := new int[nblock];
    var quadrant := new int[nblock + MainCompare.N_OVERSHOOT];
    var ftab := new int[65537];
    var bhtab := new nat[65537](_ => 0);
    origPtr := BlockSort.BlockSort(ptr, block, eclass, quadrant, ftab, bhtab, nblock, workFactor);
  }

  /** All that is known of a block that has been sorted, numbered and coded. */
  lemma BlockFaithful(x: Sent, capacity: int, bytes: seq<int>, toSeq: seq<int>)
    requires Sendable(x.b) && Runs(x.ps) && bytes == Squeezed(x.ps) && |bytes| <= capacity < N_LIMIT
    requires x.b.crc == AsWord(CheckValue(Plain(x.ps))) && Sorted(bytes, x.p, x.b.origPtr)
    requires forall i :: 0 <= i < |bytes| ==> 0 <= bytes[i] < 256 && x.b.inUse[bytes[i]]
    requires |toSeq| == 256 && forall c :: 0 <= c < 256 && x.b.inUse[c] ==> toSeq[c] == Number(x.b.inUse, c)
    requires |bytes| <= |x.p| && forall k :: 0 <= k < |bytes| ==> 0 <= x.p[k] < |bytes|
    requires var s := Numbers(Rotations.LastColumn(bytes, x.p), toSeq);
      && MoveToFront.Listed(s, MoveToFront.Identity(|Chars(x.b.inUse)|))
      && x.b.vs == MoveToFront.Coded(MoveToFront.Ranks(MoveToFront.Identity(|Chars(x.b.inUse)|), s), |Chars(x.b.inUse)|)
    ensures Faithful(x, capacity)
  {
    hide Chars, MoveToFront.Coded, MoveToFront.Listed, MoveToFront.Ranks, Number, Plain, Rotations.IsSorted, Runs,
      Squeezed;
    assert |x.b.inUse| == 256;
    assert Numbers(Rotations.LastColumn(bytes, x.p), toSeq) == ColumnNumbers(bytes, x.p, x.b.inUse);
  }

  /** Every byte of the block has a number below the number of bytes in use. */
  lemma NumbersBelow(bytes: seq<int>, p: seq<int>, inUse: seq<bool>, toSeq: seq<int>)
    requires |inUse| == |toSeq| == 256 && 0 < |bytes| <= |p| && forall k :: 0 <= k < |bytes| ==> 0 <= p[k] < |bytes|
    requires forall i :: 0 <= i < |bytes| ==> 0 <= bytes[i] < 256 && inUse[bytes[i]]
    requires forall c :: 0 <= c < 256 && inUse[c] ==> toSeq[c] == Number(inUse, c)
    ensures |Chars(inUse)| >= 1
    ensures forall i :: 0 <= i < |bytes| ==> 0 <= Numbers(Rotations.LastColumn(bytes, p), toSeq)[i] < |Chars(inUse)|
  {
    hide Chars;
    var l := Rotations.LastColumn(bytes, p);
    forall i | 0 <= i < |bytes| ensures 0 <= Numbers(l, toSeq)[i] < |Chars(inUse)| { CharNumbered(inUse, l[i]); }
    assert Numbers(l, toSeq)[0] < |Chars(inUse)|;
  }

  /** The symbols written are symbols of the alphabet. */
  lemma CodedBelow(ks: seq<nat>, m: nat)
    requires m >= 1 && MoveToFront.Below(ks, m)
    ensures forall i :: 0 <= i < |MoveToFront.Coded(ks, m)| ==> 0 <= MoveToFront.Coded(ks, m)[i] < m + 2
  {
    MoveToFront.UndoEmitted(MoveToFront.Identity(m), ks);
    MoveToFront.DigitsCodes(MoveToFront.Pending(ks));
  }

  /** What coding the column leaves in the cells. */
  ghost predicate CodedColumn(bytes: seq<int>, p: seq<int>, inUse: seq<bool>, toSeq: seq<int>, vs: seq<int>) {
    && |inUse| == |toSeq| == 256 && 0 < |bytes| <= |p| && (forall k :: 0 <= k < |bytes| ==> 0 <= p[k] < |bytes|)
    && (forall i :: 0 <= i < |bytes| ==> 0 <= bytes[i] < 256 && inUse[bytes[i]])
    && (forall c :: 0 <= c < 256 && inUse[c] ==> toSeq[c] == Number(inUse, c))
    && |Chars(inUse)| >= 1 && 1 <= |vs| <= |bytes| + 1
    && (forall i :: 0 <= i < |vs| ==> 0 <= vs[i] < |Chars(inUse)| + 2)
    && var s := Numbers(Rotations.LastColumn(bytes, p), toSeq);
      && MoveToFront.Listed(s, MoveToFront.Identity(|Chars(inUse)|))
      && vs == MoveToFront.Coded(MoveToFront.Ranks(MoveToFront.Identity(|Chars(inUse)|), s), |Chars(inUse)|)
  }

  lemma ColumnRange(bytes: seq<int>, p: seq<int>)
    requires 0 < |bytes| <= |p| && (forall k :: 0 <= k < |bytes| ==> 0 <= p[k] < |bytes|)
    requires forall i :: 0 <= i < |bytes| ==> 0 <= bytes[i] < 256
    ensures |Rotations.LastColumn(bytes, p)| == |bytes|
    ensures forall i :: 0 <= i < |bytes| ==> 0 <= Rotations.LastColumn(bytes, p)[i] < 256
  {
  }

  lemma ColumnCoded(bytes: seq<int>, p: seq<int>, inUse: seq<bool>, toSeq: seq<int>, vs: seq<int>)
    requires |inUse| == |toSeq| == 256 && 0 < |bytes| <= |p| && (forall k :: 0 <= k < |bytes| ==> 0 <= p[k] < |bytes|)
    requires forall i :: 0 <= i < |bytes| ==> 0 <= bytes[i] < 256 && inUse[bytes[i]]
    requires forall c :: 0 <= c < 256 && inUse[c] ==> toSeq[c] == Number(inUse, c)
    requires |Chars(inUse)| >= 1 && 1 <= |vs| <= |bytes| + 1
    requires var s := Numbers(Rotations.LastColumn(bytes, p), toSeq);
      && MoveToFront.Listed(s, MoveToFront.Identity(|Chars(inUse)|))
      && vs == MoveToFront.Coded(MoveToFront.Ranks(MoveToFront.Identity(|Chars(inUse)|), s), |Chars(inUse)|)
    ensures CodedColumn(bytes, p, inUse, toSeq, vs)
  {
    hide Chars, MoveToFront.Coded, Number, Rotations.LastColumn;
    ColumnRange(bytes, p);
    CodedBelow(MoveToFront.Ranks(MoveToFront.Identity(|Chars(inUse)|), Numbers(Rotations.LastColumn(bytes, p), toSeq)),
      |Chars(inUse)|);
  }

  /** Numbers the bytes in use and codes the last column, over the sorted order. */
  method CodeColumn(ptr: array<int>, block: array<int>, nblock: nat, inUse: array<bool>, ghost bytes: seq<int>)
    returns (cells: array<int>, nMTF: int, nInUse: int, ghost toSeq: seq<int>)
    requires inUse.Length == 256 && 0 < nblock <= block.Length && ptr.Length == nblock && bytes == block[..nblock]
    requires forall k :: 0 <= k < nblock ==> 0 <= ptr[k] < nblock
    requires forall i :: 0 <= i < nblock ==> 0 <= bytes[i] < 256 && inUse[bytes[i]]
    ensures nInUse == |Chars(inUse[..])| && 1 <= nMTF <= cells.Length
    ensures CodedColumn(bytes, ptr[..], inUse[..], toSeq, cells[..nMTF])
  {
    hide Chars, CodedColumn, Holds, MoveToFront.Coded, MoveToFront.Listed, MoveToFront.Ranks, Number, Numbers,
      Rotations.LastColumn;
    var unseqToSeq := new int[256];
    nInUse := MakeMapsE(inUse, unseqToSeq);
    toSeq := unseqToSeq[..];
    cells := AsHalves(ptr, nblock);
    var yy := new int[256];
    ghost var p := ptr[..];
    NumbersBelow(bytes, p, inUse[..], toSeq);
    CharsAtMost(inUse[..]);
    ColumnRange(bytes, p);
    ghost var s := Numbers(Rotations.LastColumn(bytes, p), toSeq);
    NumbersSize(Rotations.LastColumn(bytes, p), toSeq);
    nMTF := GenerateMTFValues(cells, block, nblock, unseqToSeq, yy, nInUse, p, s);
    ColumnCoded(bytes, ptr[..], inUse[..], toSeq, cells[..nMTF]);
  }

  lemma NumbersSize(l: seq<int>, toSeq: seq<int>)
    requires forall i :: 0 <= i < |l| ==> 0 <= l[i] < |toSeq|
    ensures |Numbers(l, toSeq)| == |l|
  {
  }

  lemma PointerFits(n: int, origPtr: int)
    requires 0 <= origPtr < n <= 900000
    ensures 0 <= origPtr < 0x100_0000 && origPtr < Words.Pow2(24)
  {
    Pow2Values();
  }

  lemma BytesAreSmall(u: nat)
    ensures forall i :: 0 <= i < |WordBytes(u)| ==> WordBytes(u)[i] < 256
    ensures forall i :: 0 <= i < |BLOCK_MAGIC| ==> BLOCK_MAGIC[i] < 256
    ensures forall i :: 0 <= i < |END_MAGIC| ==> END_MAGIC[i] < 256
  {
  }

  lemma BlockBitsBody(b: Block, w0: seq<bool>)
    requires Sendable(b) && forall t :: 0 <= t < |b.len| ==> b.len[t] != []
    ensures w0 + BitsOf(BLOCK_MAGIC) + BitsOf(WordBytes(b.crc)) + [false] + CanonicalCodes.Word(b.origPtr, 24) + Body(b)
         == w0 + BlockBits(b)
  {
    hide BitsOf, BlockBits, CanonicalCodes.Word, DataBits, MapBody, MapHead, SelectorBits, SelectorRanks, Sendable,
      TablesBits, WordBytes;
    ColumnDecoding.BlockBitsAre(b);
    var f := BitsOf(BLOCK_MAGIC) + BitsOf(WordBytes(b.crc)) + [false] + CanonicalCodes.Word(b.origPtr, 24);
    var m1, m2, m3, m4 := MapHead(b.inUse), MapBody(b.inUse, 0), CanonicalCodes.Word(|b.len|, 3),
      CanonicalCodes.Word(|b.selectors|, 15);
    var m5, d1, d2 := SelectorBits(SelectorRanks(b)), TablesBits(b.len), DataBits(b, 0);
    RegroupBody(f, m1, m2, m3, m4, m5, d1, d2);
    RegroupFront(w0, BitsOf(BLOCK_MAGIC), BitsOf(WordBytes(b.crc)), CanonicalCodes.Word(b.origPtr, 24), Body(b));
  }

  lemma RegroupBody(f: seq<bool>, a: seq<bool>, b: seq<bool>, c: seq<bool>, d: seq<bool>, e: seq<bool>, g: seq<bool>,
                    h: seq<bool>)
    ensures f + a + b + c + d + e + g + h == f + (a + b + c + d + e + g + h)
  {
    ColumnDecoding.Regroup2(f, a, b);
    ColumnDecoding.Regroup2(f, a + b, c);
    ColumnDecoding.Regroup2(f, a + b + c, d);
    ColumnDecoding.Regroup2(f, a + b + c + d, e);
    ColumnDecoding.Regroup2(f, a + b + c + d + e, g);
    ColumnDecoding.Regroup2(f, a + b + c + d + e + g, h);
  }

  lemma RegroupFront(w0: seq<bool>, a: seq<bool>, b: seq<bool>, c: seq<bool>, d: seq<bool>)
    ensures w0 + a + b + [false] + c + d == w0 + (a + b + [false] + c + d)
  {
    ColumnDecoding.Regroup2(w0, a, b);
    ColumnDecoding.Regroup2(w0, a + b, [false]);
    ColumnDecoding.Regroup2(w0, a + b + [false], c);
    ColumnDecoding.Regroup2(w0, a + b + [false] + c, d);
  }

  lemma FilledBytes(block: seq<int>, n: int, inUse: seq<bool>, crc: bv32, ps: seq<Pair>, ch: int, len: int)
    requires Filled(block, n, inUse, crc, ps) && Gathered(ps, ch, len)
    ensures 0 <= n <= |block| && |inUse| == 256 && block[..n] == Squeezed(ps) && Runs(ps) && crc == Register(Plain(ps))
    ensures forall i :: 0 <= i < n ==> 0 <= block[i] < 256 && inUse[block[i]]
    ensures !crc == CheckValue(Plain(ps))
  {
    hide Runs, Squeezed, Plain, Register;
    if ch < NO_CHAR {
      HeldPair(ps, ch, len);
      RunsLess(ps, Pair(ch, len));
    } else {
      assert ps + Held(ch, len) == ps;
    }
    SqueezedRange(ps);
    forall i | 0 <= i < n ensures 0 <= block[i] < 256 && inUse[block[i]] { assert block[i] == block[..n][i]; }
  }

  lemma FilledSame(block: seq<int>, block': seq<int>, n: int, inUse: seq<bool>, crc: bv32, ps: seq<Pair>)
    requires Filled(block, n, inUse, crc, ps) && |block'| == |block| && block'[..n] == block[..n]
    ensures Filled(block', n, inUse, crc, ps)
  {
    hide Squeezed, Plain, Register;
  }

  lemma ColumnFacts(bytes: seq<int>, p: seq<int>, inUse: seq<bool>, toSeq: seq<int>, vs: seq<int>)
    requires CodedColumn(bytes, p, inUse, toSeq, vs)
    ensures |inUse| == 256 && |Chars(inUse)| >= 1 && 1 <= |vs| <= |bytes| + 1
    ensures forall i :: 0 <= i < |vs| ==> 0 <= vs[i] < |Chars(inUse)| + 2
  {
  }

  lemma ChoiceOf(choose: Chooser, vs: seq<int>, nGroups: nat)
    requires ChoosesWell(choose) && nGroups >= 1
    ensures Picked(choose(vs, nGroups), |vs|, nGroups)
  {
  }

  lemma SentFaithful(b: Block, ps: seq<Pair>, p: seq<int>, bytes: seq<int>, toSeq: seq<int>)
    requires Sendable(b) && Runs(ps) && bytes == Squeezed(ps) && 1 <= |bytes| <= 900000
    requires b.crc == AsWord(CheckValue(Plain(ps))) && Sorted(bytes, p, b.origPtr)
    requires CodedColumn(bytes, p, b.inUse, toSeq, b.vs)
    ensures Faithful(Sent(b, ps, p), |bytes|)
  {
    hide Chars, MoveToFront.Coded, Number, Rotations.LastColumn, Plain, Squeezed, Runs, Sorted, Sendable;
    BlockFaithful(Sent(b, ps, p), |bytes|, bytes, toSeq);
  }

  /** Writes what comes before the mapping table. */
  method PutStart(w: BitWriter, crc: nat, origPtr: nat)
    requires w.Valid() && w.bsLive >= 0 && crc < WORD && origPtr < 900000
    modifies w
    ensures w.Valid() && w.bsLive >= 0
    ensures w.Written() ==
      old(w.Written()) + BitsOf(BLOCK_MAGIC) + BitsOf(WordBytes(crc)) + [false] + CanonicalCodes.Word(origPtr, 24)
  {
    hide *;
    PointerFits(origPtr + 1, origPtr);
    BytesAreSmall(crc);
    PutBytes(w, BLOCK_MAGIC);
    PutBytes(w, WordBytes(crc));
    PutBit(w, false);
    w.W(24, origPtr);
  }

  /** Compresses the gathered block. */
  method EncodeBlock(coder: RunCoder, w: BitWriter, workFactor: int, choose: Chooser) returns (ghost x: Sent)
    requires coder.Valid() && 1 <= coder.nblock <= 900000
    requires coder.nblock + MainCompare.N_OVERSHOOT <= coder.block.Length
    requires w.Valid() && w.bsLive >= 0 && ChoosesWell(choose)
    modifies coder.block, w
    ensures coder.Valid() && w.Valid() && w.bsLive >= 0
    ensures x.ps == coder.pairs && Faithful(x, coder.nblock) && w.Written() == old(w.Written()) + BlockBits(x.b)
    ensures x.b.inUse == coder.inUse[..] && |x.b.len| == GroupsFor(|x.b.vs|) && TablesOptimal(x.b)
  {
    hide AsWord, BitsOf, BlockBits, Body, Buffered, CanonicalCodes.Word, Chars, CheckValue, ChoosesWell, CodedColumn,
      Faithful, Filled, Gathered, GroupsFor, Picked, Plain, Register, Runs, Sendable, Sorted, Squeezed, TablesOptimal,
      WordBytes, w.Written;
    ghost var w0 := w.Written();
    FilledBytes(coder.block[..], coder.nblock, coder.inUse[..], coder.blockCRC, coder.pairs, coder.stateInCh,
      coder.stateInLen);
    ghost var bytes := coder.block[..coder.nblock];
    var ptr, origPtr := SortBlock(coder.block, coder.nblock, workFactor);
    ghost var p := ptr[..];
    FilledSame(old(coder.block[..]), coder.block[..], coder.nblock, coder.inUse[..], coder.blockCRC, coder.pairs);
    SortedFacts(bytes, p, origPtr);
    var crc := AsWord(!coder.blockCRC);
    AsWordFits(!coder.blockCRC);
    PutStart(w, crc, origPtr);
    var cells, nMTF, nInUse, toSeq := CodeColumn(ptr, coder.block, coder.nblock, coder.inUse, bytes);
    var vs := cells[..nMTF];
    ColumnFacts(bytes, p, coder.inUse[..], toSeq, vs);
    GroupsPositive(nMTF);
    ChoiceOf(choose, vs, GroupsFor(nMTF));
    var selector := choose(vs, GroupsFor(nMTF));
    ghost var b := SendMTFValues(w, cells, nMTF, coder.inUse, nInUse, selector, crc, origPtr);
    x := Sent(b, coder.pairs, p);
    SentFaithful(b, coder.pairs, p, bytes, toSeq);
    BlockBitsBody(b, w0);
  }
}
