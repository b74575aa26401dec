/** The bits of a compressed block and stream. */
module StreamFormat {
  import opened Bits
  import opened CanonicalCodes
  import opened CodeTables
  import opened Decompressor
  import opened MoveToFront
  import opened PrefixCost
  import opened SymbolMaps
  import opened Words

  /** All that a block carries. */
  datatype Block = Block(crc: nat, origPtr: nat, inUse: seq<bool>, selectors: seq<nat>, len: seq<seq<nat>>,
    vs: seq<int>)

  function AlphaSize(b: Block): int {
    |Chars(b.inUse)| + 2
  }

  /** What the compressor may choose: any tables whose lengths make a code, any selectors, one
      for every 50 symbols. */
  ghost predicate Sendable(b: Block) {
    && b.crc < WORD && b.origPtr < 0x100_0000 && |b.inUse| == 256 && |Chars(b.inUse)| >= 1
    && 2 <= |b.len| <= 6 && 1 <= |b.selectors| < 0x8000 && |b.selectors| == (|b.vs| + G_SIZE - 1) / G_SIZE
    && (forall i :: 0 <= i < |b.selectors| ==> b.selectors[i] < |b.len|)
    && (forall t :: 0 <= t < |b.len| ==>
      |b.len[t]| == AlphaSize(b) && GoodLengths(b.len[t]) && KraftSum(b.len[t]) <= 1.0)
    && |b.vs| >= 1 && forall i :: 0 <= i < |b.vs| ==> 0 <= b.vs[i] < AlphaSize(b)
  }

  /** The four bytes of a word, most significant first. */
  function WordBytes(u: nat): seq<nat> {
    [u / 256 / 256 / 256 % 256, u / 256 / 256 % 256, u / 256 % 256, u % 256]
  }

  const BLOCK_MAGIC: seq<nat> := [0x31, 0x41, 0x59, 0x26, 0x53, 0x59]
  const END_MAGIC: seq<nat> := [0x17, 0x72, 0x45, 0x38, 0x50, 0x90]

  // The mapping table.

  function GroupUsed(inUse: seq<bool>, i: int): bool
    requires 0 <= i < 16 && |inUse| == 256
  {
    true in inUse[16 * i..16 * i + 16]
  }

  function MapHead(inUse: seq<bool>): (w: seq<bool>)
    requires |inUse| == 256
    ensures |w| == 16
  {
    seq(16, i requires 0 <= i < 16 => GroupUsed(inUse, i))
  }

  function MapBody(inUse: seq<bool>, i: int): seq<bool>
    requires 0 <= i <= 16 && |inUse| == 256
    decreases 16 - i
  {
    if i == 16 then []
    else (if GroupUsed(inUse, i) then inUse[16 * i..16 * i + 16] else []) + MapBody(inUse, i + 1)
  }

  // Selectors.

  function Unary(j: nat): seq<bool> {
    if j == 0 then [false] else [true] + Unary(j - 1)
  }

  function SelectorBits(js: seq<nat>): seq<bool> {
    if js == [] then [] else Unary(js[0]) + SelectorBits(js[1..])
  }

  // Code lengths.

  /** From one length to the next: 10 for one more, 11 for one less, 0 at the end. */
  function Steps(curr: nat, l: nat): seq<bool>
    decreases if curr < l then l - curr else curr - l
  {
    if curr < l then [true, false] + Steps(curr + 1, l)
    else if curr > l then [true, true] + Steps(curr - 1, l)
    else [false]
  }

  function LengthBits(curr: nat, l: seq<nat>): seq<bool>
    decreases |l|
  {
    if l == [] then [] else Steps(curr, l[0]) + LengthBits(l[0], l[1..])
  }

  function TableBits(l: seq<nat>): seq<bool>
    requires l != []
  {
    Word(l[0], 5) + LengthBits(l[0], l)
  }

  function TablesBits(len: seq<seq<nat>>): seq<bool>
    requires forall t :: 0 <= t < |len| ==> len[t] != []
  {
    if len == [] then [] else TableBits(len[0]) + TablesBits(len[1..])
  }

  // Symbols.

  function SymbolBits(b: Block, i: int): seq<bool>
    requires Sendable(b) && 0 <= i < |b.vs|
  {
    CodeWord(b.len[b.selectors[i / G_SIZE]], MinLen(b.len[b.selectors[i / G_SIZE]]), b.vs[i])
  }

  /** The symbols from the i-th on. */
  function DataBits(b: Block, i: int): seq<bool>
    requires Sendable(b) && 0 <= i <= |b.vs|
    decreases |b.vs| - i
  {
    if i == |b.vs| then [] else SymbolBits(b, i) + DataBits(b, i + 1)
  }

  /** The whole block. */
  function BlockBits(b: Block): seq<bool>
    requires Sendable(b)
  {
    BitsOf(BLOCK_MAGIC) + BitsOf(WordBytes(b.crc)) + [false] + Word(b.origPtr, 24)
    + MapHead(b.inUse) + MapBody(b.inUse, 0)
    + Word(|b.len|, 3) + Word(|b.selectors|, 15) + SelectorBits(SelectorRanks(b))
    + TablesBits(b.len) + DataBits(b, 0)
  }

  function SelectorRanks(b: Block): seq<nat>
    requires Sendable(b)
  {
    SelectorsListed(b);
    Ranks(Identity(|b.len|), b.selectors)
  }

  lemma SelectorsListed(b: Block)
    requires Sendable(b)
    ensures Listed(b.selectors, Identity(|b.len|))
  {
    forall i | 0 <= i < |b.selectors| ensures b.selectors[i] in Identity(|b.len|) {
      assert Identity(|b.len|)[b.selectors[i]] == b.selectors[i];
    }
  }

  function StreamHeader(blockSize100k: int): seq<nat>
    requires 1 <= blockSize100k <= 9
  {
    [HDR_B, HDR_Z, HDR_H, HDR_0 + blockSize100k]
  }

  function TrailerBits(combinedCRC: nat): seq<bool> {
    BitsOf(END_MAGIC) + BitsOf(WordBytes(combinedCRC))
  }
}
