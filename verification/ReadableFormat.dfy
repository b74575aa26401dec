/** The blocks that the decompressor takes, whoever made them.

    There are more than the compressor sends: groups of byte values may be listed without any in use, code
    lengths may be reached by any steps, code words may be missing or left over.
 */
module ReadableFormat {
  import opened Bits
  import opened CanonicalCodes
  import opened CodeTables
  import opened ColumnDecoding
  import opened Decompressor
  import opened MoveToFront
  import opened StreamFormat
  import opened SymbolMaps
  import opened Words

  /** The code lengths of a table: the first one, and before each is settled the moves up and down. */
  datatype Path = Path(start: nat, moves: seq<seq<bool>>)

  /** All that is read of a block. */
  datatype Readable = Readable(crc: nat, randomised: bool, origPtr: nat, groups: seq<bool>, inUse: seq<bool>,
    ranks: seq<nat>, paths: seq<Path>, vs: seq<int>)

  // The mapping table.

  /** The flags of the groups listed, from the i-th on. */
  function ListedBits(groups: seq<bool>, inUse: seq<bool>, i: int): seq<bool>
    requires 0 <= i <= 16 && |groups| == 16 && |inUse| == 256
    decreases 16 - i
  {
    if i == 16 then []
    else (if groups[i] then inUse[16 * i..16 * i + 16] else []) + ListedBits(groups, inUse, i + 1)
  }

  /** Byte values of groups not listed are not in use. */
  ghost predicate Unlisted(groups: seq<bool>, inUse: seq<bool>)
    requires |groups| == 16 && |inUse| == 256
  {
    forall i, c :: 0 <= i < 16 && !groups[i] && 16 * i <= c < 16 * i + 16 ==> !inUse[c]
  }

  // Code lengths.

  function MoveBits(m: seq<bool>): seq<bool> {
    if m == [] then [false] else [true, !m[0]] + MoveBits(m[1..])
  }

  function MovesBits(ms: seq<seq<bool>>): seq<bool> {
    if ms == [] then [] else MoveBits(ms[0]) + MovesBits(ms[1..])
  }

  function PathsBits(paths: seq<Path>): seq<bool> {
    if paths == [] then [] else Word(paths[0].start, 5) + MovesBits(paths[0].moves) + PathsBits(paths[1..])
  }

  function Stepped(c: int, up: bool): int {
    if up then c + 1 else c - 1
  }

  /** No move leads out of 1 to 20. */
  ghost predicate Stays(c: int, m: seq<bool>)
    decreases |m|
  {
    1 <= c <= LONGEST && (m != [] ==> Stays(Stepped(c, m[0]), m[1..]))
  }

  /** Where moves lead to from a length. */
  ghost function Reached(c: int, m: seq<bool>): (r: int)
    ensures Stays(c, m) ==> 1 <= r <= LONGEST
    decreases |m|
  {
    if m == [] then c else Reached(Stepped(c, m[0]), m[1..])
  }

  ghost predicate AllStay(c: int, ms: seq<seq<bool>>)
    decreases |ms|
  {
    1 <= c <= LONGEST && (ms != [] ==> Stays(c, ms[0]) && AllStay(Reached(c, ms[0]), ms[1..]))
  }

  /** The lengths that are settled in turn. */
  ghost function Settled(c: int, ms: seq<seq<bool>>): (l: seq<nat>)
    requires AllStay(c, ms)
    ensures |l| == |ms| && forall i :: 0 <= i < |l| ==> 1 <= l[i] <= LONGEST
    decreases |ms|
  {
    if ms == [] then [] else [Reached(c, ms[0])] + Settled(Reached(c, ms[0]), ms[1..])
  }

  /** A path for a table of n symbols. */
  ghost predicate GoodPath(p: Path, n: int) {
    |p.moves| == n && AllStay(p.start, p.moves)
  }

  ghost predicate GoodPaths(paths: seq<Path>, n: int) {
    forall t :: 0 <= t < |paths| ==> GoodPath(paths[t], n)
  }

  /** The code lengths of the tables. */
  ghost function Lens(paths: seq<Path>, n: int): (len: seq<seq<nat>>)
    requires GoodPaths(paths, n)
    ensures |len| == |paths|
    ensures forall t :: 0 <= t < |len| ==> |len[t]| == n && GoodLengths(len[t])
  {
    seq(|paths|, t requires 0 <= t < |paths| => Settled(paths[t].start, paths[t].moves))
  }

  // Symbols.

  /** A symbol whose code is not beyond the codes of its length. */
  ghost predicate HasCode(l: seq<nat>, v: int) {
    0 <= v < |l| && Code(l, MinLen(l), v) < Pow2(l[v])
  }

  /** The table that the i-th symbol is read by, if a selector is left for it. */
  ghost predicate HasTable(selectors: seq<int>, len: seq<seq<nat>>, i: nat) {
    i / G_SIZE < |selectors| && 0 <= selectors[i / G_SIZE] < |len|
  }

  ghost predicate HasWord(selectors: seq<int>, len: seq<seq<nat>>, i: nat, v: int) {
    HasTable(selectors, len, i) && HasCode(len[selectors[i / G_SIZE]], v)
  }

  /** Every symbol has a code word. */
  ghost predicate Spellable(selectors: seq<int>, len: seq<seq<nat>>, i: nat, vs: seq<int>) {
    forall k :: 0 <= k < |vs| ==> HasWord(selectors, len, i + k, vs[k])
  }

  ghost function SymbolsBits(selectors: seq<int>, len: seq<seq<nat>>, i: nat, vs: seq<int>): seq<bool>
    decreases |vs|
  {
    if vs == [] || !HasTable(selectors, len, i) || !(0 <= vs[0] < |len[selectors[i / G_SIZE]]|) then []
    else
      var l := len[selectors[i / G_SIZE]];
      CodeWord(l, MinLen(l), vs[0]) + SymbolsBits(selectors, len, i + 1, vs[1..])
  }

  // The whole block.

  /** The fields are in range. */
  ghost predicate Shaped(x: Readable) {
    && x.crc < WORD && x.origPtr < 0x100_0000
    && |x.groups| == 16 && |x.inUse| == 256 && Unlisted(x.groups, x.inUse) && Chars(x.inUse) != []
    && 2 <= |x.paths| <= 6 && 1 <= |x.ranks| < 0x8000 && Below(x.ranks, |x.paths|)
    && GoodPaths(x.paths, |Chars(x.inUse)| + 2)
  }

  function SelectorsOf(x: Readable): seq<int>
    requires Below(x.ranks, |x.paths|)
  {
    Symbols(Identity(|x.paths|), x.ranks)
  }

  /** The decoder of symbols at the start. */
  function Unread(inUse: seq<bool>): Undoing {
    Undoing(Identity(|Chars(inUse)|), 0, 1, [])
  }

  /** The symbols, but for the end. */
  function Entries(vs: seq<int>): seq<int>
    requires vs != []
  {
    vs[..|vs| - 1]
  }

  /** A block that the decompressor takes: the symbols end where the end symbol is first, each has a
      code word in the table that its selector picks, and the column they stand for is no longer than
      the block size and has the row of the pointer. */
  ghost predicate Acceptable(x: Readable, capacity: int) {
    && Shaped(x) && x.vs != [] && x.vs[|x.vs| - 1] == |Chars(x.inUse)| + 1
    && Codes(Entries(x.vs), |Chars(x.inUse)|)
    && Spellable(SelectorsOf(x), Lens(x.paths, |Chars(x.inUse)| + 2), 0, x.vs)
    && Unread(x.inUse).y != [] && |Unread(x.inUse).y| == |Chars(x.inUse)|
    && var r := Undo(Unread(x.inUse), Entries(x.vs));
      x.origPtr < |r.out| + r.run <= capacity
  }

  ghost function ReadableBits(x: Readable): seq<bool>
    requires Shaped(x)
  {
    BitsOf(BLOCK_MAGIC) + (BitsOf(WordBytes(x.crc)) + ([x.randomised] + (Word(x.origPtr, 24)
    + (x.groups + (ListedBits(x.groups, x.inUse, 0) + (Word(|x.paths|, 3) + (Word(|x.ranks|, 15)
    + (SelectorBits(x.ranks) + (PathsBits(x.paths)
    + SymbolsBits(SelectorsOf(x), Lens(x.paths, |Chars(x.inUse)| + 2), 0, x.vs))))))))))
  }

  /** The numbers of the byte values of the column. */
  ghost function Numbers(x: Readable): seq<int>
    requires x.vs != [] && Unread(x.inUse).y != [] && Codes(Entries(x.vs), |Unread(x.inUse).y|)
  {
    Flush(Undo(Unread(x.inUse), Entries(x.vs))).out
  }
}
