# A verified model of the bzip2 block codec and the zlib check values

The model covers two parts of the repository.

**The block codec** (`dep/bzip2`). A block of bytes is run-length coded, its cyclic rotations are sorted, the last
column of the sorted rotations is move-to-front coded with binary zero runs, and the symbols are sent with canonical
Huffman codes. Each stage is given by a small mathematical definition (sorted rotations, Kraft sum, list
move-to-front, links of a column), and the program's loops over arrays are proved to compute it. The stages are then
joined:

- whatever `BzCompress` has given out when it answers `StreamEnd` decompresses to exactly what it took in, with both
  check values found right, for every sequence of calls, buffer sizes, flushes and choice of code tables
  (`Compressor.Compressor.StoppedDecompresses`, `RoundTrip.StreamRoundTrip`);
- `BzDecompress`, called any number of times with input and room in pieces of any size, gives out exactly what the
  whole input stands for (`StreamDecompressor.StreamDecompressor.BzDecompress`);
- bits decompress without damage if and only if they are a stream header, blocks of an explicit format and the
  trailer, with every check value right (`StreamReading.StreamExactly`, `BlockReading.BlockExactly`): the decoder takes
  nothing else, and more than the compressor sends;
- suspending `BZ2_decompress` at any label, keeping only the variables that are saved and letting the others hold
  anything, changes nothing (`ResumableDecoder.DState.Decompress`, `ResumableDecoder.InTwoParts`).

Two definitions carry the rest. `Decompressor.Advance` says, for a label and the bits read there, what the decoder does
next; `Decompressor.Drive` runs it on bits, `Coroutine.Run` on bytes. `StreamDecoding.Decompressed` says what a stream
of bits stands for: data and a verdict (`Finished`, `Unfinished`, `Damaged`, `Unsupported`). The decoders on arrays are
proved against these for every input, damaged ones included. The bits of a well-formed stream are defined apart from
that, in `StreamFormat` those that the compressor is proved to send, in `ReadableFormat` all that the decoder is proved
to take.

Every array access of the model is inside its array. The arrays have the sizes of the source, but for tt, which has
room for the largest block while the column is proved to stay within the size of the block (`ColumnBounds.RunKeeps`),
and but for two more: `selectorMtf` and `selector` have a cell for every count that 15 bits can hold, 32768, where the
source has 18002 (`BZ_MAX_SELECTORS`) and does not compare the count with that. `SelectorCells` says which cells a run
stores into and exactly when these are inside the 18002: when the count is at most 18002, or the ranks end or are
damaged before that many are complete (`SelectorCells.InsideExactly`); for runs that get past the selectors, when the
count is at most 18002 (`SelectorCells.InsideBeyond`); `SelectorCells.OneTooMany` is an input where they are not. They
always are for what the compressor sends (`SentCells.StreamInside`). The array decoder changes no other cells of the
two arrays, so what is proved of it holds of the source for those runs and is not a claim about the others.

Rotations of a periodic block can tie, and the two sorts may order ties differently. What is proved of both is that
the order is non-decreasing. The last column does not depend on the order of ties (`Rotations.SameColumn`); the row of
the block, origPtr, does not if and only if no other rotation equals the block (`Rotations.SamePointer`). So the
comment at `dep/bzip2/blocksort.c:1059-1061`, that the stream is the same whichever sort is used, is certain only for
such blocks; what is decoded is the same for all. For the same reason either answer of `GtU` is right for rotations
that are equal all the way round: where quadrants decide, the source itself answers either way.

**The check values** (`dep/zlib/crc32.c`, `dep/zlib/adler32.c`). The CRC-32 of section 8 of RFC 1952 is defined bit by
bit, Adler-32 of section 8.2 of RFC 1950 byte by byte with a remainder after each addition. The table, word-at-a-time and
combining forms are proved equal to these.

## Modules

- Words and bits: `Words`, `Bits`, `BitWriters`, `Sequences`, `Sums`, `Counting`.
- Sorting: `HeaderBits`, `Partitioning`, `RangeStack`, `FallbackQSort`, `FallbackSort`, `MainCompare`, `MainQSort`,
  `MainRadix`, `MainScan`, `MainSort`, `BlockSort`; their meaning in `Rotations`.
- Coding: `MoveToFront`, `MtfEncoder`, `SlicedList`, `SymbolMaps`, `Heap`, `HuffmanForest`, `PrefixCost`, `Huffman`,
  `CodeLengths`, `CanonicalCodes`, `CodeTables`, `RunLength`, `RunCoder`, `BlockCrc`, `CheckValues`, `Counters`.
- Compressing: `StreamFormat`, `BlockLength`, `BlockWriter`, `BlockCompressor`, `Compressor`, `StreamLength`.
- What the decompressor makes of any bits: `ReadableFormat`, `HeaderReading`, `TableReading`, `SymbolReading`,
  `ColumnReading`, `BlockReading`, `StreamReading`.
- Decompressing: `Decompressor` (one step), `Coroutine`, `SelectorCells`, `ColumnBounds`, `DecoderStore`,
  `DecoderSteps`, `ResumableDecoder` (the arrays), `InverseBwt`, `Expanders`, `OutputTables`, `StreamDecompressor`.
- Meaning of a stream: `SymbolDecoding`, `BlockDecoding`, `ColumnDecoding`, `StreamDecoding`, `RoundTrip`,
  `SentCells`; `Buffers`.
- Check values: `Crc32`, `Crc32Words`, `Crc32Fast`, `Crc32Combine`, `Adler32`.

In the signatures, `ghost` parameters name the contents of arrays (`b` the block, `p` an order of its rotations, `l` a
last column); they exist for the proofs only.

## Model

| member | source | states |
|---|---|---|
| HeaderBits.SetBH | dep/bzip2/blocksort.c:205-208 | after setting bit zz of the table of 32-bit words, exactly that bit is new; every other bit of the table, in the same word and elsewhere, is as it was |
| HeaderBits.ClearBH | dep/bzip2/blocksort.c:206-208 | after clearing bit zz, exactly that bit is gone |
| HeaderBits.NextClear | dep/bzip2/blocksort.c:278-283 | the search for the next clear bit, 32 bits at a time in the middle, passes over none |
| HeaderBits.NextSet | dep/bzip2/blocksort.c:286-290 | the search for the next set bit passes over none |
| Partitioning.ThreeWay | dep/bzip2/blocksort.c:132-170 | partitioning around a key and swapping the equal ends into the middle permutes the range into smaller, equal and greater keys with an equal one among them, or finds all keys equal |
| FallbackQSort.QSort3 | dep/bzip2/blocksort.c:92-180 | sorts the range by class and permutes only it; the stack of ranges stays below its limit for up to 900000 cells |
| RangeStack.PushTwo | dep/bzip2/blocksort.c:109-178 | pushing two disjoint parts of a range of more than ten cells, the larger first, keeps the i-th range on the stack within n halved i times; so with up to 900000 cells fewer than 17 ranges lie below a range that is split, and the assertion on the stack holds |
| FallbackSort.Doubled | dep/bzip2/blocksort.c:266-271 | order by 2h characters is order by h characters, then by the classes of the rotations h further on |
| FallbackSort.PassBucket | dep/bzip2/blocksort.c:295-305 | sorting one bucket by those classes and marking the changes keeps the invariant of a pass: cells so far are in order of 2h characters, and header bits mark exactly the new classes |
| FallbackSort.Reconstruct | dep/bzip2/blocksort.c:315-328 | the bytes overwritten by the classes are rebuilt from the order and the counts |
| FallbackSort.FallbackSort | dep/bzip2/blocksort.c:211-329 | for every block of 1 to 900000 bytes, periodic or not, ends with a permutation of 0..n-1 in non-decreasing order of the rotations, and the block as it was |
| MainCompare.GtU | dep/bzip2/blocksort.c:345-469 | the answer agrees with the order of the whole rotations whenever they differ, using quadrants only where they tell that order; no cell beyond the 34 after the block is read |
| MainQSort.SimpleSort | dep/bzip2/blocksort.c:484-555 | Shell sort: permutes the range; with budget left, the range is in order of the rotations |
| MainQSort.QSort3 | dep/bzip2/blocksort.c:620-717 | three-way string quicksort of a range agreeing on d characters: permutes it; with budget left, it is in order of the rotations |
| MainQSort.PushThree | dep/bzip2/blocksort.c:644-715 | pushing three parts, in order of size, keeps the ranges within bounds that shrink by a third every two places; so fewer than 20 ranges lie below one that is split, and the assertion on the stack holds |
| MainRadix.PlaceKeys | dep/bzip2/blocksort.c:803-830 | counting two-byte keys and placing the rotations from the back puts every rotation into the small bucket of its first two bytes, and the table holds where the buckets start |
| MainRadix.RunningOrder | dep/bzip2/blocksort.c:837-860 | the Shell sort of the 256 big buckets loses and repeats none, and puts them in order of their sizes |
| MainScan.LeftStep | dep/bzip2/blocksort.c:923-928 | a step of the scan from the left writes the predecessor of the rotation it is at, within the bounds of its bucket, and keeps that every written cell holds the predecessor of the cell it came from, in order |
| MainScan.RightStep | dep/bzip2/blocksort.c:929-934 | the same of the scan from the right, which fills the buckets from their ends |
| MainScan.ScansMeet | dep/bzip2/blocksort.c:937-944 | the assertion after the scans holds: the two ends of bucket [ss, ss] meet, except when the whole block is the byte ss |
| MainSort.ScanBig | dep/bzip2/blocksort.c:918-946 | after both scans the small buckets of all other bytes followed by ss, none of them compared, are in order of the rotations |
| MainSort.QuadrantsUpdated | dep/bzip2/blocksort.c:964-1003 | giving the cells of a finished big bucket their shifted positions keeps that unequal quadrants of equal bytes tell the order of the rotations, for the copies after the block too |
| MainSort.MainSort | dep/bzip2/blocksort.c:750-1011 | with a budget that is not used up, ends with a permutation of 0..n-1 in non-decreasing order of the cyclic rotations; the block is as it was |
| BlockSort.BlockSort | dep/bzip2/blocksort.c:1031-1089 | whichever sort ends up being used, the order is sorted and origPtr is the place of the block itself |
| Rotations.SameColumn | dep/bzip2/blocksort.c:1056-1061 | any two sorted orders of the rotations give the same last column |
| Rotations.SamePointer | dep/bzip2/blocksort.c:1059-1061 | all sorted orders have the block in the same row if and only if no other rotation equals the block |
| Rotations.TiedPointer | dep/bzip2/blocksort.c:1059-1061 | for a block of two equal bytes, two sorted orders with the block in different rows |
| SymbolMaps.MakeMapsE | dep/bzip2/compress.c:105-115 | bytes in use are numbered in ascending order |
| SymbolMaps.MakeMapsD | dep/bzip2/decompress.c:26-36 | the decoder's map lists the bytes in use in ascending order, the inverse of the numbering |
| MtfEncoder.MoveFront | dep/bzip2/compress.c:189-207 | the shifting loop finds the rank of the byte in the list and moves it to the front, whatever lies beyond the list |
| MtfEncoder.WriteRun | dep/bzip2/compress.c:174-188 | a zero run is written as its bijective base-2 digits over cells of the order that have been read already; no entry still to be read is lost |
| MtfEncoder.GenerateMTFValues | dep/bzip2/compress.c:119-231 | written as half-words over the sorted order itself, the output is the coded ranks of the last column under list move-to-front, ended by EOB |
| MoveToFront.SymbolsOfRanks | dep/bzip2/compress.c:124-149 | looking ranks up in the moving list inverts taking them |
| MoveToFront.RunOfDigits | dep/bzip2/decompress.c:381-398 | reading a run's digits with doubling weights gives the length of the run |
| MoveToFront.UndoCoded | dep/bzip2/decompress.c:375-485 | decoding coded ranks, runs included, gives the symbols, for every list and all ranks in it |
| SlicedList.Init | dep/bzip2/decompress.c:358-369 | the sixteen slices spell 0..255 |
| SlicedList.Access | dep/bzip2/decompress.c:423-475 | an access returns the entry of the list the sixteen slices spell, and they spell the list with it moved to the front; slices stay apart, bases stay positive, and the rebuild when the first base reaches zero changes nothing |
| Heap.UpHeap | dep/bzip2/huffman.c:33-42 | the last entry rises to its place: a heap of one more entry |
| Heap.DownHeap | dep/bzip2/huffman.c:44-59 | the first entry sinks to its place: a heap again, with the same entries |
| Huffman.JoinLeast | dep/bzip2/huffman.c:100-110 | taking the two least roots and adding their parent keeps the heap, the weights with the depth in their low byte, the parent links and the bound on all codes |
| PrefixCost.MergeBound | dep/bzip2/huffman.c:100-105 | no code for the old weights costs less than one for the merged weights plus the two merged: the exchange argument for the greedy choice |
| HuffmanForest.MergeHeavy | dep/bzip2/huffman.c:100-110 | joining the two lightest trees keeps that every tree weighs at least the Fibonacci number of its height, and every other one beside a tree of height h at least that of h - 1 |
| HuffmanForest.HeightWithin | dep/bzip2/huffman.c:114-121 | so with a total weight below the Fibonacci number of h + 1 no tree is higher than h |
| CodeLengths.TreeOptimal | dep/bzip2/huffman.c:100-121 | the depths in the finished tree have Kraft sum 1 and least total weighted length among all lengths with Kraft sum at most 1 |
| CodeLengths.HalvedLess | dep/bzip2/huffman.c:142-146 | scaling the weights down strictly lowers their total while one of them is above 2 |
| CodeLengths.OverlongHeavy | dep/bzip2/huffman.c:123-146 | an over-long code means some weight is above 2, so scaling down comes to an end |
| CodeLengths.MakeCodeLengths | dep/bzip2/huffman.c:63-147 | ends; all lengths are from 1 to the limit with Kraft sum exactly 1; they are optimal for the frequencies (zero counted as one) scaled down as often as was needed, and every one of the scalings was because an optimal code for the weights then was too long |
| CodeLengths.FittedPlain | dep/bzip2/huffman.c:63-147 | so for symbols that all occur, none of whose optimal codes is too long, the lengths are optimal for how often the symbols occur |
| CodeLengths.HalvedBounds | dep/bzip2/huffman.c:142-146 | one scaling brings a weight to its half and one half or one more |
| CanonicalCodes.KraftInequality | dep/bzip2/huffman.c:63-147 | the lengths of any prefix-free code have Kraft sum at most 1, so optimal above means optimal among all prefix-free codes |
| CanonicalCodes.AssignCodes | dep/bzip2/huffman.c:152-166 | the code of a symbol is the first code of its length plus the number of earlier symbols of that length |
| CanonicalCodes.PrefixFree | dep/bzip2/huffman.c:152-166 | for lengths with Kraft sum at most 1, no code word begins another |
| CanonicalCodes.CreateDecodeTables | dep/bzip2/huffman.c:170-200 | limit, base and perm are those of the canonical code, and their cells outside the code's lengths too are known |
| CanonicalCodes.DecodeCode | dep/bzip2/decompress.c:74-102 | a code word followed by any bits decodes through these tables to its symbol and leaves exactly those bits |
| CodeTables.BuiltAgree | dep/bzip2/decompress.c:332-347 | on every cell the decoder can read, the arrays that are built equal the tables the machine decodes with |
| CodeTables.HitInside | dep/bzip2/decompress.c:90-101 | for any lengths from 1 to 20, well-formed or not, the first code not above its limit has its place among the symbols: the range test after it never fails |
| BitWriters.BitWriter.W | dep/bzip2/compress.c:57-78 | appends exactly the low n bits of the value to the bits written, for up to 25 bits at a time |
| BitWriters.BitWriter.FinishWrite | dep/bzip2/compress.c:45-54 | flushes everything, adding fewer than eight zero bits |
| BlockWriter.RankSelectors | dep/bzip2/compress.c:461-478 | the selectors' move-to-front ranks |
| BlockWriter.MakeTable | dep/bzip2/compress.c:449-492 | the lengths made for a table of frequencies are within 17, have Kraft sum 1 and are optimal for the frequencies, scaled down only as long as an optimal code is longer than 17; the codes are canonical |
| BlockWriter.CountFrequencies | dep/bzip2/compress.c:404-432 | each table's count of a symbol is the number of times the table sends it |
| BlockWriter.SendMTFValues | dep/bzip2/compress.c:444-598 | for any valid choice of selectors (at most 18002 of them), appends map, selectors, delta-coded lengths and code words of a block that can be decoded and whose symbols are those given; the number of tables is that for so many symbols, and the lengths of every table are optimal for how often that table sends each symbol, zero counted as one, scaled down only as long as an optimal code is longer than 17 |
| BlockCompressor.SomeChoose | dep/bzip2/compress.c:352-405 | a valid choice of selectors exists, so nothing proved for every choice is empty |
| BlockCompressor.EncodeBlock | dep/bzip2/compress.c:602-649 | appends the bits of a block with a sorted order, origPtr, check value and coded last column of the bytes gathered, exactly those bytes in use, and tables that are optimal in that sense for what they send |
| RunCoder.RunCoder.AddCharToBlock | dep/bzip2/bzlib.c:258-284 | the text that block and pending run stand for grows by exactly the byte; block, check value and bytes in use stay those of the runs gathered; at most five cells are filled |
| RunCoder.RunCoder.FlushRL | dep/bzip2/bzlib.c:215-256 | ends the pending run without changing the text |
| RunLength.ExpandSqueezed | dep/bzip2/bzlib.c:589-682 | expanding packed runs gives the text back, whatever cells lie beyond them |
| RunLength.WholeExactly | dep/bzip2/bzlib.c:589-682 | any block, whoever made it, has the count of its last run if and only if it is packed runs of up to 259 bytes, and it then stands for those runs |
| BlockCrc.UpdateIsDivision | dep/bzip2/bzlib_private.h:167-172 | one table step is eight steps of division by the CRC polynomial |
| CheckValues.CheckIsDivision | dep/bzip2/bzlib_private.h:157-172 | the check value of a block is the complement of what is left when the bits of its bytes are divided by the polynomial one by one from the top, starting from all ones |
| CheckValues.TurnedNumber | dep/bzip2/compress.c:607-607 | in numbers, the rotation of the combined value c is 2c modulo 2^32 plus c / 2^31 |
| CheckValues.CombineBits | dep/bzip2/compress.c:607-608 | taking in a block, bit i of the new value, from the top, is bit i + 1 of the old one, around 32, exclusive-or bit i of the value of the block |
| CheckValues.TrailerBit | dep/bzip2/compress.c:607-664 | bit i of the value in the trailer is set exactly when an odd number of blocks have it set in their value rotated by one bit for every later block |
| Compressor.Compressor.CopyInputUntilStop | dep/bzip2/bzlib.c:288-329 | takes bytes until the block is full, the input used up or the announced input over; what is taken is added to the text and counted |
| Compressor.Compressor.CompressBlock | dep/bzip2/compress.c:602-667 | after it the bits written are those of the header, all blocks sent and, at the end, the trailer with the combined check value; the bytes fit into what arr2 has left behind the block |
| BlockLength.BlockShort | dep/bzip2/compress.c:494-592 | a bound on the bits of a block from its number of bytes: no symbol over 20 bits, a selector of at most 6 bits for each 50, tables of at most 10067 bits |
| Compressor.Compressor.HandleCompress | dep/bzip2/bzlib.c:360-403 | consumed and delivered bytes are accounted for; it stops only for a full output, used-up input or a finished flush or stream |
| Compressor.Compressor.BzCompress | dep/bzip2/bzlib.c:407-464 | every call keeps the block to at most 100000 * size - 10 bytes and the 64-bit counters equal to the bytes in and out; the blocks it closes have at least 100000 * size - 19 bytes, all but the last one of a flush or finish; which calls are refused, with nothing changed, and all answers; StreamEnd exactly when all announced input is taken, no run is pending and the trailer is given out, and every later call is refused as a sequence error; while finishing is not done, bytes are left to give out |
| Compressor.Compressor.StoppedDecompresses | dep/bzip2/bzlib.c:452-461 | what has been given out by then decompresses to exactly what was taken in, check values right |
| StreamLength.StreamedShort | dep/bzip2/compress.c:602-667 | a bound on the bits of what has been written for so many bytes of data, from the bound for a block and the number of blocks when all but the last are full |
| StreamLength.EmptyStream | dep/bzip2/compress.c:602-667 | the stream of no data is fourteen bytes, which are given |
| Coroutine.NextBitsValue | dep/bzip2/decompress.c:40-64 | the bits taken from the buffer are the next bits of the stream, and the others stay |
| Coroutine.RunDrive | dep/bzip2/decompress.c:106-609 | running on bytes through the buffer is running on their bits, wherever it stops |
| Coroutine.RunSplit | dep/bzip2/decompress.c:166-195 | a run on two pieces, one after the other, ends as the run on both together |
| SelectorCells.InsideExactly | dep/bzip2/decompress.c:289-317 | from any state that reads the number v of selectors, whatever bits follow: all stores into selectorMtf and selector are inside their 18002 cells if and only if v is at most 18002, or at most 18002 ranks are complete before the bits end or one is damaged |
| SelectorCells.InsideBeyond | dep/bzip2/decompress.c:289-321 | for a run that gets to the code lengths they are inside if and only if v is at most 18002 |
| SelectorCells.OneTooMany | dep/bzip2/decompress.c:289-300 | a count of 18003 and as many zero bits: cell 18002 is stored into |
| SelectorCells.DoneCells | dep/bzip2/decompress.c:289-317 | a run that completes a block has stored into exactly as many cells as the block has selectors |
| SelectorCells.RunCellsAre | dep/bzip2/decompress.c:43-65 | the cells of a run on bytes are those of the run on their bits |
| SentCells.StreamInside | dep/bzip2/compress.c:455-458 | decoding any stream that the compressor sends, all stores are inside |
| ColumnBounds.RunKeeps | dep/bzip2/decompress.c:371-492 | every run, on any bytes, keeps the column within the block size and ends at Output only with origPtr inside it; a return uses up bits |
| ResumableDecoder.DState.AtMtf | dep/bzip2/decompress.c:371-486 | on the arrays: one more bit of a code, and, once it is found, the run, the move-to-front access through the sixteen slices or the end of the block, as the machine does |
| ResumableDecoder.DState.Decompress | dep/bzip2/decompress.c:105-641 | starting from the 24 saved variables with anything in the others, the decoder on its arrays returns the code, leaves the buffer and input, counts the bytes taken in and ends in the state that the machine does, for all bytes; of selectorMtf and selector, which have 32768 cells here, it changes only the cells of `SelectorCells.RunCells`, so that it is a statement about the 18002 cells of the source for the runs whose cells are inside; what the machine takes of any bits is what `BlockReading.BlockExactly` says |
| ResumableDecoder.InTwoParts | dep/bzip2/decompress.c:613-640 | two calls on two pieces of input end as one call on both would: the variables saved suffice at every label |
| InverseBwt.SpellsBlock | dep/bzip2/decompress.c:559-576 | for any sorted order, ties included, following the links of the last column from origPtr for n steps spells the block |
| InverseBwt.ThreadFast | dep/bzip2/decompress.c:559-566 | the packed words hold byte and link of every cell |
| InverseBwt.SetLink | dep/bzip2/bzlib_private.h:458-473 | storing a 20-bit link changes no other link, the one sharing its byte of nibbles included |
| InverseBwt.ReverseCycle | dep/bzip2/decompress.c:536-545 | reverses the links of the cycle through origPtr and no other |
| InverseBwt.ReversedLinks | dep/bzip2/decompress.c:524-566 | on that cycle the reversed links are those of the FAST decoder |
| InverseBwt.IndexIntoF | dep/bzip2/bzlib.c:687-698 | the binary search finds the byte whose bucket holds the cell |
| OutputTables.PrepareFast | dep/bzip2/decompress.c:557-576 | any column and origPtr inside it give tables on which the FAST expander starts validly |
| OutputTables.PrepareSmall | dep/bzip2/decompress.c:494-555 | and on which the SMALL expander does, for the same text |
| Expanders.FastExpander.Expand | dep/bzip2/bzlib.c:535-682 | for any room: the output goes on where it stopped, stops only for lack of room or at the end, and corruption is found only at a last run without its count, all before it given out |
| Expanders.SmallExpander.Expand | dep/bzip2/bzlib.c:705-804 | the same of the SMALL expander |
| Expanders.SameOutput | dep/bzip2/bzlib.c:820-823 | at the same point with the same room both expanders give out the same bytes, for every column and origPtr; they agree on corruption whenever room is left |
| ColumnDecoding.BlockDecodes | dep/bzip2/decompress.c:222-521 | the bits of any proper block, whatever follows, bring the decoder to Output with the block's column, origPtr and check value, leaving exactly what follows |
| RoundTrip.StreamRoundTrip | dep/bzip2/decompress.c:195-609 | header, any number of faithfully sent blocks (none included), trailer and padding decompress to exactly the data, finding every check value right |
| HeaderReading.StreamStart | dep/bzip2/decompress.c:197-208 | on any bits a run gets past the stream header if and only if the first 32 are those of a header for a block size of 1 to 9; otherwise it ends as DataErrorMagic |
| HeaderReading.BlockStart | dep/bzip2/decompress.c:222-235 | from there it goes on if and only if the next 48 bits are the magic number of a block or that of the end; otherwise it ends as DataError |
| HeaderReading.CrcRead | dep/bzip2/decompress.c:241-249 | the stored check value is the value of the next 32 bits |
| HeaderReading.CombinedRead | dep/bzip2/decompress.c:595-606 | and after the magic number of the end that of the stream is, and the run is over |
| HeaderReading.PointerRead | dep/bzip2/decompress.c:253-264 | the pointer is the value of the next 24 bits, refused exactly when it is more than ten beyond the block size |
| TableReading.MappingRead | dep/bzip2/decompress.c:266-284 | 16 bits tell the groups and 16 bits for each group listed its byte values; refused exactly when none is in use |
| TableReading.GroupsNumber | dep/bzip2/decompress.c:287-288 | the number of tables is refused exactly outside 2 to 6 |
| TableReading.SelectorsNumber | dep/bzip2/decompress.c:289-290 | the number of selectors is refused exactly when it is zero |
| TableReading.RanksFound | dep/bzip2/decompress.c:291-300 | on any bits the run fails, or the bits are unary ranks, all below the number of tables, and it reads these |
| TableReading.StartRead | dep/bzip2/decompress.c:318-321 | the first length of a table is refused exactly outside 1 to 20 |
| TableReading.MoveRead | dep/bzip2/decompress.c:321-326 | a move up or down is refused exactly when it leads out of 1 to 20 |
| TableReading.PathsFound | dep/bzip2/decompress.c:317-329 | on any bits the run fails, or the bits are first lengths and moves for all symbols of all tables, and it reads the lengths these lead to |
| SymbolReading.CodeFound | dep/bzip2/decompress.c:86-101 | for any lengths from 1 to 20, whatever their Kraft sum: the run reads a symbol whose code word begins the bits, or fails, and then no code word does |
| SymbolReading.CodesDiffer | dep/bzip2/decompress.c:86-101 | for any lengths, no code word that fits its length begins another |
| ColumnReading.SymbolFound | dep/bzip2/decompress.c:74-102 | the same with the choice of the table; a run fails where no selector is left |
| ColumnReading.DataFound | dep/bzip2/decompress.c:371-492 | on any bits the run fails, or they are code words of symbols up to the first end symbol whose column is no longer than the block size and has the row of the pointer; it then ends with that column |
| ColumnReading.DataReads | dep/bzip2/decompress.c:371-492 | all such code words are read, whatever follows them |
| BlockReading.BlockFound | dep/bzip2/decompress.c:222-492 | a run that completes a block has read the bits of an acceptable one and holds its pointer, check value and column |
| BlockReading.BlockReads | dep/bzip2/decompress.c:222-492 | the bits of every acceptable block, whatever follows them, complete that block |
| BlockReading.BlockExactly | dep/bzip2/decompress.c:222-492 | so a run completes a block if and only if the bits begin with an acceptable one |
| StreamReading.StreamExactly | dep/bzip2/bzlib.c:808-858 | bits decompress without damage if and only if they begin with a stream: header, acceptable blocks that are not randomised, with whole runs and the check value of their data, and the trailer with the combined check value |
| StreamReading.StreamReads | dep/bzip2/bzlib.c:808-858 | such a stream decompresses to the data of its blocks |
| StreamReading.NoHeader | dep/bzip2/decompress.c:197-208 | 32 bits or more that begin with no stream header are damaged, with no data, as DataErrorMagic |
| StreamDecompressor.StreamDecompressor.RunOn | dep/bzip2/bzlib.c:838-851 | what a call of the decoder means for the promise of the whole input, wherever the input is cut |
| StreamDecompressor.StreamDecompressor.BzDecompress | dep/bzip2/bzlib.c:808-858 | for all inputs, pieces and room: what is given out begins what the whole input stands for; StreamEnd exactly for all of it with right check values, an error only where the input is damaged, with all data before it given out unless the last run of a block lacks its count, Ok only for lack of input or room; the 64-bit counters tell the bytes taken in and given out |
| Counters.CountMore | dep/bzip2/bzlib.c:664-667 | adding to the low half and carrying when it gets less keeps the counter of 64 bits right for any amount below 2^32 |
| Buffers.CompressBuffer | dep/bzip2/bzlib.c:1247-1295 | the answer is Fine, with a stream that decompresses to the source, whenever there is as much room as a bound for so many bytes and the block size; for no data the stream is fourteen given bytes; a full buffer is answered only when it has been filled with the beginning of a longer stream; which parameters are refused; a sequence error exactly for no data and no room |
| Buffers.DecompressBuffer | dep/bzip2/bzlib.c:1299-1348 | Fine exactly for a whole, undamaged stream (of the explicit format) whose data fits, which is then the result; a full buffer is answered only when it has been filled; an incomplete stream is told as such exactly when room is left, and then its data is the result; so is damage, with its kind, whenever room is left |
| Crc32.UpdateIs | dep/zlib/crc32.c:200-200 | a table step is eight steps of the shift register on the byte's bits, and eight steps of division |
| Crc32Words.MakeCrcTable | dep/zlib/crc32.c:90-133 | table k holds each byte moved on by 8(k + 1) bits of division, and tables 4 to 7 the same with bytes swapped |
| Crc32Words.WordStep | dep/zlib/crc32.c:241-243 | four table look-ups move a word on by 32 bits |
| Crc32Fast.Crc32Bytes | dep/zlib/crc32.c:227-235 | equals the check value bit by bit |
| Crc32Fast.Crc32Little | dep/zlib/crc32.c:247-278 | equals it for every misalignment, buffer and length |
| Crc32Fast.Crc32Big | dep/zlib/crc32.c:287-320 | equals it too, working on swapped bytes throughout |
| Crc32Combine.Gf2MatrixTimes | dep/zlib/crc32.c:327-341 | a matrix that stands for n zero bits takes any register n bits on |
| Crc32Combine.Gf2MatrixSquare | dep/zlib/crc32.c:344-352 | its square stands for 2n zero bits |
| Crc32Combine.CombineIsConcat | dep/zlib/crc32.c:383-407 | the check value of a concatenation is the first one moved on by eight bits for each byte of the second, xor the second one |
| Crc32Combine.CrcConcat | dep/zlib/crc32.c:227-235 | going on from the check value of a gives that of a followed by b |
| Crc32Combine.Crc32Combine | dep/zlib/crc32.c:355-408 | from the check values of two pieces and the length of the second, the check value of both together, whatever they are |
| Adler32.RawWithin | dep/zlib/adler32.c:14-22 | after n bytes the unreduced sums are within bounds that grow with n and n * n |
| Adler32.WithinWord | dep/zlib/adler32.c:14-16 | for up to 5552 bytes these bounds are below 2^32, for both sums |
| Adler32.ModReduces | dep/zlib/adler32.c:40-44 | the shift-only MOD is the remainder by 65521 for all 32-bit values |
| Adler32.Mod28Is | dep/zlib/adler32.c:29-39 | MOD28 is the remainder for exactly the values it folds below twice 65521, all of 28 bits among them |
| Adler32.Mod63Is | dep/zlib/adler32.c:45-57 | MOD63 is the remainder for all 63-bit values |
| Adler32.Adler32 | dep/zlib/adler32.c:65-133 | equals the definition with a remainder at each byte, for all buffers and all valid starting values, by division or by shifts |
| Adler32.Adler32Combine | dep/zlib/adler32.c:136-162 | the check value of two pieces together from those of both; 0xffffffff for a negative length |

## Left out

- Randomised blocks (dep/bzip2/randtable.c and the branches on `blockRandomised`): they are decoded up to the point of output, where the model's verdict is `Unsupported`; the compressor never makes them.
- Which table each group of 50 symbols is sent with (dep/bzip2/compress.c:271-442): any valid choice of selectors is allowed, and everything is proved for all of them; the number of tables is the source's.
- Budget of the main sort: it is only known never to grow, so nothing is said of when the fallback takes over; whichever sort ends is proved.
- Storage that the source overlays is apart: the block and the fallback's classes, the order and the output bits, tt and ll16. Only the move-to-front symbols written over the order are modelled as half-words over the same cells; FallbackSort takes the block to be lost and rebuilds it.
- StreamLength.StreamedShort: counts 20 bits for every symbol; how much shorter the optimal codes make a stream is not bounded.
- Unrolled loops and fast tracks (fours, eights and fifties) are loops over the same steps.
- ResumableDecoder.DState.Decompress: for runs that store outside the 18002 cells of selectorMtf and selector, what the source goes on to do is not modelled; exactly which runs these are is proved (SelectorCells.InsideExactly).
- DState keeps the limit, base and perm tables as rows of a sequence that are replaced whole, and room for a block of 900000 whatever the block size. unzftab is counted from the finished column, not symbol by symbol.
- The guard against running past the block in BZ_GET_FAST and BZ_GET_SMALL: tPos is proved to stay inside, so the guard never fires and is not written.
- The FAST expander works on fields where the source copies them into local variables for the loop. When it finds corruption the source returns before it stores the copies back, so that the bytes of that call do not count as given out; `StreamDecompressor.StreamDecompressor.PutFast` says so, too.
- Expanders.SameOutput: when room runs out just at the end of a last run that lacks its count, one expander may report the corruption now and the other when it is called again; only the bytes given out are then promised equal.
- StreamDecompressor.StreamDecompressor.BzDecompress: calls after an error are not modelled. The room is below 2^32, as avail_out is 32 bits wide.
- CodeLengths.MakeCodeLengths: proved for length limits from 12 up, the source using 17 only; the bound on heights from which it follows that scaling down ends does not reach lower limits, and below 9 there is no code for 258 symbols.
- Memory allocation, NULL arguments (the starting values of crc32 and adler32 among them), standard input and output, verbosity and version strings (dep/bzip2/bzlib.c:41-112, 881-1239, 1352-1567).
- The literal tables of dep/zlib/crc32.h and dep/bzip2/crctable.c: defined by their recurrence. The byte order of the machine is a choice between `Crc32Little` and `Crc32Big`, and an address is given only by its remainder.
- The rest of the repository: the deflate code of dep/zlib, dep/gsoap, dep/SFMT, dep/utf8cpp and the other dependencies.
