/** The decompressor's state machine.

    A state waits at a label for a number of bits. Given them, it moves on to the next label,
    or returns to its caller, keeping in its record all that the next call needs.
 */
module Decompressor {
  import opened CanonicalCodes
  import opened CodeTables
  import opened MoveToFront
  import opened SymbolMaps

  datatype Label =
    | Magic(k: int) | BlkHdr(k: int) | BlkCrc(k: int) | RandBit | OrigPtr(k: int)
    | Mapping1 | Mapping2 | Selector1 | Selector2 | Selector3
    | Coding1 | Coding2 | Coding3 | Mtf(k: int) | EndHdr(k: int) | CombCrc(k: int)
    | Output | Idle

  datatype Status = Ok | DataError | DataErrorMagic | StreamEnd

  /** The save area. inUse, selectorMtf, len and cur grow as their entries arrive. */
  datatype State = State(
    at: Label, blockSize100k: int, storedBlockCRC: nat, storedCombinedCRC: nat, randomised: bool, origPtr: nat,
    inUse16: seq<bool>, inUse: seq<bool>, i: int, j: int, nGroups: int, nSelectors: int,
    selectorMtf: seq<nat>, selector: seq<int>, len: seq<seq<nat>>, cur: seq<nat>, curr: int,
    groupNo: int, groupPos: int, gSel: int, zn: nat, zvec: int, es: int, N: int, y: seq<int>, tt: seq<int>)

  /** Moving on to a label, or returning to the caller. */
  datatype Outcome = Continue(s: State) | Return(code: Status, s: State)

  const HDR_B: int := 0x42
  const HDR_Z: int := 0x5a
  const HDR_H: int := 0x68
  const HDR_0: int := 0x30
  const G_SIZE: int := 50
  const MAX_SELECTORS: int := 2 + 900000 / G_SIZE
  const N_LIMIT: int := 2 * 1024 * 1024

  function BlockMagic(k: int): int {
    if k == 1 then 0x31 else if k == 2 then 0x41 else if k == 3 then 0x59
    else if k == 4 then 0x26 else if k == 5 then 0x53 else 0x59
  }

  function EndMagic(k: int): int {
    if k == 1 then 0x17 else if k == 2 then 0x72 else if k == 3 then 0x45
    else if k == 4 then 0x38 else if k == 5 then 0x50 else 0x90
  }

  function NInUse(s: State): nat {
    |Chars(s.inUse)|
  }

  function Capacity(s: State): int {
    100000 * s.blockSize100k
  }

  // What is known at each stage.

  ghost predicate Mapped(s: State) {
    |s.inUse| == 256 && NInUse(s) >= 1
  }

  ghost predicate Grouped(s: State) {
    Mapped(s) && 2 <= s.nGroups <= 6
  }

  ghost predicate Selecting(s: State) {
    && Grouped(s) && s.nSelectors >= 1 && |s.selectorMtf| < s.nSelectors
    && 0 <= s.j < s.nGroups && s.nGroups >= 0 && Below(s.selectorMtf, s.nGroups)
  }

  ghost predicate Selected(s: State) {
    && Grouped(s) && s.nSelectors >= 1 && |s.selector| == s.nSelectors
    && forall i :: 0 <= i < |s.selector| ==> 0 <= s.selector[i] < s.nGroups
  }

  ghost predicate GoodLengths(l: seq<nat>) {
    forall i :: 0 <= i < |l| ==> 1 <= l[i] <= LONGEST
  }

  ghost predicate GoodTables(s: State) {
    forall t :: 0 <= t < |s.len| ==> |s.len[t]| == NInUse(s) + 2 && GoodLengths(s.len[t])
  }

  ghost predicate Coding(s: State) {
    Selected(s) && |s.len| < s.nGroups && GoodTables(s)
  }

  ghost predicate CodingTable(s: State) {
    Coding(s) && |s.cur| < NInUse(s) + 2 && GoodLengths(s.cur) && 1 <= s.curr <= LONGEST
  }

  ghost predicate Tabled(s: State) {
    && Selected(s) && |s.len| == s.nGroups && GoodTables(s)
    && |s.y| == 256 && (forall i :: 0 <= i < 256 ==> 0 <= s.y[i] < 256)
    && 0 <= s.groupPos && -1 <= s.groupNo < s.nSelectors && (s.groupPos > 0 ==> 0 <= s.gSel < s.nGroups)
  }

  ghost predicate Reading(s: State) {
    Tabled(s) && 0 <= s.gSel < s.nGroups && 1 <= s.zn
  }

  ghost predicate Good(s: State) {
    match s.at
    case Mapping1 => |s.inUse16| < 16
    case Mapping2 => |s.inUse16| == 16 && 0 <= s.i < 16 && 0 <= s.j < 16 && |s.inUse| == 16 * s.i + s.j
    case Selector1 => Mapped(s)
    case Selector2 => Grouped(s)
    case Selector3 => Selecting(s)
    case Coding1 => Coding(s)
    case Coding2 => CodingTable(s)
    case Coding3 => CodingTable(s)
    case Mtf(k) => Reading(s) && (k % 2 == 1 ==> s.zn <= LONGEST)
    case _ => true
  }

  /** A state that waits for bits. */
  ghost predicate Waiting(s: State) {
    s.at != Output && s.at != Idle && Good(s)
  }

  function Need(s: State): (n: nat)
    requires Good(s)
    ensures 1 <= n <= 20
  {
    match s.at
    case RandBit => 1
    case Mapping1 => 1
    case Mapping2 => 1
    case Selector1 => 3
    case Selector2 => 15
    case Selector3 => 1
    case Coding1 => 5
    case Coding2 => 1
    case Coding3 => 1
    case Mtf(k) => if k % 2 == 1 then s.zn else 1
    case _ => 8
  }

  // The stages.

  /** To the next group of 16 byte values that has any in use. */
  function NextMap(s: State, i: int): Outcome
    requires |s.inUse16| == 16 && 0 <= i <= 16 && |s.inUse| == 16 * i
    decreases 16 - i
  {
    if i == 16 then
      if NInUse(s) == 0 then Return(DataError, s) else Continue(s.(at := Selector1, i := 16, j := 16))
    else if s.inUse16[i] then Continue(s.(at := Mapping2, i := i, j := 0))
    else NextMap(s.(inUse := s.inUse + seq(16, k => false)), i + 1)
  }

  lemma IdentityBelow(m: nat, ks: seq<nat>)
    requires Below(ks, m)
    ensures forall i :: 0 <= i < m ==> 0 <= Identity(m)[i] < m
    ensures |Identity(m)| == m && Below(ks, |Identity(m)|)
  {
  }

  /** Undoing the move-to-front coding of the selectors. */
  function SelectorsDone(s: State): State
    requires s.nGroups >= 1 && Below(s.selectorMtf, s.nGroups)
  {
    s.(selector := Symbols(Identity(s.nGroups), s.selectorMtf), len := [], at := Coding1)
  }

  /** Checks the length before its next change or its end is read. */
  function CheckLength(s: State): Outcome {
    if s.curr < 1 || s.curr > LONGEST then Return(DataError, s) else Continue(s.(at := Coding2))
  }

  /** Before a symbol: every 50 symbols the next selector picks a table. */
  function StartSymbol(s: State, k: int): Outcome
    requires Tabled(s)
  {
    if s.groupPos == 0 then
      var s1 := s.(groupNo := s.groupNo + 1);
      if s1.groupNo >= s.nSelectors then Return(DataError, s1)
      else
        var g := s.selector[s1.groupNo];
        Continue(s1.(groupPos := G_SIZE - 1, gSel := g, zn := MinLen(s.len[g]), at := Mtf(k)))
    else
      Continue(s.(groupPos := s.groupPos - 1, zn := MinLen(s.len[s.gSel]), at := Mtf(k)))
  }

  /** The first symbol after all tables. */
  function FirstSymbol(s: State): Outcome
    requires Selected(s) && |s.len| == s.nGroups && GoodTables(s)
  {
    StartSymbol(s.(groupNo := -1, groupPos := 0, y := Identity(256), tt := []), 1)
  }

  /** A table is complete. */
  function TableDone(s: State): Outcome
    requires Coding(s) && |s.cur| == NInUse(s) + 2 && GoodLengths(s.cur)
  {
    var s1 := s.(len := s.len + [s.cur]);
    if |s1.len| == s.nGroups then FirstSymbol(s1) else Continue(s1.(at := Coding1))
  }

  function CharOf(s: State, k: int): int {
    if 0 <= k < NInUse(s) then Chars(s.inUse)[k] else 0
  }

  /** All symbols of the block have been read. */
  function EndBlock(s: State): Outcome {
    if s.origPtr >= |s.tt| then Return(DataError, s) else Return(Ok, s.(at := Output))
  }

  /** One more digit of a run. */
  function RunDigit(s: State, sym: int): Outcome
    requires Tabled(s)
  {
    if s.N >= N_LIMIT then Return(DataError, s)
    else StartSymbol(s.(es := s.es + (if sym == RUNA then 1 else 2) * s.N, N := s.N * 2), 3)
  }

  /** A symbol read outside a run. */
  function TakeSymbol(s: State, sym: int): Outcome
    requires Tabled(s) && 0 <= sym < NInUse(s) + 2
  {
    if sym == NInUse(s) + 1 then EndBlock(s)
    else if sym == RUNA || sym == RUNB then RunDigit(s.(es := -1, N := 1), sym)
    else if |s.tt| >= Capacity(s) then Return(DataError, s)
    else
      InUseBound(s);
      var uc := s.y[sym - 1];
      StartSymbol(s.(y := Moved(s.y, sym - 1), tt := s.tt + [CharOf(s, uc)]), 5)
  }

  lemma InUseBound(s: State)
    ensures NInUse(s) <= |s.inUse|
  {
  }

  /** Outputs a run, as far as there is room. */
  function PutRun(s: State): Outcome
    requires Tabled(s)
  {
    var n := s.es + 1;
    var room := Capacity(s) - |s.tt|;
    var c := CharOf(s, s.y[0]);
    if n <= 0 then Continue(s.(es := n))
    else if n <= room then Continue(s.(tt := s.tt + Repeat(c, n), es := 0))
    else Return(DataError,
      s.(tt := s.tt + Repeat(c, if room < 0 then 0 else room), es := n - (if room < 0 then 0 else room)))
  }

  /** A symbol read within a run. */
  function TakeInRun(s: State, sym: int): Outcome
    requires Tabled(s) && 0 <= sym < NInUse(s) + 2
  {
    if sym == RUNA || sym == RUNB then RunDigit(s, sym)
    else
      match PutRun(s)
      case Return(c, s1) => Return(c, s1)
      case Continue(s1) => TakeSymbol(s1, sym)
  }

  function LimitOf(t: Tables, n: nat): int {
    if n < |t.limit| then t.limit[n] else 0
  }

  function BaseOf(t: Tables, n: nat): int {
    if n < |t.base| then t.base[n] else 0
  }

  /** Is the code complete? If not, one more bit is read. */
  function CheckCode(s: State, k: int): Outcome
    requires Tabled(s) && 0 <= s.gSel < s.nGroups
  {
    var t := TablesOf(s.len[s.gSel]);
    if s.zn > LONGEST then Return(DataError, s)
    else if s.zvec <= LimitOf(t, s.zn) then
      var p := s.zvec - BaseOf(t, s.zn);
      if p < 0 || p >= TABLE_SIZE || p >= |t.perm| then Return(DataError, s)
      else
        SymbolInRange(s, p);
        if k == 3 then TakeInRun(s, t.perm[p]) else TakeSymbol(s, t.perm[p])
    else Continue(s.(zn := s.zn + 1, at := Mtf(k + 1)))
  }

  lemma SymbolInRange(s: State, p: int)
    requires Tabled(s) && 0 <= s.gSel < s.nGroups
    requires 0 <= p < |TablesOf(s.len[s.gSel]).perm|
    ensures 0 <= TablesOf(s.len[s.gSel]).perm[p] < NInUse(s) + 2
  {
    OrderedRange(s.len[s.gSel], MaxLen(s.len[s.gSel]) + 1);
  }

  // All labels.

  const WORD: int := 0x1_0000_0000

  /** The stream header, the magic numbers, and the words sent byte by byte. */
  function AdvanceHeader(s: State, v: nat): Outcome
    requires s.at.Magic? || s.at.BlkHdr? || s.at.BlkCrc? || s.at.RandBit? || s.at.OrigPtr? || s.at.EndHdr? ||
      s.at.CombCrc?
  {
    match s.at
    case Magic(k) =>
      if k == 1 then if v != HDR_B then Return(DataErrorMagic, s) else Continue(s.(at := Magic(2)))
      else if k == 2 then if v != HDR_Z then Return(DataErrorMagic, s) else Continue(s.(at := Magic(3)))
      else if k == 3 then if v != HDR_H then Return(DataErrorMagic, s) else Continue(s.(at := Magic(4)))
      else if v < HDR_0 + 1 || v > HDR_0 + 9 then Return(DataErrorMagic, s.(blockSize100k := v))
      else Continue(s.(blockSize100k := v - HDR_0, at := BlkHdr(1)))
    case BlkHdr(k) =>
      if k == 1 && v == EndMagic(1) then Continue(s.(at := EndHdr(2)))
      else if v != BlockMagic(k) then Return(DataError, s)
      else if k < 6 then Continue(s.(at := BlkHdr(k + 1)))
      else Continue(s.(storedBlockCRC := 0, at := BlkCrc(1)))
    case BlkCrc(k) =>
      var s1 := s.(storedBlockCRC := (s.storedBlockCRC * 256 + v) % WORD);
      Continue(s1.(at := if k < 4 then BlkCrc(k + 1) else RandBit))
    case RandBit => Continue(s.(randomised := v == 1, origPtr := 0, at := OrigPtr(1)))
    case OrigPtr(k) =>
      var s1 := s.(origPtr := s.origPtr * 256 + v);
      if k < 3 then Continue(s1.(at := OrigPtr(k + 1)))
      else if s1.origPtr > 10 + Capacity(s) then Return(DataError, s1)
      else Continue(s1.(inUse16 := [], at := Mapping1))
    case EndHdr(k) =>
      if v != EndMagic(k) then Return(DataError, s)
      else if k < 6 then Continue(s.(at := EndHdr(k + 1)))
      else Continue(s.(storedCombinedCRC := 0, at := CombCrc(1)))
    case CombCrc(k) =>
      var s1 := s.(storedCombinedCRC := (s.storedCombinedCRC * 256 + v) % WORD);
      if k < 4 then Continue(s1.(at := CombCrc(k + 1))) else Return(StreamEnd, s1.(at := Idle))
  }

  /** The mapping table and the selectors. */
  function AdvanceTables(s: State, v: nat): Outcome
    requires Good(s) && (s.at.Mapping1? || s.at.Mapping2? || s.at.Selector1? || s.at.Selector2? || s.at.Selector3?)
  {
    match s.at
    case Mapping1 =>
      var s1 := s.(inUse16 := s.inUse16 + [v == 1]);
      if |s1.inUse16| < 16 then Continue(s1) else NextMap(s1.(inUse := []), 0)
    case Mapping2 =>
      var s1 := s.(inUse := s.inUse + [v == 1], j := s.j + 1);
      if s1.j < 16 then Continue(s1) else NextMap(s1, s.i + 1)
    case Selector1 =>
      if v < 2 || v > 6 then Return(DataError, s.(nGroups := v)) else Continue(s.(nGroups := v, at := Selector2))
    case Selector2 =>
      if v < 1 then Return(DataError, s.(nSelectors := v))
      else Continue(s.(nSelectors := v, j := 0, selectorMtf := [], at := Selector3))
    case Selector3 =>
      if v == 0 then
        var s1 := s.(selectorMtf := s.selectorMtf + [s.j], j := 0);
        if |s1.selectorMtf| == s.nSelectors then Continue(SelectorsDone(s1)) else Continue(s1)
      else if s.j + 1 >= s.nGroups then Return(DataError, s.(j := s.j + 1))
      else Continue(s.(j := s.j + 1))
  }

  /** The code lengths and the symbols. */
  function AdvanceCodes(s: State, v: nat): Outcome
    requires Good(s) && (s.at.Coding1? || s.at.Coding2? || s.at.Coding3? || s.at.Mtf?)
  {
    match s.at
    case Coding1 => CheckLength(s.(curr := v, cur := []))
    case Coding2 =>
      if v != 0 then Continue(s.(at := Coding3))
      else
        var s1 := s.(cur := s.cur + [s.curr]);
        if |s1.cur| == NInUse(s) + 2 then TableDone(s1) else CheckLength(s1)
    case Coding3 => CheckLength(s.(curr := if v == 0 then s.curr + 1 else s.curr - 1))
    case Mtf(k) =>
      if k % 2 == 1 then CheckCode(s.(zvec := v), k) else CheckCode(s.(zvec := s.zvec * 2 + v), k - 1)
  }

  /** From one label to the next, given the bits waited for. */
  function Advance(s: State, v: nat): Outcome
    requires Waiting(s)
  {
    match s.at
    case Mapping1 => AdvanceTables(s, v)
    case Mapping2 => AdvanceTables(s, v)
    case Selector1 => AdvanceTables(s, v)
    case Selector2 => AdvanceTables(s, v)
    case Selector3 => AdvanceTables(s, v)
    case Coding1 => AdvanceCodes(s, v)
    case Coding2 => AdvanceCodes(s, v)
    case Coding3 => AdvanceCodes(s, v)
    case Mtf(k) => AdvanceCodes(s, v)
    case Output => assert false; Return(Ok, s)
    case Idle => assert false; Return(Ok, s)
    case _ => AdvanceHeader(s, v)
  }

  // Every label is reached in good order.

  ghost predicate Moves(o: Outcome) {
    o.Continue? ==> Waiting(o.s)
  }

  lemma MinLenGood(l: seq<nat>)
    requires l != [] && GoodLengths(l)
    ensures 1 <= MinLen(l) <= LONGEST
  {
    MinMaxWithin(l, 1, LONGEST);
    MinMax(l);
  }

  lemma StartSymbolMoves(s: State, k: int)
    requires Tabled(s) && k % 2 == 1
    ensures Moves(StartSymbol(s, k))
  {
    hide MinLen, Chars, GoodLengths;
    var g := if s.groupPos > 0 then s.gSel else if s.groupNo + 1 < s.nSelectors then s.selector[s.groupNo + 1] else 0;
    MinLenGood(s.len[g]);
  }

  lemma MovedEntries(y: seq<int>, k: int)
    requires 0 <= k < |y| == 256 && forall i :: 0 <= i < 256 ==> 0 <= y[i] < 256
    ensures |Moved(y, k)| == 256 && forall i :: 0 <= i < 256 ==> 0 <= Moved(y, k)[i] < 256
  {
  }

  lemma TakeSymbolMoves(s: State, sym: int)
    requires Tabled(s) && 0 <= sym < NInUse(s) + 2
    ensures Moves(TakeSymbol(s, sym))
  {
    hide Chars, GoodLengths, StartSymbol, Waiting, Moved;
    InUseBound(s);
    if sym == RUNA || sym == RUNB {
      RunDigitMoves(s.(es := -1, N := 1), sym);
    } else if sym != NInUse(s) + 1 && |s.tt| < Capacity(s) {
      MovedEntries(s.y, sym - 1);
      SameInUse(s, s.(y := Moved(s.y, sym - 1), tt := s.tt + [CharOf(s, s.y[sym - 1])]));
      StartSymbolMoves(s.(y := Moved(s.y, sym - 1), tt := s.tt + [CharOf(s, s.y[sym - 1])]), 5);
    }
  }

  lemma SameInUse(s: State, s1: State)
    requires s.inUse == s1.inUse
    ensures NInUse(s) == NInUse(s1)
  {
  }

  lemma RunDigitMoves(s: State, sym: int)
    requires Tabled(s)
    ensures Moves(RunDigit(s, sym))
  {
    hide GoodLengths, StartSymbol, Waiting;
    if s.N < N_LIMIT { StartSymbolMoves(s.(es := s.es + (if sym == RUNA then 1 else 2) * s.N, N := s.N * 2), 3); }
  }

  lemma TakeInRunMoves(s: State, sym: int)
    requires Tabled(s) && 0 <= sym < NInUse(s) + 2
    ensures Moves(TakeInRun(s, sym))
  {
    hide GoodLengths, StartSymbol, Waiting, RunDigit, TakeSymbol;
    if sym == RUNA || sym == RUNB {
      RunDigitMoves(s, sym);
    } else if PutRun(s).Continue? {
      TakeSymbolMoves(PutRun(s).s, sym);
    }
  }

  lemma Stopped(s: State)
    ensures Moves(Return(DataError, s))
  {
  }

  lemma LongerCode(s: State, k: int)
    requires Tabled(s) && 0 <= s.gSel < s.nGroups && k % 2 == 1 && s.zn <= LONGEST
    ensures Moves(Continue(s.(zn := s.zn + 1, at := Mtf(k + 1))))
  {
  }

  lemma CheckCodeMoves(s: State, k: int)
    requires Tabled(s) && 0 <= s.gSel < s.nGroups && k % 2 == 1
    ensures Moves(CheckCode(s, k))
  {
    hide GoodLengths, GoodTables, Moves, TakeInRun, TakeSymbol, TablesOf, LimitOf, BaseOf, NInUse, Waiting;
    var t := TablesOf(s.len[s.gSel]);
    if s.zn <= LONGEST && s.zvec <= LimitOf(t, s.zn) {
      var p := s.zvec - BaseOf(t, s.zn);
      if 0 <= p < TABLE_SIZE && p < |t.perm| {
        SymbolInRange(s, p);
        if k == 3 { TakeInRunMoves(s, t.perm[p]); } else { TakeSymbolMoves(s, t.perm[p]); }
      } else {
        Stopped(s);
      }
    } else if s.zn <= LONGEST {
      LongerCode(s, k);
    } else {
      Stopped(s);
    }
  }

  lemma {:induction false} NextMapMoves(s: State, i: int)
    requires |s.inUse16| == 16 && 0 <= i <= 16 && |s.inUse| == 16 * i
    ensures Moves(NextMap(s, i))
    decreases 16 - i
  {
    if i < 16 && !s.inUse16[i] { NextMapMoves(s.(inUse := s.inUse + seq(16, k => false)), i + 1); }
  }

  lemma TableDoneMoves(s: State)
    requires Coding(s) && |s.cur| == NInUse(s) + 2 && GoodLengths(s.cur)
    ensures Moves(TableDone(s))
  {
    hide Chars, GoodLengths, StartSymbol;
    var s1 := s.(len := s.len + [s.cur]);
    assert GoodTables(s1);
    if |s1.len| == s.nGroups {
      StartSymbolMoves(s1.(groupNo := -1, groupPos := 0, y := Identity(256), tt := []), 1);
    }
  }

  lemma SelectorsDoneMoves(s: State)
    requires Grouped(s) && s.nSelectors >= 1 && |s.selectorMtf| == s.nSelectors && Below(s.selectorMtf, s.nGroups)
    ensures Waiting(SelectorsDone(s))
  {
    hide Chars;
    IdentityBelow(s.nGroups, s.selectorMtf);
    SymbolsListed(Identity(s.nGroups), s.selectorMtf);
  }

  lemma AdvanceTablesMoves(s: State, v: nat)
    requires Good(s) && (s.at.Mapping1? || s.at.Mapping2? || s.at.Selector1? || s.at.Selector2? || s.at.Selector3?)
    ensures Moves(AdvanceTables(s, v))
  {
    hide Chars, SelectorsDone, NextMap;
    match s.at
    case Mapping1 =>
      var s1 := s.(inUse16 := s.inUse16 + [v == 1]);
      if |s1.inUse16| == 16 { NextMapMoves(s1.(inUse := []), 0); }
    case Mapping2 =>
      var s1 := s.(inUse := s.inUse + [v == 1], j := s.j + 1);
      if s1.j == 16 { NextMapMoves(s1, s.i + 1); }
    case Selector3 =>
      var s1 := s.(selectorMtf := s.selectorMtf + [s.j], j := 0);
      if v == 0 && |s1.selectorMtf| == s.nSelectors { SelectorsDoneMoves(s1); }
    case _ =>
  }

  lemma AdvanceCodesMoves(s: State, v: nat)
    requires Good(s) && (s.at.Coding1? || s.at.Coding2? || s.at.Coding3? || s.at.Mtf?)
    ensures Moves(AdvanceCodes(s, v))
  {
    hide Chars, TableDone, CheckCode;
    match s.at
    case Coding2 =>
      var s1 := s.(cur := s.cur + [s.curr]);
      if v == 0 && |s1.cur| == NInUse(s) + 2 { TableDoneMoves(s1); }
    case Mtf(k) =>
      if k % 2 == 1 { CheckCodeMoves(s.(zvec := v), k); } else { CheckCodeMoves(s.(zvec := s.zvec * 2 + v), k - 1); }
    case _ =>
  }

  /** Moving on leads to a label that waits in good order. */
  lemma AdvanceMoves(s: State, v: nat)
    requires Waiting(s)
    ensures Moves(Advance(s, v))
  {
    hide AdvanceTables, AdvanceCodes, Chars;
    match s.at
    case Mapping1 => AdvanceTablesMoves(s, v);
    case Mapping2 => AdvanceTablesMoves(s, v);
    case Selector1 => AdvanceTablesMoves(s, v);
    case Selector2 => AdvanceTablesMoves(s, v);
    case Selector3 => AdvanceTablesMoves(s, v);
    case Coding1 => AdvanceCodesMoves(s, v);
    case Coding2 => AdvanceCodesMoves(s, v);
    case Coding3 => AdvanceCodesMoves(s, v);
    case Mtf(k) => AdvanceCodesMoves(s, v);
    case _ =>
  }

  // Runs of the machine on bits.

  /** What a run on some bits comes to: waiting for more than are left, or back at the caller. */
  datatype Result = Short(s: State, rest: seq<bool>) | Done(code: Status, s: State, rest: seq<bool>)

  ghost function Drive(s: State, w: seq<bool>): Result
    requires Waiting(s)
    decreases |w|
  {
    var n := Need(s);
    if |w| < n then Short(s, w)
    else
      AdvanceMoves(s, Value(w[..n]));
      match Advance(s, Value(w[..n]))
      case Return(code, s1) => Done(code, s1, w[n..])
      case Continue(s1) => Drive(s1, w[n..])
  }

  /** A run that ends waiting may be taken up again with further bits. */
  lemma {:induction false} DriveSplit(s: State, w: seq<bool>, x: seq<bool>)
    requires Waiting(s)
    ensures match Drive(s, w)
      case Short(s1, r) => Waiting(s1) && Drive(s, w + x) == Drive(s1, r + x)
      case Done(code, s1, r) => Drive(s, w + x) == Done(code, s1, r + x)
    decreases |w|
  {
    var n := Need(s);
    if |w| >= n {
      assert (w + x)[..n] == w[..n] && (w + x)[n..] == w[n..] + x;
      AdvanceMoves(s, Value(w[..n]));
      match Advance(s, Value(w[..n]))
      case Return(code, s1) =>
      case Continue(s1) => DriveSplit(s1, w[n..], x);
    }
  }
}
