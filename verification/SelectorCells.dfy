/** Which cells of the arrays selectorMtf and selector a run of the decoder stores into.

    The arrays have MAX_SELECTORS cells, but the number of selectors of a block is read from 15
    bits and not compared with that. What is known for every input is when the stores stay inside.
 */
module SelectorCells {
  import opened Bits
  import opened BitWriters
  import opened BlockDecoding
  import opened CanonicalCodes
  import opened CodeTables
  import opened Coroutine
  import opened Decompressor
  import MoveToFront
  import opened SymbolMaps
  import opened Words

  function UpTo(n: int): (cells: set<int>)
    ensures forall c :: c in cells <==> 0 <= c < n
  {
    if n <= 0 then {} else UpTo(n - 1) + {n - 1}
  }

  /** The cells that one step stores into: the next rank, and after the last one the selectors. */
  function StepCells(s: State, v: nat): set<int> {
    if s.at != Selector3 || v != 0 then {}
    else {|s.selectorMtf|} + if |s.selectorMtf| + 1 == s.nSelectors then UpTo(s.nSelectors) else {}
  }

  /** The cells that a run on some bits stores into. */
  ghost function Cells(s: State, w: seq<bool>): set<int>
    requires Waiting(s)
    decreases |w|
  {
    if |w| < Need(s) then {}
    else
      var v := Value(w[..Need(s)]);
      AdvanceMoves(s, v);
      StepCells(s, v) + match Advance(s, v) case Return(_, _) => {} case Continue(s1) => Cells(s1, w[Need(s)..])
  }

  /** All of them are cells of the arrays. */
  ghost predicate Inside(cells: set<int>) {
    forall c :: c in cells ==> 0 <= c < MAX_SELECTORS
  }

  /** What is stored into after a step. */
  ghost function OnwardCells(o: Outcome, x: seq<bool>): set<int>
    requires Moves(o)
  {
    if o.Return? then {} else Cells(o.s, x)
  }

  lemma WordCells(s: State, v: nat, n: nat, x: seq<bool>)
    requires Waiting(s) && Need(s) == n && v < Pow2(n)
    ensures Moves(Advance(s, v))
    ensures Cells(s, Word(v, n) + x) == StepCells(s, v) + OnwardCells(Advance(s, v), x)
  {
    hide Advance, Good, Moves, Need, StepCells, Value, Word;
    var w := Word(v, n) + x;
    assert w[..n] == Word(v, n) && w[n..] == x;
    WordValue(v, n);
    AdvanceMoves(s, v);
  }

  lemma BitCells(s: State, w: seq<bool>)
    requires Waiting(s) && Need(s) == 1 && w != []
    ensures var v := if w[0] then 1 else 0;
      Moves(Advance(s, v)) && Cells(s, w) == StepCells(s, v) + OnwardCells(Advance(s, v), w[1..])
  {
    hide Advance, Cells, Good, Moves, Need, OnwardCells, StepCells;
    var v := if w[0] then 1 else 0;
    assert Word(v, 1) == [w[0]] by { assert Word(v / 2, 0) == []; }
    assert Pow2(1) == 2 && w == [w[0]] + w[1..];
    WordCells(s, v, 1, w[1..]);
  }

  // After the selectors.

  predicate Past(at: Label) {
    at.Coding1? || at.Coding2? || at.Coding3? || at.Mtf?
  }

  /** A step that stays behind the selectors, or returns; their number is kept. */
  ghost predicate StaysPast(o: Outcome, n: int) {
    (if o.Continue? then Past(o.s.at) else o.code != StreamEnd) && o.s.nSelectors == n
  }

  lemma StartStays(s: State, k: int)
    requires Tabled(s)
    ensures StaysPast(StartSymbol(s, k), s.nSelectors)
  {
    hide MinLen, Tabled;
  }

  lemma DigitStays(s: State, sym: int)
    requires Tabled(s)
    ensures StaysPast(RunDigit(s, sym), s.nSelectors)
  {
    hide StaysPast, StartSymbol, GoodLengths;
    if s.N < N_LIMIT { StartStays(s.(es := s.es + (if sym == MoveToFront.RUNA then 1 else 2) * s.N, N := s.N * 2), 3); }
    Returns(DataError, s);
  }

  lemma Returns(code: Status, s: State)
    requires code != StreamEnd
    ensures StaysPast(Return(code, s), s.nSelectors)
  {
  }

  lemma TakeStays(s: State, sym: int)
    requires Tabled(s) && 0 <= sym < NInUse(s) + 2
    ensures StaysPast(TakeSymbol(s, sym), s.nSelectors)
  {
    hide StaysPast, StartSymbol, RunDigit, Chars, GoodLengths, MoveToFront.Moved;
    Returns(DataError, s);
    Returns(Ok, s.(at := Output));
    InUseBound(s);
    if sym == MoveToFront.RUNA || sym == MoveToFront.RUNB {
      DigitStays(s.(es := -1, N := 1), sym);
    } else if sym != NInUse(s) + 1 && |s.tt| < Capacity(s) {
      MovedEntries(s.y, sym - 1);
      var s1 := s.(y := MoveToFront.Moved(s.y, sym - 1), tt := s.tt + [CharOf(s, s.y[sym - 1])]);
      SameInUse(s, s1);
      StartStays(s1, 5);
    }
  }

  lemma TakeInRunStays(s: State, sym: int)
    requires Tabled(s) && 0 <= sym < NInUse(s) + 2
    ensures StaysPast(TakeInRun(s, sym), s.nSelectors)
  {
    hide StaysPast, TakeSymbol, RunDigit, Chars, GoodLengths, MoveToFront.Moved;
    Returns(DataError, PutRun(s).s);
    if sym == MoveToFront.RUNA || sym == MoveToFront.RUNB {
      DigitStays(s, sym);
    } else if PutRun(s).Continue? {
      TakeStays(PutRun(s).s, sym);
    }
  }

  lemma MoreCode(s: State, k: int)
    ensures StaysPast(Continue(s.(zn := s.zn + 1, at := Mtf(k + 1))), s.nSelectors)
  {
  }

  lemma CheckStays(s: State, k: int)
    requires Tabled(s) && 0 <= s.gSel < s.nGroups
    ensures StaysPast(CheckCode(s, k), s.nSelectors)
  {
    hide StaysPast, TakeSymbol, TakeInRun, TablesOf, NInUse, GoodLengths, LimitOf, BaseOf;
    var t, p := TablesOf(s.len[s.gSel]), s.zvec - BaseOf(TablesOf(s.len[s.gSel]), s.zn);
    Returns(DataError, s);
    MoreCode(s, k);
    if s.zn <= LONGEST && s.zvec <= LimitOf(t, s.zn) && 0 <= p < TABLE_SIZE && p < |t.perm| {
      SymbolInRange(s, p);
      TakeStays(s, t.perm[p]);
      TakeInRunStays(s, t.perm[p]);
    }
  }

  lemma AdvanceStays(s: State, v: nat)
    requires Waiting(s) && Past(s.at)
    ensures StaysPast(Advance(s, v), s.nSelectors)
  {
    hide Chars, MinLen, CheckCode, GoodLengths;
    match s.at
    case Mtf(k) =>
      if k % 2 == 1 { CheckStays(s.(zvec := v), k); } else { CheckStays(s.(zvec := s.zvec * 2 + v), k - 1); }
    case _ =>
  }

  lemma {:induction false} PastCells(s: State, w: seq<bool>)
    requires Waiting(s) && Past(s.at)
    ensures Cells(s, w) == {}
    decreases |w|
  {
    hide Advance, Good;
    if |w| >= Need(s) {
      var v := Value(w[..Need(s)]);
      AdvanceMoves(s, v);
      AdvanceStays(s, v);
      var o := Advance(s, v);
      if o.Continue? { PastCells(o.s, w[Need(s)..]); }
    }
  }

  // The ranks.

  /** How many ranks w begins with, j bits of the first one having been read: until the bits end,
      or a rank is not below the number of groups. */
  function RanksIn(w: seq<bool>, j: int, nGroups: int): nat {
    if w == [] then 0
    else if !w[0] then 1 + RanksIn(w[1..], 0, nGroups)
    else if j + 1 >= nGroups then 0
    else RanksIn(w[1..], j + 1, nGroups)
  }

  /** What a bit of a rank leads to. */
  lemma RankBit(s: State, b: bool)
    requires Waiting(s) && s.at == Selector3
    ensures var v := if b then 1 else 0; var o := Advance(s, v); var k := |s.selectorMtf|;
      && Need(s) == 1 && k < s.nSelectors && Moves(o)
      && (b && s.j + 1 >= s.nGroups ==> o == Return(DataError, s.(j := s.j + 1)))
      && (b && s.j + 1 < s.nGroups ==> o == Continue(s.(j := s.j + 1)))
      && (!b && k + 1 < s.nSelectors ==> o == Continue(s.(selectorMtf := s.selectorMtf + [s.j], j := 0)))
      && (!b && k + 1 == s.nSelectors ==> o.Continue? && Past(o.s.at) && o.s.nSelectors == s.nSelectors)
  {
    AdvanceMoves(s, if b then 1 else 0);
    hide Chars, MoveToFront.Symbols;
  }

  lemma NoCells(s: State, w: seq<bool>)
    requires Waiting(s) && |w| < Need(s)
    ensures Cells(s, w) == {}
  {
  }

  /** The cells stored into while ranks are read, and then the selectors. */
  lemma {:induction false} RankCells(s: State, w: seq<bool>)
    requires Waiting(s) && s.at == Selector3
    ensures var k, r := |s.selectorMtf|, RanksIn(w, s.j, s.nGroups);
      Cells(s, w) == if k + r >= s.nSelectors then UpTo(s.nSelectors) else UpTo(k + r) - UpTo(k)
    decreases |w|
  {
    hide Advance, Cells, Good, Waiting;
    RankBit(s, false);
    RankBit(s, true);
    if w == [] {
      NoCells(s, w);
    } else {
      BitCells(s, w);
      var o := Advance(s, if w[0] then 1 else 0);
      if o.Continue? {
        if Past(o.s.at) { PastCells(o.s, w[1..]); } else { RankCells(o.s, w[1..]); }
      }
    }
  }

  function Least(a: nat, b: nat): nat {
    if a <= b then a else b
  }

  lemma CountStep(s: State, v: nat)
    requires Waiting(s) && s.at == Selector2
    ensures var s1 := s.(nSelectors := v, j := 0, selectorMtf := [], at := Selector3);
      && Need(s) == 15 && StepCells(s, v) == {} && Moves(Advance(s, v))
      && Advance(s, v) == (if v < 1 then Return(DataError, s.(nSelectors := v)) else Continue(s1))
      && (v >= 1 ==> Waiting(s1))
  {
    hide Chars;
  }

  /** The cells stored into from the number v of selectors on: as many as there are ranks, but no
      more than v. */
  lemma CountCells(s: State, v: nat, x: seq<bool>)
    requires Waiting(s) && s.at == Selector2 && v < Pow2(15)
    ensures Cells(s, Word(v, 15) + x) == UpTo(Least(v, RanksIn(x, 0, s.nGroups)))
  {
    hide Advance, Cells, Chars, Good, RanksIn, Word;
    CountStep(s, v);
    WordCells(s, v, 15, x);
    if v > 0 { RankCells(s.(nSelectors := v, j := 0, selectorMtf := [], at := Selector3), x); }
  }

  /** All stores of a run are inside the arrays exactly when the number of selectors fits, or no more
      ranks than fit are complete before the bits end or one is damaged. */
  lemma InsideExactly(s: State, v: nat, x: seq<bool>)
    requires Waiting(s) && s.at == Selector2 && v < Pow2(15)
    ensures Inside(Cells(s, Word(v, 15) + x)) <==> v <= MAX_SELECTORS || RanksIn(x, 0, s.nGroups) <= MAX_SELECTORS
  {
    hide Cells, RanksIn, Waiting, Word;
    CountCells(s, v, x);
    if v > MAX_SELECTORS && RanksIn(x, 0, s.nGroups) > MAX_SELECTORS {
      assert MAX_SELECTORS in UpTo(Least(v, RanksIn(x, 0, s.nGroups)));
    }
  }

  lemma {:induction false} RanksOfZeros(n: nat, nGroups: int)
    ensures RanksIn(Zeros(n), 0, nGroups) == n
  {
    if n > 0 {
      assert Zeros(n)[1..] == Zeros(n - 1);
      RanksOfZeros(n - 1, nGroups);
    }
  }

  /** An input whose stores are not all inside: one selector too many, and as many zero bits. */
  lemma OneTooMany(s: State)
    requires Waiting(s) && s.at == Selector2
    ensures MAX_SELECTORS in Cells(s, Word(MAX_SELECTORS + 1, 15) + Zeros(MAX_SELECTORS + 1))
  {
    hide Cells, RanksIn, Waiting, Word;
    Pow2Fifteen();
    CountCells(s, MAX_SELECTORS + 1, Zeros(MAX_SELECTORS + 1));
    RanksOfZeros(MAX_SELECTORS + 1, s.nGroups);
  }

  lemma Pow2Fifteen()
    ensures MAX_SELECTORS == 18002 && Pow2(15) == 0x8000
  {
    assert Pow2(7) == 128;
    Pow2Add(7, 8);
    ByteSize();
  }

  // Runs that come to the code lengths.

  lemma {:induction false} RanksGrow(y: seq<bool>, x: seq<bool>, j: int, nGroups: int)
    ensures RanksIn(y, j, nGroups) <= RanksIn(y + x, j, nGroups)
  {
    if y != [] {
      assert (y + x)[1..] == y[1..] + x;
      RanksGrow(y[1..], x, if y[0] then j + 1 else 0, nGroups);
    }
  }

  lemma {:induction false} ShortRanks(s: State, w: seq<bool>)
    requires Waiting(s) && s.at == Selector3 && Drive(s, w).Short? && Past(Drive(s, w).s.at)
    ensures |s.selectorMtf| + RanksIn(w, s.j, s.nGroups) >= s.nSelectors
    decreases |w|
  {
    hide Advance, Good, Drive, Value, Waiting;
    RankBit(s, false);
    RankBit(s, true);
    if w == [] {
      DriveShort(s, w);
    } else {
      var v := if w[0] then 1 else 0;
      assert w == [w[0]] + w[1..];
      StepBit(s, w[0], w[1..]);
      var o := Advance(s, v);
      if o.Continue? && !Past(o.s.at) { ShortRanks(o.s, w[1..]); }
    }
  }

  /** For a run that gets past the selectors, the number of selectors alone decides. */
  lemma InsideBeyond(s: State, v: nat, y: seq<bool>, x: seq<bool>)
    requires Waiting(s) && s.at == Selector2 && v < Pow2(15)
    requires var r := Drive(s, Word(v, 15) + y); r.Short? && Past(r.s.at)
    ensures Inside(Cells(s, Word(v, 15) + (y + x))) <==> v <= MAX_SELECTORS
  {
    hide Cells, Chars, Drive, RanksIn, Word, Inside;
    InsideExactly(s, v, y + x);
    StepWord(s, v, 15, y);
    var s1 := s.(nSelectors := v, j := 0, selectorMtf := [], at := Selector3);
    if v > 0 {
      ShortRanks(s1, y);
      RanksGrow(y, x, 0, s.nGroups);
    }
  }

  /** A run that completes a block has stored into as many cells as the block has selectors. */
  lemma {:induction false} DoneCells(s: State, w: seq<bool>)
    requires Waiting(s) && Drive(s, w).Done? && Drive(s, w).code == Ok
    ensures var n := Drive(s, w).s.nSelectors;
      && Cells(s, w) == (if Past(s.at) then {} else UpTo(n))
      && (Past(s.at) || s.at == Selector3 ==> n == s.nSelectors)
    decreases |w|
  {
    hide Advance, Good, Value;
    var v := Value(w[..Need(s)]);
    AdvanceMoves(s, v);
    var o := Advance(s, v);
    StepTells(s, v);
    if o.Continue? { DoneCells(o.s, w[Need(s)..]); }
  }

  // Runs that come to the end of the stream.

  /** Between blocks. */
  predicate Outer(at: Label) {
    at.Magic? || at.BlkHdr? || at.EndHdr? || at.CombCrc?
  }

  /** A run that comes to the end of the stream has stored into none. */
  lemma {:induction false} EndCells(s: State, w: seq<bool>)
    requires Waiting(s) && Drive(s, w).Done? && Drive(s, w).code == StreamEnd
    ensures Outer(s.at) && Cells(s, w) == {}
    decreases |w|
  {
    hide Advance, Good, Value;
    var v := Value(w[..Need(s)]);
    AdvanceMoves(s, v);
    var o := Advance(s, v);
    StepOuter(s, v);
    if o.Continue? { EndCells(o.s, w[Need(s)..]); }
  }

  lemma StepOuter(s: State, v: nat)
    requires Waiting(s)
    ensures var o := Advance(s, v);
      && (!Outer(s.at) ==> if o.Return? then o.code != StreamEnd else !Outer(o.s.at))
      && (Outer(s.at) ==> StepCells(s, v) == {})
  {
    hide Chars, MoveToFront.Symbols, AdvanceCodes, NextMap;
    if Past(s.at) {
      AdvanceStays(s, v);
    } else if s.at == Mapping1 || s.at == Mapping2 {
      MapTells(s, v);
    }
  }

  /** What a step tells of the number of selectors. */
  lemma StepTells(s: State, v: nat)
    requires Waiting(s)
    ensures var o, n := Advance(s, v), s.nSelectors;
      && (Past(s.at) ==> StaysPast(o, n) && StepCells(s, v) == {})
      && (!Past(s.at) && o.Return? ==> o.code != Ok)
      && (!Past(s.at) && s.at != Selector3 ==> StepCells(s, v) == {} && (o.Continue? ==> !Past(o.s.at)))
      && (s.at == Selector3 && o.Continue? ==> o.s.nSelectors == n && StepCells(s, v) <= UpTo(n))
      && (s.at == Selector3 && o.Continue? && o.s.at != Selector3 ==> Past(o.s.at) && StepCells(s, v) == UpTo(n))
  {
    hide Chars, MoveToFront.Symbols;
    if Past(s.at) {
      AdvanceStays(s, v);
    } else if s.at == Mapping1 || s.at == Mapping2 {
      MapTells(s, v);
    }
  }

  lemma MapTells(s: State, v: nat)
    requires Waiting(s) && (s.at == Mapping1 || s.at == Mapping2)
    ensures var o := Advance(s, v); if o.Return? then o.code == DataError else o.s.at in [Mapping1, Mapping2, Selector1]
  {
    hide Chars, NextMap;
    if s.at == Mapping1 {
      var s1 := s.(inUse16 := s.inUse16 + [v == 1]);
      if |s1.inUse16| == 16 { NextMapTells(s1.(inUse := []), 0); }
    } else {
      var s1 := s.(inUse := s.inUse + [v == 1], j := s.j + 1);
      if s1.j == 16 { NextMapTells(s1, s.i + 1); }
    }
  }

  lemma {:induction false} NextMapTells(s: State, i: int)
    requires |s.inUse16| == 16 && 0 <= i <= 16 && |s.inUse| == 16 * i
    ensures var o := NextMap(s, i); if o.Return? then o.code == DataError else o.s.at in [Mapping1, Mapping2, Selector1]
    decreases 16 - i
  {
    hide Chars;
    if i < 16 && !s.inUse16[i] { NextMapTells(s.(inUse := s.inUse + seq(16, k => false)), i + 1); }
  }

  // Runs on bytes.

  /** The cells that a run on some bytes stores into. */
  ghost function RunCells(m: Machine, bytes: seq<nat>): set<int>
    requires Ready(m)
    decreases 8 * |bytes| + m.live, |bytes|
  {
    var n := Need(m.s);
    if m.live >= n then
      var v := NextBits(m, n);
      AdvanceMoves(m.s, v);
      StepCells(m.s, v) + match Advance(m.s, v)
        case Return(_, _) => {}
        case Continue(s1) => RunCells(m.(s := s1, live := m.live - n), bytes)
    else if bytes == [] then {}
    else RunCells(Load(m, bytes[0]), bytes[1..])
  }

  /** They are those of the run on the bits. */
  lemma {:induction false} RunCellsAre(m: Machine, bytes: seq<nat>)
    requires Ready(m) && forall i :: 0 <= i < |bytes| ==> bytes[i] < 256
    ensures RunCells(m, bytes) == Cells(m.s, Pending(m) + BitsOf(bytes))
    decreases 8 * |bytes| + m.live, |bytes|
  {
    hide Cells, Advance, Good, Or, BitsOf, StepCells, Value, Pow2, Need, NextBits, Word;
    var n := Need(m.s);
    var w := Pending(m) + BitsOf(bytes);
    if m.live >= n {
      var v := NextBits(m, n);
      NextBitsValue(m, n);
      CellsNext(m.s, w);
      assert w[..n] == Pending(m)[..n] && w[n..] == Pending(m)[n..] + BitsOf(bytes);
      match Advance(m.s, v)
      case Return(code, s1) =>
      case Continue(s1) => RunCellsAre(m.(s := s1, live := m.live - n), bytes);
    } else if bytes == [] {
      NoBits();
      assert w == Pending(m);
      NoCells(m.s, w);
    } else {
      BitsOfFirst(bytes);
      LoadPending(m, bytes[0]);
      assert w == Pending(Load(m, bytes[0])) + BitsOf(bytes[1..]);
      RunCellsAre(Load(m, bytes[0]), bytes[1..]);
    }
  }

  lemma CellsNext(s: State, w: seq<bool>)
    requires Waiting(s) && |w| >= Need(s)
    ensures var v := Value(w[..Need(s)]);
      Moves(Advance(s, v)) && Cells(s, w) == StepCells(s, v) + OnwardCells(Advance(s, v), w[Need(s)..])
  {
    AdvanceMoves(s, Value(w[..Need(s)]));
  }

  lemma RunCellsNext(m: Machine, bytes: seq<nat>)
    requires Ready(m) && m.live >= Need(m.s)
    ensures var v := NextBits(m, Need(m.s)); var o := Advance(m.s, v);
      && Moves(o) && StepCells(m.s, v) <= RunCells(m, bytes)
      && (o.Continue? ==> RunCells(m.(s := o.s, live := m.live - Need(m.s)), bytes) <= RunCells(m, bytes))
  {
    hide Advance, Good, NextBits, Need, StepCells;
    AdvanceMoves(m.s, NextBits(m, Need(m.s)));
  }

  lemma RunCellsLoad(m: Machine, bytes: seq<nat>)
    requires Ready(m) && m.live < Need(m.s) && bytes != []
    ensures Ready(Load(m, bytes[0])) && RunCells(m, bytes) == RunCells(Load(m, bytes[0]), bytes[1..])
  {
    hide Good, Need, StepCells;
  }

  /** Nothing but these cells is different. */
  ghost predicate Spared<T>(a: seq<T>, b: seq<T>, cells: set<int>) {
    |a| == |b| && forall c :: 0 <= c < |a| && c !in cells ==> a[c] == b[c]
  }
}
