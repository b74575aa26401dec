/** What every run of the decoder keeps: a block size of one to nine, and a column of bytes that
    fits the block; a block that is handed out has its starting row inside the column. */
module ColumnBounds {
  import opened Bits
  import opened CanonicalCodes
  import opened CodeTables
  import opened Coroutine
  import opened Decompressor
  import opened MoveToFront
  import Rotations
  import opened SymbolMaps

  ghost predicate Bounded(s: State) {
    Rotations.Bytes(s.tt) && |s.tt| <= Capacity(s) && 1 <= s.blockSize100k <= 9
  }

  ghost predicate Kept(s: State) {
    && (s.at.Magic? || 1 <= s.blockSize100k <= 9)
    && (s.at.Mtf? || s.at == Output ==> Bounded(s))
    && (s.at == Output ==> s.origPtr < |s.tt|)
  }

  ghost predicate Keeps(o: Outcome) {
    && (o.Continue? ==> Kept(o.s))
    && (o.Return? && o.code == Ok ==> Kept(o.s) && o.s.at == Output)
    && (o.Return? && o.code == StreamEnd ==> o.s.at == Idle)
  }

  lemma CharBounds(s: State, k: int)
    requires |s.inUse| == 256
    ensures 0 <= CharOf(s, k) < 256
  {
    hide Chars, NInUse;
    CharsInRange(s.inUse);
    SameChars(s);
  }

  lemma SameChars(s: State)
    ensures NInUse(s) == |Chars(s.inUse)|
  {
  }

  lemma {:induction false} CharsInRange(inUse: seq<bool>)
    ensures forall k :: 0 <= k < |Chars(inUse)| ==> 0 <= Chars(inUse)[k] < |inUse|
  {
    if inUse != [] { CharsInRange(inUse[..|inUse| - 1]); }
  }

  lemma StartSymbolKeeps(s: State, k: int)
    requires Tabled(s) && Bounded(s)
    ensures Keeps(StartSymbol(s, k))
  {
    hide MinLen, Chars, GoodLengths;
  }

  lemma RunDigitKeeps(s: State, sym: int)
    requires Tabled(s) && Bounded(s)
    ensures Keeps(RunDigit(s, sym))
  {
    hide Chars, GoodLengths, StartSymbol;
    if s.N < N_LIMIT { StartSymbolKeeps(s.(es := s.es + (if sym == RUNA then 1 else 2) * s.N, N := s.N * 2), 3); }
  }

  lemma Appended(s: State, y: seq<int>, c: int, n: nat, es: int)
    requires Bounded(s) && |s.tt| + n <= Capacity(s) && 0 <= c < 256
    ensures Bounded(s.(y := y, tt := s.tt + Repeat(c, n), es := es))
  {
  }

  lemma TakeSymbolKeeps(s: State, sym: int)
    requires Tabled(s) && 0 <= sym < NInUse(s) + 2 && Bounded(s)
    ensures Keeps(TakeSymbol(s, sym))
  {
    hide Chars, GoodLengths, StartSymbol, Moved, Rotations.Bytes;
    InUseBound(s);
    if sym == RUNA || sym == RUNB {
      RunDigitKeeps(s.(es := -1, N := 1), sym);
    } else if sym != NInUse(s) + 1 && |s.tt| < Capacity(s) {
      MovedEntries(s.y, sym - 1);
      CharBounds(s, s.y[sym - 1]);
      Appended(s, Moved(s.y, sym - 1), CharOf(s, s.y[sym - 1]), 1, s.es);
      assert Repeat(CharOf(s, s.y[sym - 1]), 1) == [CharOf(s, s.y[sym - 1])];
      SameInUse(s, s.(y := Moved(s.y, sym - 1), tt := s.tt + [CharOf(s, s.y[sym - 1])]));
      StartSymbolKeeps(s.(y := Moved(s.y, sym - 1), tt := s.tt + [CharOf(s, s.y[sym - 1])]), 5);
    }
  }

  lemma PutRunKeeps(s: State)
    requires Tabled(s) && Bounded(s)
    ensures PutRun(s).Continue? ==> Tabled(PutRun(s).s) && Bounded(PutRun(s).s) && NInUse(PutRun(s).s) == NInUse(s)
    ensures PutRun(s).Return? ==> PutRun(s).code == DataError
  {
    hide Chars, GoodLengths, Rotations.Bytes, Repeat;
    CharBounds(s, s.y[0]);
    var n := s.es + 1;
    if n > 0 && n <= Capacity(s) - |s.tt| { Appended(s, s.y, CharOf(s, s.y[0]), n, 0); }
  }

  lemma TakeInRunKeeps(s: State, sym: int)
    requires Tabled(s) && 0 <= sym < NInUse(s) + 2 && Bounded(s)
    ensures Keeps(TakeInRun(s, sym))
  {
    hide Bounded, Kept, NInUse, PutRun, RunDigit, Tabled, TakeSymbol;
    if sym == RUNA || sym == RUNB {
      RunDigitKeeps(s, sym);
    } else {
      PutRunKeeps(s);
      if PutRun(s).Continue? { TakeSymbolKeeps(PutRun(s).s, sym); }
    }
  }

  lemma CheckCodeKeeps(s: State, k: int)
    requires Tabled(s) && 0 <= s.gSel < s.nGroups && Bounded(s)
    ensures Keeps(CheckCode(s, k))
  {
    hide GoodLengths, TakeInRun, TakeSymbol, TablesOf, NInUse, Rotations.Bytes;
    var t := TablesOf(s.len[s.gSel]);
    if s.zn <= LONGEST && s.zvec <= LimitOf(t, s.zn) {
      var p := s.zvec - BaseOf(t, s.zn);
      if 0 <= p < TABLE_SIZE && p < |t.perm| {
        SymbolInRange(s, p);
        if k == 3 { TakeInRunKeeps(s, t.perm[p]); } else { TakeSymbolKeeps(s, t.perm[p]); }
      }
    }
  }

  lemma {:induction false} NextMapKeeps(s: State, i: int)
    requires |s.inUse16| == 16 && 0 <= i <= 16 && |s.inUse| == 16 * i && 1 <= s.blockSize100k <= 9
    ensures Keeps(NextMap(s, i))
    decreases 16 - i
  {
    hide Bounded, Chars;
    if i < 16 && !s.inUse16[i] { NextMapKeeps(s.(inUse := s.inUse + seq(16, k => false)), i + 1); }
  }

  lemma TableDoneKeeps(s: State)
    requires Coding(s) && |s.cur| == NInUse(s) + 2 && GoodLengths(s.cur) && 1 <= s.blockSize100k <= 9
    ensures Keeps(TableDone(s))
  {
    hide Chars, GoodLengths, StartSymbol;
    var s1 := s.(len := s.len + [s.cur]);
    assert GoodTables(s1);
    if |s1.len| == s.nGroups {
      StartSymbolKeeps(s1.(groupNo := -1, groupPos := 0, y := Identity(256), tt := []), 1);
    }
  }

  lemma AdvanceTablesKeeps(s: State, v: nat)
    requires Good(s) && (s.at.Mapping1? || s.at.Mapping2? || s.at.Selector1? || s.at.Selector2? || s.at.Selector3?)
    requires 1 <= s.blockSize100k <= 9
    ensures Keeps(AdvanceTables(s, v))
  {
    hide Chars, NextMap, Symbols, Bounded;
    match s.at
    case Mapping1 =>
      var s1 := s.(inUse16 := s.inUse16 + [v == 1]);
      if |s1.inUse16| == 16 { NextMapKeeps(s1.(inUse := []), 0); }
    case Mapping2 =>
      var s1 := s.(inUse := s.inUse + [v == 1], j := s.j + 1);
      if s1.j == 16 { NextMapKeeps(s1, s.i + 1); }
    case _ =>
  }

  lemma AdvanceCodesKeeps(s: State, v: nat)
    requires Good(s) && (s.at.Coding1? || s.at.Coding2? || s.at.Coding3? || s.at.Mtf?) && Kept(s)
    ensures Keeps(AdvanceCodes(s, v))
  {
    hide Chars, TableDone, CheckCode, Rotations.Bytes;
    match s.at
    case Coding2 =>
      var s1 := s.(cur := s.cur + [s.curr]);
      if v == 0 && |s1.cur| == NInUse(s) + 2 { TableDoneKeeps(s1); }
    case Mtf(k) =>
      if k % 2 == 1 { CheckCodeKeeps(s.(zvec := v), k); } else { CheckCodeKeeps(s.(zvec := s.zvec * 2 + v), k - 1); }
    case _ =>
  }

  /** Moving on keeps the bounds, and hands out only complete blocks. */
  lemma AdvanceKeeps(s: State, v: nat)
    requires Waiting(s) && Kept(s)
    ensures Keeps(Advance(s, v))
  {
    hide AdvanceTables, AdvanceCodes, Chars, Bounded;
    match s.at
    case Mapping1 => AdvanceTablesKeeps(s, v);
    case Mapping2 => AdvanceTablesKeeps(s, v);
    case Selector1 => AdvanceTablesKeeps(s, v);
    case Selector2 => AdvanceTablesKeeps(s, v);
    case Selector3 => AdvanceTablesKeeps(s, v);
    case Coding1 => AdvanceCodesKeeps(s, v);
    case Coding2 => AdvanceCodesKeeps(s, v);
    case Coding3 => AdvanceCodesKeeps(s, v);
    case Mtf(k) => AdvanceCodesKeeps(s, v);
    case _ =>
  }

  /** Every run keeps the bounds, however many bytes it is given. */
  lemma {:induction false} RunKeeps(m: Machine, bytes: seq<nat>)
    requires Ready(m) && Kept(m.s)
    ensures var r := Coroutine.Run(m, bytes);
      && (r.starved ==> Ready(r.m) && Kept(r.m.s) && r.code == Ok && r.m.live < Need(r.m.s))
      && (!r.starved && r.code == Ok ==> Kept(r.m.s) && r.m.s.at == Output)
      && (!r.starved && r.code == StreamEnd ==> r.m.s.at == Idle)
    ensures var r := Coroutine.Run(m, bytes); r.m.live <= 32 && (r.rest == [] || !r.starved)
    ensures var r := Coroutine.Run(m, bytes); |r.rest| <= |bytes| && r.rest == bytes[|bytes| - |r.rest|..]
    ensures var r := Coroutine.Run(m, bytes); !r.starved ==> 8 * |r.rest| + r.m.live < 8 * |bytes| + m.live
    decreases 8 * |bytes| + m.live, |bytes|
  {
    hide Advance, Good, Kept, NextBits, Need;
    var n := Need(m.s);
    if m.live >= n {
      var v := NextBits(m, n);
      AdvanceMoves(m.s, v);
      AdvanceKeeps(m.s, v);
      RunNext(m, bytes);
      match Advance(m.s, v)
      case Return(code, s1) =>
      case Continue(s1) => RunKeeps(m.(s := s1, live := m.live - n), bytes);
    } else if bytes == [] {
      RunStarved(m);
    } else {
      RunLoad(m, bytes);
      RunKeeps(Load(m, bytes[0]), bytes[1..]);
    }
  }
}
