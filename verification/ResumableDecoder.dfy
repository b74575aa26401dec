/** The decoder as it runs: on arrays, with variables that a return to the caller loses unless they
    are saved.
 */
module ResumableDecoder {
  import opened BitWriters
  import opened CanonicalCodes
  import opened CodeTables
  import opened ColumnBounds
  import opened Coroutine
  import opened Counters
  import opened Decompressor
  import opened DecoderSteps
  import opened DecoderStore
  import opened MoveToFront
  import SelectorCells
  import opened SlicedList
  import opened SymbolMaps
  import opened Words

  class DState {
    var state: Label
    var blockSize100k: int
    var storedBlockCRC: nat
    var storedCombinedCRC: nat
    var blockRandomised: bool
    var origPtr: nat
    const inUse16: array<bool>
    const inUse: array<bool>
    var nInUse: int
    const seqToUnseq: array<int>
    const selectorMtf: array<nat>
    const selector: array<int>
    var len: seq<seq<nat>>
    var tables: seq<Tables>
    var minLens: seq<nat>
    const mtfa: array<int>
    const mtfbase: array<int>
    const tt: array<int>
    var save: Saved
    var bsBuff: nat
    var bsLive: nat
    const totalIn: Counter
    ghost var s: State

    ghost function Now(): Store
      reads this`state, this`blockSize100k, this`storedBlockCRC, this`storedCombinedCRC, this`blockRandomised
      reads this`origPtr
      reads this`nInUse, this`len, this`tables, this`minLens
      reads inUse16, inUse, seqToUnseq, selectorMtf, selector, mtfa, mtfbase, tt
    {
      Store(state, blockSize100k, storedBlockCRC, storedCombinedCRC, blockRandomised, origPtr,
            inUse16[..], inUse[..], nInUse, seqToUnseq[..], selectorMtf[..], selector[..],
            len, tables, minLens, mtfa[..], mtfbase[..], tt[..])
    }

    ghost predicate Apart() {
      inUse16 != inUse && seqToUnseq != selector && mtfa != mtfbase && mtfa != seqToUnseq && mtfa != selector &&
        mtfa != tt
      && mtfbase != seqToUnseq && mtfbase != selector && mtfbase != tt && tt != seqToUnseq && tt != selector
    }

    /** The stream header. */
    method AtMagic(l: Saved, x: Scratch, v: nat) returns (turn: Turn, l': Saved, x': Scratch)
      requires Shaped(Now()) && Common(s, Now()) && (s.at.Magic?)
      modifies this`state, this`blockSize100k
      ensures Meets(AdvanceHeader(s, v), turn, l', Now())
    {
      hide Chars, CodeRead, ColumnSoFar, MapBits, MapKnown, RanksRead, RowRead, Rows, SelectorsKnown;
      x' := x.(uc := v);
      l' := l;
      turn := Going;
      var k := state.k;
      if k == 1 {
        if x'.uc != HDR_B { turn := Back(DataErrorMagic); } else { state := Magic(2); }
      } else if k == 2 {
        if x'.uc != HDR_Z { turn := Back(DataErrorMagic); } else { state := Magic(3); }
      } else if k == 3 {
        if x'.uc != HDR_H { turn := Back(DataErrorMagic); } else { state := Magic(4); }
      } else {
        blockSize100k := v;
        if blockSize100k < HDR_0 + 1 || blockSize100k > HDR_0 + 9 {
          turn := Back(DataErrorMagic);
        } else {
          blockSize100k := blockSize100k - HDR_0;
          state := BlkHdr(1);
        }
      }
    }

    /** A block's magic number. */
    method AtBlockHeader(l: Saved, x: Scratch, v: nat) returns (turn: Turn, l': Saved, x': Scratch)
      requires Shaped(Now()) && Common(s, Now()) && (s.at.BlkHdr?)
      modifies this`state, this`storedBlockCRC
      ensures Meets(AdvanceHeader(s, v), turn, l', Now())
    {
      hide Chars, CodeRead, ColumnSoFar, MapBits, MapKnown, RanksRead, RowRead, Rows, SelectorsKnown;
      x' := x.(uc := v);
      l' := l;
      turn := Going;
      var k := state.k;
      if k == 1 && x'.uc == EndMagic(1) {
        state := EndHdr(2);
      } else if x'.uc != BlockMagic(k) {
        turn := Back(DataError);
      } else if k < 6 {
        state := BlkHdr(k + 1);
      } else {
        storedBlockCRC := 0;
        state := BlkCrc(1);
      }
    }

    /** A block's check value and the bit after it. */
    method AtBlockCrc(l: Saved, x: Scratch, v: nat) returns (turn: Turn, l': Saved, x': Scratch)
      requires Shaped(Now()) && Common(s, Now()) && (s.at.BlkCrc? || s.at.RandBit?)
      modifies this`state, this`storedBlockCRC, this`blockRandomised, this`origPtr
      ensures Meets(AdvanceHeader(s, v), turn, l', Now())
    {
      hide Chars, CodeRead, ColumnSoFar, MapBits, MapKnown, RanksRead, RowRead, Rows, SelectorsKnown;
      x' := x.(uc := v);
      l' := l;
      turn := Going;
      if state.RandBit? {
        blockRandomised := v == 1;
        origPtr := 0;
        state := OrigPtr(1);
      } else {
        storedBlockCRC := (storedBlockCRC * 256 + x'.uc) % Decompressor.WORD;
        state := if state.k < 4 then BlkCrc(state.k + 1) else RandBit;
      }
    }

    /** Where the block starts. */
    method AtPointer(l: Saved, x: Scratch, v: nat) returns (turn: Turn, l': Saved, x': Scratch)
      requires Shaped(Now()) && Common(s, Now()) && (s.at.OrigPtr?)
      modifies this`state, this`origPtr
      ensures Meets(AdvanceHeader(s, v), turn, l', Now())
    {
      hide Shaped, Meets, AdvanceHeader, Live;
      PointerMeets(s, v, Now(), l);
      ghost var st := Now();
      x' := x.(uc := v);
      l' := l;
      turn := Going;
      origPtr := origPtr * 256 + x'.uc;
      if state.k < 3 {
        state := OrigPtr(state.k + 1);
      } else if origPtr > 10 + 100000 * blockSize100k {
        turn := Back(DataError);
      } else {
        l' := l.(i := 0);
        state := Mapping1;
      }
      assert Now() == st.(at := state, origPtr := origPtr);
    }

    /** The end of the stream. */
    method AtEndHeader(l: Saved, x: Scratch, v: nat) returns (turn: Turn, l': Saved, x': Scratch)
      requires Shaped(Now()) && Common(s, Now()) && s.at.EndHdr?
      modifies this`state, this`storedCombinedCRC
      ensures Meets(AdvanceHeader(s, v), turn, l', Now())
    {
      hide Chars, CodeRead, ColumnSoFar, MapBits, MapKnown, RanksRead, RowRead, Rows, SelectorsKnown;
      x' := x.(uc := v);
      l' := l;
      turn := Going;
      if x'.uc != EndMagic(state.k) {
        turn := Back(DataError);
      } else if state.k < 6 {
        state := EndHdr(state.k + 1);
      } else {
        storedCombinedCRC := 0;
        state := CombCrc(1);
      }
    }

    method AtCombined(l: Saved, x: Scratch, v: nat) returns (turn: Turn, l': Saved, x': Scratch)
      requires Shaped(Now()) && Common(s, Now()) && s.at.CombCrc?
      modifies this`state, this`storedCombinedCRC
      ensures Meets(AdvanceHeader(s, v), turn, l', Now())
    {
      hide Shaped, Meets, AdvanceHeader, Live;
      ghost var st := Now();
      var k := state.k;
      x' := x.(uc := v);
      l' := l;
      turn := Going;
      storedCombinedCRC := (storedCombinedCRC * 256 + x'.uc) % Decompressor.WORD;
      if k < 4 {
        state := CombCrc(k + 1);
      } else {
        state := Idle;
        turn := Back(StreamEnd);
      }
      assert Now() == st.(at := state, storedCombinedCRC := storedCombinedCRC);
      CombinedMeets(s, v, st, l);
    }

    /** Another of the 16 groups of byte values. */
    method AtMapping1(l: Saved, x: Scratch, v: nat) returns (turn: Turn, l': Saved, x': Scratch)
      requires Shaped(Now()) && s.at == Mapping1 && Good(s) && Live(s, l, Now()) && Apart()
      modifies this`state, this`nInUse, inUse16, inUse, seqToUnseq
      ensures Meets(AdvanceTables(s, v), turn, l', Now())
    {
      hide Chars, CodeRead, ColumnSoFar, MapBits, MapKnown, RanksRead, RowRead, Rows, SelectorsKnown,
        Decompressor.NextMap;
      FirstMap(s, l, Now(), v == 1);
      x' := x.(uc := v);
      ghost var st := Now();
      inUse16[l.i] := x'.uc == 1;
      l' := l.(i := l.i + 1);
      ghost var s1 := s.(inUse16 := s.inUse16 + [v == 1]);
      assert Now() == st.(inUse16 := st.inUse16[l.i := v == 1]);
      if l'.i < 16 { return Going, l', x'; }
      AllMapped(s1, Now());
      ghost var st1 := Now();
      for i := 0 to 256
        invariant forall c :: 0 <= c < i ==> !inUse[c]
        invariant Now().(inUse := st1.inUse) == st1
        modifies inUse
      {
        inUse[i] := false;
      }
      l' := l'.(i := 0);
      turn, l' := NextMap(l', s1.(inUse := []));
    }

    /** To the next group of 16 byte values that has any in use; after the last one, the map. */
    method NextMap(l: Saved, ghost s0: State) returns (turn: Turn, l': Saved)
      requires Shaped(Now()) && Apart() && Common(s0, Now()) && |s0.inUse16| == 16 && Now().inUse16 == s0.inUse16
      requires 0 <= l.i <= 16 && |s0.inUse| == 16 * l.i && MapSoFar(s0, 16 * l.i, Now())
      modifies this`state, this`nInUse, seqToUnseq
      ensures Meets(Decompressor.NextMap(s0, l.i), turn, l', Now())
    {
      hide Chars, Common, Live, MapSoFar, Meets, Shaped, Decompressor.NextMap;
      l' := l;
      ghost var s1 := s0;
      ghost var st := Now();
      ShapedMap(st);
      while l'.i < 16 && !inUse16[l'.i]
        invariant l.i <= l'.i <= 16 && l' == l.(i := l'.i) && |s1.inUse16| == 16 && |s1.inUse| == 16 * l'.i
        invariant Common(s1, st) && st.inUse16 == s1.inUse16 && MapSoFar(s1, 16 * l'.i, st)
        invariant Decompressor.NextMap(s0, l.i) == Decompressor.NextMap(s1, l'.i) && Now() == st
        decreases 16 - l'.i
      {
        MapSkip(s1, l'.i, st);
        NextMapSkips(s1, l'.i, st);
        s1 := s1.(inUse := s1.inUse + seq(16, k => false));
        l' := l'.(i := l'.i + 1);
      }
      if l'.i < 16 {
        NextMapFound(s1, l', st);
        l' := l'.(j := 0);
        state := Mapping2;
        assert Now() == st.(at := Mapping2);
        return Going, l';
      }
      MapDone(s1, st);
      nInUse := MakeMapsD(inUse, seqToUnseq);
      NextMapEnds(s1, l', st, nInUse, seqToUnseq[..]);
      if nInUse == 0 {
        assert Now() == st.(nInUse := nInUse, seqToUnseq := seqToUnseq[..]);
        return Back(DataError), l';
      }
      l' := l'.(alphaSize := nInUse + 2);
      state := Selector1;
      turn := Going;
      assert Now() == st.(at := Selector1, nInUse := nInUse, seqToUnseq := seqToUnseq[..]);
    }
  
    /** Another byte value. */
    method AtMapping2(l: Saved, x: Scratch, v: nat) returns (turn: Turn, l': Saved, x': Scratch)
      requires Shaped(Now()) && s.at == Mapping2 && Good(s) && Live(s, l, Now()) && Apart()
      modifies this`state, this`nInUse, inUse, seqToUnseq
      ensures Meets(AdvanceTables(s, v), turn, l', Now())
    {
      hide Chars, CodeRead, ColumnSoFar, MapSoFar, RanksRead, RowRead, Rows, SelectorsKnown, Decompressor.NextMap;
      ghost var st := Now();
      MapNext(s, l, st, v == 1);
      x' := x.(uc := v);
      if x'.uc == 1 { inUse[16 * l.i + l.j] := true; }
      assert Now() == if v == 1 then st.(inUse := st.inUse[16 * l.i + l.j := true]) else st;
      l' := l.(j := l.j + 1);
      if l'.j < 16 { return Going, l', x'; }
      l' := l'.(i := l'.i + 1);
      turn, l' := NextMap(l', s.(inUse := s.inUse + [v == 1], j := s.j + 1));
    }

    /** How many groups. */
    method AtSelector1(l: Saved, x: Scratch, v: nat) returns (turn: Turn, l': Saved, x': Scratch)
      requires Shaped(Now()) && s.at == Selector1 && Good(s) && Live(s, l, Now())
      modifies this`state
      ensures Meets(AdvanceTables(s, v), turn, l', Now())
    {
      hide Chars, CodeRead, ColumnSoFar, MapBits, RanksRead, RowRead, Rows, SelectorsKnown;
      x' := x;
      l' := l.(nGroups := v);
      if l'.nGroups < 2 || l'.nGroups > 6 { return Back(DataError), l', x'; }
      state := Selector2;
      turn := Going;
    }

    /** How many selectors. */
    method AtSelector2(l: Saved, x: Scratch, v: nat) returns (turn: Turn, l': Saved, x': Scratch)
      requires Shaped(Now()) && s.at == Selector2 && Good(s) && Live(s, l, Now()) && v < SELECTOR_CELLS
      modifies this`state
      ensures Meets(AdvanceTables(s, v), turn, l', Now())
    {
      hide Chars, CodeRead, ColumnSoFar, MapBits, RowRead, Rows, SelectorsKnown;
      x' := x;
      l' := l.(nSelectors := v);
      if l'.nSelectors < 1 { return Back(DataError), l', x'; }
      l' := l'.(i := 0, j := 0);
      state := Selector3;
      turn := Going;
    }

    /** Another bit of a selector's rank. */
    method AtSelector3(l: Saved, x: Scratch, v: nat) returns (turn: Turn, l': Saved, x': Scratch)
      requires Shaped(Now()) && s.at == Selector3 && Good(s) && Live(s, l, Now()) && Apart()
      modifies this`state, selectorMtf, selector
      ensures Meets(AdvanceTables(s, v), turn, l', Now())
      ensures SelectorCells.Spared(old(selectorMtf[..]), selectorMtf[..], SelectorCells.StepCells(s, v))
      ensures SelectorCells.Spared(old(selector[..]), selector[..], SelectorCells.StepCells(s, v))
    {
      hide Chars, CodeRead, ColumnSoFar, MapBits, RowRead, Rows, SelectorsKnown, SelectorsDone;
      x' := x.(uc := v);
      l' := l;
      turn := Going;
      if x'.uc != 0 {
        l' := l.(j := l.j + 1);
        if l'.j >= l'.nGroups { turn := Back(DataError); }
        return;
      }
      ghost var st := Now();
      RankNext(s, l, st);
      selectorMtf[l.i] := l.j;
      assert Now() == st.(selectorMtf := st.selectorMtf[l.i := l.j]);
      l' := l.(i := l.i + 1);
      ghost var s1 := s.(selectorMtf := s.selectorMtf + [s.j], j := 0);
      if l'.i < l'.nSelectors {
        l' := l'.(j := 0);
      } else {
          l' := UndoSelectors(l', s1);
      }
    }
  
    /** Undoes the move-to-front coding of the selectors. */
    method UndoSelectors(l: Saved, ghost s1: State) returns (l': Saved)
      requires Shaped(Now()) && Common(s1, Now()) && MapKnown(s1, l, Now()) && Grouped(s1) && s1.nSelectors >= 1
      requires l.nGroups == s1.nGroups && l.nSelectors == s1.nSelectors == |s1.selectorMtf| < SELECTOR_CELLS
      requires Now().selectorMtf[..l.nSelectors] == s1.selectorMtf && MoveToFront.Below(s1.selectorMtf, s1.nGroups)
      modifies this`state, selector
      ensures Shaped(Now()) && Live(SelectorsDone(s1), l', Now())
      ensures SelectorCells.Spared(old(selector[..]), selector[..], SelectorCells.UpTo(l.nSelectors))
    {
      hide Chars, CodeRead, ColumnSoFar, MapBits, RanksRead, RowRead, Moved, DecoderSteps.Undoing, Shifted;
      ghost var st := Now();
      ghost var mtf := s1.selectorMtf;
      var pos := new int[l.nGroups](v => v);
      assert pos[..] == Identity(l.nGroups);
      UndoingStart(l.nGroups, mtf, selector[..]);
      for i := 0 to l.nSelectors
        invariant DecoderSteps.Undoing(l.nGroups, mtf, i, pos[..], selector[..])
        invariant SelectorCells.Spared(st.selector, selector[..], SelectorCells.UpTo(l.nSelectors))
        modifies pos, selector
      {
        assert selectorMtf[i] == st.selectorMtf[..l.nSelectors][i] == mtf[i];
        ghost var p, sel := pos[..], selector[..];
        UndoingNext(l.nGroups, mtf, i, p, sel);
        var tmp := PosToFront(pos, selectorMtf[i]);
        selector[i] := tmp;
        assert selector[..] == sel[i := tmp];
      }
      UndoingDone(l.nGroups, mtf, selector[..], pos[..]);
      assert selector[..][..l.nSelectors] == selector[..l.nSelectors];
      l' := l.(t := 0);
      state := Coding1;
    }

    method PosToFront(pos: array<int>, v0: nat) returns (tmp: int)
      requires v0 < pos.Length
      modifies pos
      ensures tmp == old(pos[v0]) && pos[..] == Moved(old(pos[..]), v0)
    {
      hide Moved;
      ghost var p0 := pos[..];
      var v := v0;
      tmp := pos[v];
      while v > 0
        invariant Shifted(p0, pos[..], v0, v)
        modifies pos
      {
        pos[v] := pos[v - 1];
        v := v - 1;
      }
      ghost var p := pos[..];
      ShiftedDone(p0, p, v0);
      pos[0] := tmp;
      assert pos[..] == p[0 := tmp];
    }
  
    /** Before a code length changes or ends. */
    method CheckLength(l: Saved, ghost s0: State) returns (turn: Turn)
      requires Shaped(Now()) && Common(s0, Now()) && MapKnown(s0, l, Now()) && SelectorsKnown(s0, l, Now())
      requires Rows(s0, l.alphaSize, Now()) && RowRead(s0, l, Now())
      modifies this`state
      ensures Meets(Decompressor.CheckLength(s0), turn, l, Now())
    {
      hide Chars, CodeRead, ColumnSoFar, MapBits, RanksRead;
      if l.curr < 1 || l.curr > 20 { return Back(DataError); }
      state := Coding2;
      turn := Going;
    }

    /** A table's first code length. */
    method AtCoding1(l: Saved, x: Scratch, v: nat) returns (turn: Turn, l': Saved, x': Scratch)
      requires Shaped(Now()) && s.at == Coding1 && Good(s) && Live(s, l, Now())
      modifies this`state
      ensures Meets(AdvanceCodes(s, v), turn, l', Now())
    {
      hide Chars, CodeRead, ColumnSoFar, MapBits, RanksRead, Decompressor.CheckLength;
      x' := x;
      l' := l.(curr := v, i := 0);
      assert len[l.t][..0] == [];
      turn := CheckLength(l', s.(curr := v, cur := []));
    }

    /** The length goes up or down. */
    method AtCoding3(l: Saved, x: Scratch, v: nat) returns (turn: Turn, l': Saved, x': Scratch)
      requires Shaped(Now()) && s.at == Coding3 && Good(s) && Live(s, l, Now())
      modifies this`state
      ensures Meets(AdvanceCodes(s, v), turn, l', Now())
    {
      hide Chars, CodeRead, ColumnSoFar, MapBits, RanksRead, Decompressor.CheckLength;
      x' := x.(uc := v);
      l' := if x'.uc == 0 then l.(curr := l.curr + 1) else l.(curr := l.curr - 1);
      turn := CheckLength(l', s.(curr := if v == 0 then s.curr + 1 else s.curr - 1));
    }

    /** Writes down a length. */
    method TakeLength(l: Saved, ghost s1: State) returns (l': Saved)
      requires Shaped(Now()) && s.at == Coding2 && Good(s) && Live(s, l, Now()) && s1 == s.(cur := s.cur + [s.curr])
      modifies this`len
      ensures Shaped(Now()) && Common(s1, Now()) && MapKnown(s1, l', Now()) && SelectorsKnown(s1, l', Now())
      ensures Rows(s1, l'.alphaSize, Now()) && RowRead(s1, l', Now()) && l'.alphaSize == NInUse(s1) + 2 <= TABLE_SIZE
      ensures Coding(s1) && GoodLengths(s1.cur)
    {
      hide Chars, MapKnown, SelectorsKnown, GoodLengths, GoodTables, CodeRead;
      ghost var st := Now();
      LengthRead(s, l, st, l.curr);
      LengthGood(s);
      var row: seq<nat> := len[l.t][l.i := l.curr];
      len := len[l.t := row];
      assert Now() == st.(len := st.len[l.t := row]);
      l' := l.(i := l.i + 1);
      MapSame(s1, s1, l, l', Now());
      SelectorsSame(s1, s1, l, l', Now());
      AlphaIs(s1, l', Now());
    }

    /** The length changes, or it is known. */
    method AtCoding2(l: Saved, x: Scratch, v: nat) returns (turn: Turn, l': Saved, x': Scratch)
      requires Shaped(Now()) && s.at == Coding2 && Good(s) && Live(s, l, Now()) && Apart()
      modifies this`state, this`len, this`tables, this`minLens, mtfa, mtfbase
      ensures Meets(AdvanceCodes(s, v), turn, l', Now())
    {
      hide Chars, CodeRead, ColumnSoFar, MapBits, RanksRead, Decompressor.CheckLength, Decompressor.TableDone,
        GoodLengths, GoodTables;
      x' := x.(uc := v);
      l' := l;
      if x'.uc != 0 {
        state := Coding3;
        return Going, l', x';
      }
      ghost var s1 := s.(cur := s.cur + [s.curr]);
      l' := TakeLength(l, s1);
      if l'.i < l'.alphaSize {
        turn := CheckLength(l', s1);
      } else {
        turn, l', x' := TableDone(l', x', s1);
      }
    }

    /** A table's lengths are known. */
    method TableDone(l: Saved, x: Scratch, ghost s1: State) returns (turn: Turn, l': Saved, x': Scratch)
      requires Shaped(Now()) && Common(s1, Now()) && MapKnown(s1, l, Now()) && SelectorsKnown(s1, l, Now()) && Apart()
      requires Rows(s1, l.alphaSize, Now()) && l.t == |s1.len| < N_GROUPS && |s1.cur| == l.alphaSize <= TABLE_SIZE
      requires Now().len[l.t][..l.alphaSize] == s1.cur && Coding(s1) && |s1.cur| == NInUse(s1) + 2
      requires GoodLengths(s1.cur)
      modifies this`state, this`tables, this`minLens, mtfa, mtfbase
      ensures Meets(Decompressor.TableDone(s1), turn, l', Now())
    {
      hide Chars, CodeRead, ColumnSoFar, MapBits, RanksRead, RowRead, Decompressor.FirstSymbol, GoodLengths;
      x' := x;
      RowDone(s1, l, Now());
      l' := l.(t := l.t + 1);
      MapSame(s1, s1.(len := s1.len + [s1.cur]), l, l', Now());
      ghost var s2 := s1.(len := s1.len + [s1.cur]);
      assert GoodTables(s2);
      if l'.t < l'.nGroups {
        state := Coding1;
        turn := Going;
      } else {
        turn, l', x' := FirstSymbol(l', x', s2);
      }
    }

    /** The shortest and the longest length. */
    method FindMinMax(row: seq<nat>, alphaSize: int, x: Scratch) returns (x': Scratch)
      requires 0 <= alphaSize <= |row|
      ensures x'.minLen == MinLen(row[..alphaSize]) && x'.maxLen == MaxLen(row[..alphaSize])
    {
      x' := x.(minLen := 32, maxLen := 0);
      for i := 0 to alphaSize
        invariant x'.minLen == MinLen(row[..i]) && x'.maxLen == MaxLen(row[..i])
      {
        assert row[..i + 1] == row[..i] + [row[i]] && row[..i + 1][..i] == row[..i];
        if row[i] > x'.maxLen { x' := x'.(maxLen := row[i]); }
        if row[i] < x'.minLen { x' := x'.(minLen := row[i]); }
      }
    }

    /** One group's decode tables. */
    method MakeTables(row: seq<nat>, alphaSize: int, x: Scratch) returns (tb: Tables, minLen: nat, x': Scratch)
      requires 2 <= alphaSize <= TABLE_SIZE == |row| && forall i :: 0 <= i < alphaSize ==> 1 <= row[i] <= LONGEST
      ensures Agree(tb, row[..alphaSize]) && minLen == MinLen(row[..alphaSize])
    {
      hide TablesOf, TablesFor, Shorter, Times, First, Agree, MinLen, MaxLen;
      ghost var r := row[..alphaSize];
      x' := FindMinMax(row, alphaSize, x);
      var length := new nat[TABLE_SIZE](i requires 0 <= i < |row| => row[i]);
      assert length[..alphaSize] == r;
      MinMax(r);
      MinMaxWithin(r, 1, LONGEST);
      var limit, base, perm := new int[TABLE_SIZE], new int[TABLE_SIZE], new int[TABLE_SIZE];
      CreateDecodeTables(limit, base, perm, length, x'.minLen, x'.maxLen, alphaSize);
      tb := Tables(limit[..], base[..], perm[..]);
      BuiltAgree(tb, r);
      minLen := x'.minLen;
    }
  
    /** All groups' decode tables. */
    method AllTables(l: Saved, x: Scratch, ghost s0: State) returns (x': Scratch)
      requires Shaped(Now()) && Rows(s0, l.alphaSize, Now()) && l.alphaSize == NInUse(s0) + 2 <= TABLE_SIZE
      requires GoodTables(s0)
      requires |s0.len| == l.nGroups <= N_GROUPS && NInUse(s0) >= 0
      modifies this`tables, this`minLens
      ensures Shaped(Now()) && TablesKnown(s0, Now())
    {
      hide Agree, MinLen, Rows, NInUse, GoodTables;
      x' := x;
      ghost var st := Now();
      for t := 0 to l.nGroups
        invariant |tables| == |minLens| == N_GROUPS && Now().(tables := st.tables, minLens := st.minLens) == st
        invariant forall r :: 0 <= r < t ==> Agree(tables[r], s0.len[r]) && minLens[r] == MinLen(s0.len[r])
      {
        RowsSize(s0, l.alphaSize, st);
        RowLengths(s0, l.alphaSize, st, t);
        var tb, m;
        tb, m, x' := MakeTables(len[t], l.alphaSize, x');
        tables := tables[t := tb];
        minLens := minLens[t := m];
      }
    }

    /** The first symbol, after all tables. */
    method FirstSymbol(l: Saved, x: Scratch, ghost s0: State) returns (turn: Turn, l': Saved, x': Scratch)
      requires Shaped(Now()) && Common(s0, Now()) && MapKnown(s0, l, Now()) && SelectorsKnown(s0, l, Now()) && Apart()
      requires Rows(s0, l.alphaSize, Now()) && Selected(s0) && |s0.len| == s0.nGroups && GoodTables(s0)
      modifies this`state, this`tables, this`minLens, mtfa, mtfbase
      ensures Meets(Decompressor.FirstSymbol(s0), turn, l', Now())
    {
      hide Chars, MapKnown, SelectorsKnown, Rows, GoodTables, TablesKnown, Spells, Decompressor.StartSymbol, Live,
        Identity, MinLen, Agree;
      AlphaIs(s0, l, Now());
      GroupsOf(s0, l, Now());
      ghost var st := Now();
      x' := AllTables(l, x, s0);
      ghost var st2 := Now();
      l' := l.(eob := nInUse + 1, nblockMAX := 100000 * blockSize100k, groupNo := -1, groupPos := 0, nblock := 0);
      Init(mtfa, mtfbase);
      ghost var s1 := s0.(groupNo := -1, groupPos := 0, y := Identity(256), tt := []);
      TabledFirst(s0);
      BetweenFirst(s0, l, l', st, Now(), st2);
      turn, l' := StartSymbol(l', 1, s1);
    }

    /** Before a symbol: every 50 symbols the next selector picks a group. */
    method StartSymbol(l: Saved, k: int, ghost s1: State) returns (turn: Turn, l': Saved)
      requires Shaped(Now()) && Common(s1, Now()) && Between(s1, l, Now()) && Tabled(s1) && k % 2 == 1
      requires k == 3 ==> l.es == s1.es && l.N == s1.N
      modifies this`state
      ensures Meets(Decompressor.StartSymbol(s1, k), turn, l', Now())
    {
      hide Between, Tabled, Live, MinLen;
      ghost var st := Now();
      BetweenFacts(s1, l, st);
      TabledGroups(s1);
      l' := l;
      if l'.groupPos == 0 {
        l' := l'.(groupNo := l'.groupNo + 1);
        if l'.groupNo >= l'.nSelectors { return Back(DataError), l'; }
        GroupPicked(s1, l, st);
        var g := selector[l'.groupNo];
        l' := l'.(groupPos := G_SIZE, gSel := g, gMinlen := minLens[g], gLimit := g, gPerm := g, gBase := g);
      }
      l' := l'.(groupPos := l'.groupPos - 1);
      l' := l'.(zn := l'.gMinlen);
      state := Mtf(k);
      turn := Going;
      SymbolStarted(s1, l, st, Decompressor.StartSymbol(s1, k).s, l', k);
    }
  
    /** One more digit of a run. */
    method RunDigit(l: Saved, sym: int, ghost s0: State) returns (turn: Turn, l': Saved)
      requires Shaped(Now()) && Common(s0, Now()) && Between(s0, l, Now()) && Tabled(s0)
      requires l.es == s0.es && l.N == s0.N && (sym == RUNA || sym == RUNB)
      modifies this`state
      ensures Meets(Decompressor.RunDigit(s0, sym), turn, l', Now())
    {
      hide Between, Tabled, Live, Decompressor.StartSymbol;
      l' := l;
      if l'.N >= 2 * 1024 * 1024 { return Back(DataError), l'; }
      if sym == RUNA { l' := l'.(es := l'.es + 1 * l'.N); } else { l' := l'.(es := l'.es + 2 * l'.N); }
      l' := l'.(N := l'.N * 2);
      ghost var s1 := s0.(es := l'.es, N := l'.N);
      RunSame(s0, l, Now(), l'.es, l'.N);
      turn, l' := StartSymbol(l', 3, s1);
    }

    /** A symbol read outside a run. */
    method TakeSymbol(l: Saved, x: Scratch, sym: int, ghost s0: State) returns (turn: Turn, l': Saved, x': Scratch)
      requires Shaped(Now()) && Common(s0, Now()) && Between(s0, l, Now()) && Tabled(s0) && Bounded(s0) && Apart()
      requires 0 <= sym < NInUse(s0) + 2
      modifies this`state, mtfa, mtfbase, tt
      ensures Meets(Decompressor.TakeSymbol(s0, sym), turn, l', Now())
    {
      hide Between, Tabled, Live, Bounded, Decompressor.StartSymbol, Decompressor.RunDigit, Spells, NInUse, CharOf,
        Moved;
      ghost var st := Now();
      x' := x;
      l' := l.(nextSym := sym);
      NextSymSame(s0, l, st, sym);
      SymbolFacts(s0, l', st);
      if l'.nextSym == l'.eob {
        turn := EndBlock(l', s0);
        return;
      }
      if l'.nextSym == RUNA || l'.nextSym == RUNB {
        l' := l'.(es := -1, N := 1);
        RunSame(s0, l.(nextSym := sym), st, -1, 1);
        turn, l' := RunDigit(l', sym, s0.(es := -1, N := 1));
        return;
      }
      if l'.nblock >= l'.nblockMAX { return Back(DataError), l', x'; }
      ghost var y := s0.y;
      var uc := Access(mtfa, mtfbase, l'.nextSym - 1, y);
      x' := x'.(uc := uc);
      CharTaken(s0, l', st, sym);
      tt[l'.nblock] := seqToUnseq[x'.uc];
      l' := l'.(nblock := l'.nblock + 1);
      ghost var s1 := s0.(y := Moved(y, sym - 1), tt := s0.tt + [CharOf(s0, y[sym - 1])]);
      SymbolTaken(s0, l.(nextSym := sym), st, s1, l', Now(), sym);
      turn, l' := StartSymbol(l', 5, s1);
    }

    /** All symbols of the block have been read. */
    method EndBlock(l: Saved, ghost s0: State) returns (turn: Turn)
      requires Shaped(Now()) && Common(s0, Now()) && ColumnSoFar(s0, l, Now())
      modifies this`state
      ensures Meets(Decompressor.EndBlock(s0), turn, l, Now())
    {
      hide CodeRead, MapBits, MapKnown, RanksRead, RowRead, Rows, SelectorsKnown;
      if origPtr >= l.nblock { return Back(DataError); }
      state := Output;
      turn := Back(Ok);
    }
  
    /** Outputs a run to the column; tells whether there was room. */
    method PutRun(l: Saved, x: Scratch, ghost s0: State) returns (fits: bool, l': Saved, x': Scratch)
      requires Shaped(Now()) && Common(s0, Now()) && Between(s0, l, Now()) && Tabled(s0) && Bounded(s0) && Apart()
      requires l.es == s0.es && NInUse(s0) >= 1
      modifies tt
      ensures Shaped(Now()) && fits == Decompressor.PutRun(s0).Continue?
      ensures !fits ==> Decompressor.PutRun(s0).code == DataError
      ensures fits ==> Common(Decompressor.PutRun(s0).s, Now()) && Between(Decompressor.PutRun(s0).s, l', Now())
    {
      hide Between, Tabled, Bounded, Spells, NInUse, CharOf, Repeat;
      ghost var st := Now();
      SymbolFacts(s0, l, st);
      FirstEntry(mtfa[..], mtfbase[..], s0.y);
      RunChar(s0, l, st);
      x' := x.(uc := seqToUnseq[mtfa[mtfbase[0]]]);
      l' := l.(es := l.es + 1);
      ghost var n := l'.es;
      ColumnRun(s0.tt, x'.uc, 0);
      RunStart(s0, l, st, x'.uc);
      while l'.es > 0
        invariant l' == l.(es := l'.es, nblock := l'.nblock)
        invariant (if n > 0 then 0 <= l'.es <= n && l'.nblock == |s0.tt| + (n - l'.es) else l'.es == n)
        invariant l'.nblock <= Capacity(s0) <= MAX_BLOCK && RunPut(s0, x'.uc, l', Now(), if n > 0 then n - l'.es else 0)
        invariant Now() == st.(tt := tt[..])
        modifies tt
      {
        if l'.nblock >= l'.nblockMAX { return false, l', x'; }
        RunPutNext(s0, x'.uc, l', Now(), n - l'.es);
        ghost var t := tt[..];
        tt[l'.nblock] := x'.uc;
        assert tt[..] == t[l'.nblock := x'.uc];
        l' := l'.(nblock := l'.nblock + 1, es := l'.es - 1);
      }
      fits := true;
      RunDone(s0, l, st, l', Now(), x'.uc, if n > 0 then n else 0);
    }

    /** A symbol read within a run. */
    method TakeInRun(l: Saved, x: Scratch, sym: int, ghost s0: State) returns (turn: Turn, l': Saved, x': Scratch)
      requires Shaped(Now()) && Common(s0, Now()) && Between(s0, l, Now()) && Tabled(s0) && Bounded(s0) && Apart()
      requires l.es == s0.es && l.N == s0.N && 0 <= sym < NInUse(s0) + 2 && NInUse(s0) >= 1
      modifies this`state, mtfa, mtfbase, tt
      ensures Meets(Decompressor.TakeInRun(s0, sym), turn, l', Now())
    {
      hide Between, Tabled, Bounded, Live, NInUse, Decompressor.RunDigit, Decompressor.TakeSymbol, Decompressor.PutRun;
      x' := x;
      l' := l.(nextSym := sym);
      NextSymSame(s0, l, Now(), sym);
      if l'.nextSym == RUNA || l'.nextSym == RUNB {
        turn, l' := RunDigit(l', l'.nextSym, s0);
        return;
      }
      var fits;
      PutRunKeeps(s0);
      fits, l', x' := PutRun(l', x', s0);
      if !fits { return Back(DataError), l', x'; }
      turn, l', x' := TakeSymbol(l', x', sym, Decompressor.PutRun(s0).s);
    }
  
    /** Is the code complete? If not, one more bit is read. */
    method CheckCode(l: Saved, x: Scratch, k: int, ghost s0: State) returns (turn: Turn, l': Saved, x': Scratch)
      requires Shaped(Now()) && Common(s0, Now()) && Candidate(s0, l, Now()) && Tabled(s0) && Bounded(s0) && Apart()
      requires k % 2 == 1 && (k == 3 ==> l.es == s0.es && l.N == s0.N) && NInUse(s0) >= 1 && 0 <= s0.gSel < s0.nGroups
      modifies this`state, mtfa, mtfbase, tt
      ensures Meets(Decompressor.CheckCode(s0, k), turn, l', Now())
    {
      hide Between, Tabled, Bounded, Live, Candidate, NInUse, Beyond, TablesOf, LimitOf, BaseOf, Decompressor.TakeInRun,
        Decompressor.TakeSymbol;
      x' := x;
      l' := l;
      ghost var st := Now();
      CandidateFacts(s0, l, st);
      if l'.zn > 20 { return Back(DataError), l', x'; }
      CodeFound(s0, l, st);
      if l'.zvec <= tables[l'.gLimit].limit[l'.zn] {
        var p := l'.zvec - tables[l'.gBase].base[l'.zn];
        if p < 0 || p >= TABLE_SIZE { return Back(DataError), l', x'; }
        SymbolInRange(s0, p);
        l' := l'.(nextSym := tables[l'.gPerm].perm[p]);
        NextSymSame(s0, l, st, l'.nextSym);
        if k == 3 {
          turn, l', x' := TakeInRun(l', x', l'.nextSym, s0);
        } else {
          turn, l', x' := TakeSymbol(l', x', l'.nextSym, s0);
        }
      } else {
        CodeGoesOn(s0, k, l, st);
        l' := l'.(zn := l'.zn + 1);
        state := Mtf(k + 1);
        turn := Going;
      }
    }

    /** The first bits of a symbol's code, or one more. */
    method AtMtf(l: Saved, x: Scratch, v: nat) returns (turn: Turn, l': Saved, x': Scratch)
      requires Shaped(Now()) && s.at.Mtf? && Good(s) && Live(s, l, Now()) && Kept(s) && Apart()
      modifies this`state, mtfa, mtfbase, tt
      ensures Meets(AdvanceCodes(s, v), turn, l', Now())
    {
      hide Tabled, Between, GroupKnown, Candidate, Chars, Bounded, Beyond, MinLen, Decompressor.CheckCode;
      ghost var k0 := s.at.k;
      CandidateRead(s, k0, l, Now(), v);
      MtfFacts(s);
      var k := state.k;
      if k % 2 == 1 {
        turn, l', x' := CheckCode(l.(zvec := v), x, k, s.(zvec := v));
      } else {
        turn, l', x' := CheckCode(l.(zj := v, zvec := l.zvec * 2 + v), x, k - 1, s.(zvec := s.zvec * 2 + v));
      }
    }
  
    /** From one label to the next. */
    method Step(l: Saved, x: Scratch, v: nat) returns (turn: Turn, l': Saved, x': Scratch)
      requires Shaped(Now()) && Waiting(s) && Live(s, l, Now()) && Kept(s) && Apart()
      requires (s.at == Selector2 ==> v < SELECTOR_CELLS)
      modifies this`state, this`blockSize100k, this`storedBlockCRC, this`storedCombinedCRC, this`blockRandomised
      modifies this`origPtr
      modifies this`nInUse, this`len, this`tables, this`minLens, inUse16, inUse, seqToUnseq, selectorMtf, selector
      modifies mtfa, mtfbase, tt
      ensures Meets(Advance(s, v), turn, l', Now())
      ensures SelectorCells.Spared(old(selectorMtf[..]), selectorMtf[..], SelectorCells.StepCells(s, v))
      ensures SelectorCells.Spared(old(selector[..]), selector[..], SelectorCells.StepCells(s, v))
    {
      hide Shaped, Live, Kept, AdvanceHeader, AdvanceTables, AdvanceCodes, Good, Meets;
      SameLabel(s, l, Now());
      WaitingGood(s);
      match state
      case Magic(_) => turn, l', x' := AtMagic(l, x, v);
      case BlkHdr(_) => turn, l', x' := AtBlockHeader(l, x, v);
      case BlkCrc(_) => turn, l', x' := AtBlockCrc(l, x, v);
      case RandBit => turn, l', x' := AtBlockCrc(l, x, v);
      case OrigPtr(_) => turn, l', x' := AtPointer(l, x, v);
      case EndHdr(_) => turn, l', x' := AtEndHeader(l, x, v);
      case CombCrc(_) => turn, l', x' := AtCombined(l, x, v);
      case Mapping1 => turn, l', x' := AtMapping1(l, x, v);
      case Mapping2 => turn, l', x' := AtMapping2(l, x, v);
      case Selector1 => turn, l', x' := AtSelector1(l, x, v);
      case Selector2 => turn, l', x' := AtSelector2(l, x, v);
      case Selector3 => turn, l', x' := AtSelector3(l, x, v);
      case Coding1 => turn, l', x' := AtCoding1(l, x, v);
      case Coding2 => turn, l', x' := AtCoding2(l, x, v);
      case Coding3 => turn, l', x' := AtCoding3(l, x, v);
      case Mtf(_) => turn, l', x' := AtMtf(l, x, v);
    }
  
    /** How many bits are waited for. */
    function Wanted(l: Saved): int
      reads this`state
    {
      match state
      case RandBit => 1
      case Mapping1 => 1
      case Mapping2 => 1
      case Selector1 => 3
      case Selector2 => 15
      case Selector3 => 1
      case Coding1 => 5
      case Coding2 => 1
      case Coding3 => 1
      case Mtf(k) => if k % 2 == 1 then l.zn else 1
      case _ => 8
    }

    ghost function Resting(): Machine
      reads this`s, this`bsBuff, this`bsLive
    {
      Machine(s, bsBuff, bsLive)
    }

    /** The storage and what is saved stand for the state of the machine. */
    ghost predicate Sane()
      reads this`state, this`blockSize100k, this`storedBlockCRC, this`storedCombinedCRC, this`blockRandomised
      reads this`origPtr
      reads this`nInUse, this`len, this`tables, this`minLens, this`save, this`s, Parts()
    {
      Shaped(Now()) && Apart() && Kept(s) && Live(s, save, Now())
    }

    ghost function Parts(): set<object> {
      {inUse16 as object, inUse, seqToUnseq, selectorMtf, selector, mtfa, mtfbase, tt}
    }

    constructor (ghost s0: State)
      requires s0.at == Magic(1) && s0.blockSize100k == 0
      requires s0.storedBlockCRC == s0.storedCombinedCRC == s0.origPtr == 0 && !s0.randomised
      ensures Sane() && s == s0 && bsBuff == 0 && bsLive == 0 && state == Magic(1) && fresh(Parts())
      ensures fresh(totalIn) && totalIn.Valid() && totalIn.n == 0
    {
      hide *;
      Constants();
      state, blockSize100k, storedBlockCRC, storedCombinedCRC, blockRandomised, origPtr := Magic(1), 0, 0, 0, false, 0;
      inUse16 := new bool[16];
      inUse := new bool[256];
      nInUse := 0;
      seqToUnseq := new int[256];
      selectorMtf := new nat[SELECTOR_CELLS];
      selector := new int[SELECTOR_CELLS];
      len := NoLengths();
      tables := NoTables();
      minLens := [0, 0, 0, 0, 0, 0];
      mtfa := new int[MTFA_SIZE];
      mtfbase := new int[16];
      tt := new int[MAX_BLOCK];
      save := NOTHING;
      bsBuff := 0;
      bsLive := 0;
      totalIn := new Counter();
      s := s0;
      new;
      Begins();
      PartsAre();
    }

    lemma PartsAre()
      ensures Parts() == {inUse16 as object, inUse, seqToUnseq, selectorMtf, selector, mtfa, mtfbase, tt}
    {
    }

    lemma Begins()
      requires inUse16.Length == 16 && inUse.Length == seqToUnseq.Length == 256
      requires selectorMtf.Length == selector.Length == SELECTOR_CELLS
      requires mtfa.Length == MTFA_SIZE && mtfbase.Length == 16 && tt.Length == MAX_BLOCK
      requires |len| == |tables| == |minLens| == N_GROUPS && (forall r :: 0 <= r < N_GROUPS ==> |len[r]| == TABLE_SIZE)
      requires inUse16 != inUse && seqToUnseq != selector && mtfa != mtfbase && mtfa != seqToUnseq && mtfa != selector
      requires mtfa != tt
      requires mtfbase != seqToUnseq && mtfbase != selector && mtfbase != tt && tt != seqToUnseq && tt != selector
      requires s.at == state == Magic(1) && s.blockSize100k == blockSize100k && s.storedBlockCRC == storedBlockCRC
      requires s.storedCombinedCRC == storedCombinedCRC && s.randomised == blockRandomised && s.origPtr == origPtr
      ensures Sane()
    {
      hide Shaped, Live, Kept;
      NewStore(s, save, Now());
    }

    /** Takes the bits that are waited for, and goes on to the next label. */
    method TakeBits(l: Saved, x: Scratch) returns (turn: Turn, l': Saved, x': Scratch)
      requires Ready(Resting()) && Need(s) <= bsLive && Shaped(Now()) && Apart() && Kept(s) && Live(s, l, Now())
      modifies this, Parts()
      ensures var o := Advance(old(s), NextBits(old(Resting()), Need(old(s))));
        && Resting() == Machine(o.s, old(bsBuff), old(bsLive) - Need(old(s))) && Moves(o) && Shaped(Now()) && Apart()
        && (o.Continue? ==> Ready(Resting())) && (o.Continue? || o.code == Ok ==> Kept(o.s))
        && (if o.Continue? then turn == Going else turn == Back(o.code))
        && (o.Continue? || o.code == Ok || o.code == StreamEnd ==> Live(o.s, l', Now()) && Common(o.s, Now()))
      ensures var cells := SelectorCells.StepCells(old(s), NextBits(old(Resting()), Need(old(s))));
        && SelectorCells.Spared(old(selectorMtf[..]), selectorMtf[..], cells)
        && SelectorCells.Spared(old(selector[..]), selector[..], cells)
    {
      hide SelectorCells.Spared, SelectorCells.StepCells, Shaped, Live, Kept, Keeps, Advance, Good, Pow2, Meets, Moves,
        Need;
      var n := Wanted(l);
      WantedIs(l);
      ReadyWaits(Resting());
      var v := bsBuff / Pow2(bsLive - n) % Pow2(n);
      ghost var o := Advance(s, v);
      BitsBelow(bsBuff / Pow2(bsLive - n), n);
      AdvanceMoves(s, v);
      AdvanceKeeps(s, v);
      bsLive := bsLive - n;
      turn, l', x' := Step(l, x, v);
      MeetsFacts(o, turn, l', Now());
      s := o.s;
      OutcomeFacts(o, Resting());
    }

    /** Takes in a byte, and counts it. */
    method TakeByte(b: nat)
      requires totalIn.Valid()
      modifies this`bsBuff, this`bsLive, totalIn
      ensures Resting() == Load(old(Resting()), b) && totalIn.Valid() && totalIn.n == old(totalIn.n) + 1
    {
      bsBuff := Or(bsBuff * 256 % TOP, b);
      bsLive := bsLive + 8;
      totalIn.Next();
    }

    /** Amid a run: what is left of it, and what it has spared of the arrays of selectors. */
    ghost predicate Moving(l: Saved, rest: seq<nat>, r: Stop, cells: set<int>, mtf: seq<nat>, sel: seq<int>)
      reads this`state, this`blockSize100k, this`storedBlockCRC, this`storedCombinedCRC, this`blockRandomised
      reads this`origPtr
      reads this`nInUse, this`len, this`tables, this`minLens, this`s, this`bsBuff, this`bsLive, Parts()
    {
      && Ready(Resting()) && Coroutine.Run(Resting(), rest) == r && SelectorCells.RunCells(Resting(), rest) <= cells
      && Shaped(Now()) && Apart() && Kept(s) && Live(s, l, Now())
      && SelectorCells.Spared(mtf, selectorMtf[..], cells) && SelectorCells.Spared(sel, selector[..], cells)
    }

    /** Amid a run there are bits enough. */
    method TurnOnce(l: Saved, x: Scratch, ghost rest: seq<nat>, ghost r: Stop, ghost cells: set<int>,
                    ghost mtf: seq<nat>, ghost sel: seq<int>)
      returns (turn: Turn, l': Saved, x': Scratch)
      requires Moving(l, rest, r, cells, mtf, sel) && Need(s) <= bsLive
      modifies this, Parts()
      ensures turn == Going ==> Moving(l', rest, r, cells, mtf, sel) && bsLive < old(bsLive)
      ensures turn != Going ==> r == Stop(turn.code, Resting(), rest, false) && Shaped(Now()) && Apart()
      ensures turn != Going && turn.code == Ok ==> Kept(s)
      ensures turn != Going && (turn.code == Ok || turn.code == StreamEnd) ==> Live(s, l', Now()) && Common(s, Now())
      ensures SelectorCells.Spared(mtf, selectorMtf[..], cells) && SelectorCells.Spared(sel, selector[..], cells)
    {
      hide SelectorCells.Spared, SelectorCells.StepCells, SelectorCells.RunCells, Coroutine.Run, Shaped, Live, Kept,
        Keeps, Moves, Ready, Waiting, Advance, Good, Need, Pow2, Meets, NextBits;
      ReadyWaits(Resting());
      WantedIs(l);
      RunNext(Resting(), rest);
      SelectorCells.RunCellsNext(Resting(), rest);
      ghost var mtf1, sel1 := selectorMtf[..], selector[..];
      ghost var step := SelectorCells.StepCells(s, NextBits(Resting(), Need(s)));
      turn, l', x' := TakeBits(l, x);
      SparedMore(mtf, mtf1, selectorMtf[..], step, cells);
      SparedMore(sel, sel1, selector[..], step, cells);
    }

    /** Amid a run another byte is needed. */
    method LoadOnce(l: Saved, b: nat, ghost rest: seq<nat>, ghost r: Stop, ghost cells: set<int>,
                    ghost mtf: seq<nat>, ghost sel: seq<int>)
      requires Moving(l, [b] + rest, r, cells, mtf, sel) && bsLive < Need(s) && totalIn.Valid()
      modifies this`bsBuff, this`bsLive, totalIn
      ensures Moving(l, rest, r, cells, mtf, sel) && bsLive == old(bsLive) + 8
      ensures totalIn.Valid() && totalIn.n == old(totalIn.n) + 1
    {
      hide totalIn.Valid, SelectorCells.Spared, SelectorCells.RunCells, Coroutine.Run, Shaped, Live, Kept, Ready,
        Waiting,
        Good, Need;
      assert ([b] + rest)[0] == b && ([b] + rest)[1..] == rest;
      RunLoad(Resting(), [b] + rest);
      SelectorCells.RunCellsLoad(Resting(), [b] + rest);
      TakeByte(b);
    }

    /** Takes up the run with the bytes of `input`; tells how many it took in. The saved variables
        are restored first, the others hold anything. Only the cells of the run are stored into. */
    method Decompress(input: seq<nat>) returns (ret: Status, used: nat, ghost starved: bool)
      requires Sane() && Ready(Resting()) && totalIn.Valid()
      modifies this, Parts(), totalIn
      ensures totalIn.Valid() && totalIn.n == old(totalIn.n) + used
      ensures used <= |input| && Coroutine.Run(old(Resting()), input) == Stop(ret, Resting(), input[used..], starved)
      ensures (ret == Ok ==> Sane()) && (ret == Ok || ret == StreamEnd ==> state == s.at && Common(s, Now()))
      ensures SelectorCells.Spared(old(selectorMtf[..]), selectorMtf[..], SelectorCells.RunCells(old(Resting()), input))
      ensures SelectorCells.Spared(old(selector[..]), selector[..], SelectorCells.RunCells(old(Resting()), input))
    {
      hide totalIn.Valid, Moving, SelectorCells.Spared, SelectorCells.RunCells, Coroutine.Run, Shaped, Live, Kept,
        Ready,
        Waiting, Good, Need;
      ghost var r, cells := Coroutine.Run(Resting(), input), SelectorCells.RunCells(Resting(), input);
      ghost var mtf, sel := selectorMtf[..], selector[..];
      var l := if state == Magic(1) then NOTHING else save;
      MovingStarts(l, input);
      var x: Scratch := *;
      used := 0;
      starved := false;
      assert input[0..] == input;
      while true
        invariant used <= |input| && Moving(l, input[used..], r, cells, mtf, sel)
        invariant totalIn.Valid() && totalIn.n == old(totalIn.n) + used
        decreases 8 * (|input| - used) + bsLive, |input| - used
      {
        MovingWants(l, input[used..], r, cells, mtf, sel);
        if bsLive >= Wanted(l) {
          var turn;
          turn, l, x := TurnOnce(l, x, input[used..], r, cells, mtf, sel);
          if turn != Going {
            SaneIf(turn.code, l);
            save := l;
            return turn.code, used, false;
          }
        } else if used == |input| {
          MovingStarves(l, r, cells, mtf, sel);
          save := l;
          return Ok, used, true;
        } else {
          assert input[used..] == [input[used]] + input[used + 1..];
          LoadOnce(l, input[used], input[used + 1..], r, cells, mtf, sel);
          used := used + 1;
        }
      }
    }

    lemma MovingStarts(l: Saved, input: seq<nat>)
      requires Sane() && Ready(Resting()) && l == if state == Magic(1) then NOTHING else save
      ensures Moving(l, input, Coroutine.Run(Resting(), input), SelectorCells.RunCells(Resting(), input),
        selectorMtf[..], selector[..])
    {
      hide SelectorCells.RunCells, Coroutine.Run, Shaped, Live, Kept, Ready, Good;
      LabelSame(s, save, l, Now());
    }

    lemma MovingWants(l: Saved, rest: seq<nat>, r: Stop, cells: set<int>, mtf: seq<nat>, sel: seq<int>)
      requires Moving(l, rest, r, cells, mtf, sel)
      ensures Good(s) && Wanted(l) == Need(s) && Need(s) >= 1
    {
      hide SelectorCells.RunCells, Coroutine.Run, Shaped, Live, Kept, Good, Need, Ready, Waiting;
      ReadyWaits(Resting());
      WantedIs(l);
    }

    lemma MovingStarves(l: Saved, r: Stop, cells: set<int>, mtf: seq<nat>, sel: seq<int>)
      requires Good(s) && Moving(l, [], r, cells, mtf, sel) && bsLive < Need(s)
      ensures r == Stop(Ok, Resting(), [], true) && Shaped(Now()) && Apart() && Kept(s) && Live(s, l, Now())
      ensures state == s.at && Common(s, Now())
      ensures SelectorCells.Spared(mtf, selectorMtf[..], cells) && SelectorCells.Spared(sel, selector[..], cells)
    {
      hide SelectorCells.RunCells, SelectorCells.Spared, Coroutine.Run, Shaped, Live, Kept, Good, Need, Ready;
      SameLabel(s, l, Now());
      RunStarved(Resting());
    }

    lemma SaneIf(code: Status, l: Saved)
      requires code == Ok || code == StreamEnd ==> Common(s, Now())
      ensures code == Ok || code == StreamEnd ==> state == s.at
    {
    }

    lemma SparedMore<T>(a: seq<T>, b: seq<T>, c: seq<T>, step: set<int>, cells: set<int>)
      requires SelectorCells.Spared(a, b, cells) && SelectorCells.Spared(b, c, step) && step <= cells
      ensures SelectorCells.Spared(a, c, cells)
    {
    }

    lemma OutcomeFacts(o: Outcome, m: Machine)
      requires Keeps(o) && Moves(o) && m.s == o.s && m.live <= 32
      ensures o.Continue? ==> Ready(m) && Kept(o.s)
      ensures o.Return? && o.code == Ok ==> Kept(o.s)
    {
      hide Kept, Waiting;
    }

    lemma ColumnKnown()
      requires Sane() && s.at == Output
      ensures 0 <= save.nblock <= tt.Length && tt[..save.nblock] == s.tt && origPtr == s.origPtr
      ensures storedBlockCRC == s.storedBlockCRC && blockRandomised == s.randomised && state == Output
    {
      hide CodeRead, MapBits, MapKnown, RanksRead, RowRead, Rows, SelectorsKnown;
      assert tt[..][..save.nblock] == tt[..save.nblock];
    }

    /** The caller has output the block. */
    method BlockOver()
      requires Sane() && s.at == Output
      modifies this`state, this`s
      ensures Sane() && s == old(s).(at := BlkHdr(1)) && state == BlkHdr(1)
    {
      hide ColumnSoFar, CodeRead, MapBits, MapKnown, RanksRead, RowRead, Rows, SelectorsKnown;
      state := BlkHdr(1);
      s := s.(at := BlkHdr(1));
    }

    lemma WantedIs(l: Saved)
      requires Live(s, l, Now()) && Waiting(s)
      ensures Wanted(l) == Need(s) && 1 <= Need(s) <= 20 && (s.at == Selector2 ==> Wanted(l) == 15)
    {
      hide Chars, Between, GroupKnown, MapBits, MapKnown, RanksRead, RowRead, Rows, SelectorsKnown, ColumnSoFar;
    }
  }

  /** Suspension is invisible: bytes handed over in two calls, the second with whatever is left
      over in the variables that were not saved, are decoded as if handed over in one. */
  method InTwoParts(d: DState, first: seq<nat>, second: seq<nat>)
    returns (ret: Status, ghost rest: seq<nat>, ghost starved: bool)
    requires d.Sane() && Ready(d.Resting()) && d.totalIn.Valid()
    modifies d, d.Parts(), d.totalIn
    ensures Coroutine.Run(old(d.Resting()), first + second) == Stop(ret, d.Resting(), rest, starved)
  {
    hide Coroutine.Run, Ready, Kept, Shaped, Live, Good;
    ghost var m := d.Resting();
    RunSplit(m, first, second);
    SaneKept(d);
    RunKeeps(m, first);
    var used;
    ret, used, starved := d.Decompress(first);
    rest := first[used..] + second;
    if starved { ReadyWaits(d.Resting()); }
    if ret == Ok && d.state != Output {
      ret, used, starved := d.Decompress(second);
      rest := second[used..];
    }
  }

  lemma SaneKept(d: DState)
    requires d.Sane()
    ensures Kept(d.s)
  {
    hide Kept;
  }

  const NOTHING: Saved := Saved(0, 0, 0, 0, 0, 0, 0, 0, 0, 0, 0, 0, 0, 0, 0, 0, 0, 0, 0, 0, 0, -1, -1, -1)

  function NoLengths(): (len: seq<seq<nat>>)
    ensures |len| == N_GROUPS && forall r :: 0 <= r < N_GROUPS ==> |len[r]| == TABLE_SIZE
  {
    seq(N_GROUPS, r => seq(TABLE_SIZE, i => 0))
  }

  function NoTables(): (t: seq<Tables>)
    ensures |t| == N_GROUPS
  {
    seq(N_GROUPS, r => Tables([], [], []))
  }

  lemma Constants()
    ensures SELECTOR_CELLS == 32768 && MTFA_SIZE == 4096 && MAX_BLOCK == 900000 && N_GROUPS == 6 && TABLE_SIZE == 258
  {
  }

  lemma NewStore(s: State, l: Saved, st: Store)
    requires |st.inUse16| == 16 && |st.inUse| == |st.seqToUnseq| == 256
    requires |st.selectorMtf| == |st.selector| == SELECTOR_CELLS
    requires |st.len| == |st.tables| == |st.minLens| == N_GROUPS
    requires (forall r :: 0 <= r < N_GROUPS ==> |st.len[r]| == TABLE_SIZE)
    requires |st.mtfa| == MTFA_SIZE && |st.mtfbase| == 16 && |st.tt| == MAX_BLOCK && s.at == Magic(1) && Common(s, st)
    ensures Shaped(st) && Live(s, l, st) && Kept(s)
  {
    hide CodeRead, MapBits, MapKnown, RanksRead, RowRead, Rows, SelectorsKnown, ColumnSoFar, Bounded;
  }

  /** At the first label nothing saved is needed. */
  lemma LabelSame(s: State, l: Saved, l1: Saved, st: Store)
    requires Live(s, l, st) && (l1 == l || st.at == Magic(1))
    ensures Live(s, l1, st)
  {
    hide CodeRead, MapBits, MapKnown, RanksRead, RowRead, Rows, SelectorsKnown, ColumnSoFar;
  }

  lemma ReadyWaits(m: Machine)
    requires Ready(m)
    ensures Waiting(m.s) && Good(m.s) && m.live <= 32
  {
    hide Good;
  }

  lemma BitsBelow(u: nat, n: nat)
    ensures u % Pow2(n) < Pow2(n) && (n == 15 ==> u % Pow2(n) < SELECTOR_CELLS)
  {
    Pow2Positive(n);
    if n == 15 {
      assert Pow2(3) == 8;
      assert Pow2(7) == 128;
      Pow2Values();
      Pow2Add(7, 8);
    }
  }

  lemma MeetsFacts(o: Outcome, turn: Turn, l: Saved, st: Store)
    requires Meets(o, turn, l, st)
    ensures Shaped(st) && (o.Continue? ==> turn == Going && Live(o.s, l, st))
    ensures o.Return? ==> turn == Back(o.code) && (o.code == Ok || o.code == StreamEnd ==> Live(o.s, l, st))
    ensures o.Continue? || o.code == Ok || o.code == StreamEnd ==> Common(o.s, st)
  {
    hide Live, Shaped;
    if o.Continue? || o.code == Ok || o.code == StreamEnd { SameLabel(o.s, l, st); }
  }
}
