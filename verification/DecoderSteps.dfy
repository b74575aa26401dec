/** Steps of the decoder on its storage, and what they keep known. */
module DecoderSteps {
  import opened CanonicalCodes
  import opened CodeTables
  import opened ColumnBounds
  import opened Decompressor
  import opened DecoderStore
  import opened MoveToFront
  import opened SlicedList
  import Rotations
  import opened SymbolMaps

  // The check value of the stream.

  lemma CombinedMeets(s: State, v: nat, st: Store, l: Saved)
    requires Shaped(st) && Common(s, st) && s.at.CombCrc?
    ensures var st1 := st.(storedCombinedCRC := (st.storedCombinedCRC * 256 + v) % WORD);
      && (s.at.k < 4 ==> Meets(AdvanceHeader(s, v), Going, l, st1.(at := CombCrc(s.at.k + 1))))
      && (s.at.k >= 4 ==> Meets(AdvanceHeader(s, v), Back(StreamEnd), l, st1.(at := Idle)))
  {
    hide Capacity, CodeRead, ColumnSoFar, MapBits, MapKnown, RanksRead, RowRead, Rows, SelectorsKnown;
  }

  /** Where the block starts. */
  lemma PointerMeets(s: State, v: nat, st: Store, l: Saved)
    requires Shaped(st) && Common(s, st) && s.at.OrigPtr?
    ensures var st1 := st.(origPtr := st.origPtr * 256 + v);
      && (s.at.k < 3 ==> Meets(AdvanceHeader(s, v), Going, l, st1.(at := OrigPtr(s.at.k + 1))))
      && (s.at.k >= 3 && st1.origPtr > 10 + 100000 * st.blockSize100k ==>
        Meets(AdvanceHeader(s, v), Back(DataError), l, st1))
      && (s.at.k >= 3 && st1.origPtr <= 10 + 100000 * st.blockSize100k ==>
            Meets(AdvanceHeader(s, v), Going, l.(i := 0), st1.(at := Mapping1)))
  {
    hide CodeRead, ColumnSoFar, MapBits, MapKnown, RanksRead, RowRead, Rows, SelectorsKnown;
  }

  // The mapping table.

  lemma FirstMap(s: State, l: Saved, st: Store, b: bool)
    requires s.at == Mapping1 && Good(s) && Live(s, l, st) && Shaped(st)
    ensures 0 <= l.i < 16
    ensures var s1 := s.(inUse16 := s.inUse16 + [b]);
      var st1 := st.(inUse16 := st.inUse16[l.i := b]);
      && l.i + 1 == |s1.inUse16| && st1.inUse16[..l.i + 1] == s1.inUse16 && Shaped(st1) && Common(s1, st1)
  {
    assert st.inUse16[l.i := b][..l.i + 1] == st.inUse16[..l.i] + [b];
  }

  lemma AllMapped(s: State, st: Store)
    requires |s.inUse16| == 16 && |st.inUse16| == 16 && st.inUse16[..16] == s.inUse16
    ensures st.inUse16 == s.inUse16
  {
    assert st.inUse16[..16] == st.inUse16;
  }

  /** A bit of the map. */
  lemma MapNext(s: State, l: Saved, st: Store, b: bool)
    requires s.at == Mapping2 && Good(s) && Live(s, l, st) && Shaped(st)
    ensures 0 <= 16 * l.i + l.j < 256
    ensures var n := 16 * l.i + l.j;
      var st1 := if b then st.(inUse := st.inUse[n := true]) else st;
      Shaped(st1) && MapSoFar(s.(inUse := s.inUse + [b], j := s.j + 1), n + 1, st1) && Common(s, st1)
  {
    var n := 16 * l.i + l.j;
    var st1 := if b then st.(inUse := st.inUse[n := true]) else st;
    assert st1.inUse[..n + 1] == st.inUse[..n] + [b];
  }

  /** Sixteen byte values that are not in use. */
  lemma MapSkip(s: State, i: int, st: Store)
    requires 0 <= i < 16 && MapSoFar(s, 16 * i, st)
    ensures MapSoFar(s.(inUse := s.inUse + seq(16, k => false)), 16 * (i + 1), st)
  {
    var z := seq(16, k => false);
    assert st.inUse[..16 * (i + 1)] == st.inUse[..16 * i] + z;
  }

  lemma ShapedMap(st: Store)
    requires Shaped(st)
    ensures |st.inUse16| == 16 && |st.inUse| == |st.seqToUnseq| == 256
  {
  }

  lemma NextMapSkips(s: State, i: int, st: Store)
    requires 0 <= i < 16 && |s.inUse16| == 16 && |s.inUse| == 16 * i && !s.inUse16[i] && Common(s, st)
    ensures var s1 := s.(inUse := s.inUse + seq(16, k => false)); NextMap(s, i) == NextMap(s1, i + 1) && Common(s1, st)
  {
    hide Chars;
  }

  lemma NextMapFound(s: State, l: Saved, st: Store)
    requires 0 <= l.i < 16 && |s.inUse16| == 16 && |s.inUse| == 16 * l.i && s.inUse16[l.i] && st.inUse16 == s.inUse16
    requires Common(s, st) && Shaped(st) && MapSoFar(s, 16 * l.i, st)
    ensures Meets(NextMap(s, l.i), Going, l.(j := 0), st.(at := Mapping2))
  {
    hide Chars, CodeRead, ColumnSoFar, RanksRead, RowRead, Rows, SelectorsKnown;
  }

  lemma NextMapEnds(s: State, l: Saved, st: Store, n: int, chars: seq<int>)
    requires l.i == 16 && |s.inUse16| == 16 && |s.inUse| == 256 && Common(s, st) && Shaped(st) && st.inUse == s.inUse
    requires n == |Chars(s.inUse)| && |chars| == 256 && n <= 256 && chars[..n] == Chars(s.inUse)
    ensures n == 0 ==> Meets(NextMap(s, 16), Back(DataError), l, st.(nInUse := n, seqToUnseq := chars))
    ensures n != 0 ==>
      Meets(NextMap(s, 16), Going, l.(alphaSize := n + 2), st.(at := Selector1, nInUse := n, seqToUnseq := chars))
  {
    hide Chars, CodeRead, ColumnSoFar, RanksRead, RowRead, Rows, SelectorsKnown, MapSoFar;
  }

  lemma MapDone(s: State, st: Store)
    requires MapSoFar(s, 256, st)
    ensures st.inUse == s.inUse && |s.inUse| == 256
  {
    assert st.inUse[..256] == st.inUse;
  }

  // The selectors.

  lemma RankNext(s: State, l: Saved, st: Store)
    requires s.at == Selector3 && Good(s) && Live(s, l, st) && Shaped(st) && l.j >= 0
    ensures 0 <= l.i < SELECTOR_CELLS
    ensures var s1 := s.(selectorMtf := s.selectorMtf + [s.j], j := 0);
      var st1 := st.(selectorMtf := st.selectorMtf[l.i := l.j]);
      && Shaped(st1) && l.i + 1 == |s1.selectorMtf| && st1.selectorMtf[..l.i + 1] == s1.selectorMtf
      && Common(s1, st1) && MapKnown(s1, l, st1)
  {
    hide Chars;
    assert st.selectorMtf[l.i := l.j][..l.i + 1] == st.selectorMtf[..l.i] + [l.j];
  }

  /** The positions after some selectors, and the selectors so far. */
  ghost predicate Undoing(nGroups: int, mtf: seq<nat>, i: int, pos: seq<int>, sel: seq<int>) {
    && 0 <= i <= |mtf| && i <= |sel| && nGroups >= 1 && Below(mtf[..i], nGroups)
    && pos == After(Identity(nGroups), mtf[..i]) && sel[..i] == Symbols(Identity(nGroups), mtf[..i])
  }

  lemma IdentitySize(n: nat)
    ensures |Identity(n)| == n
  {
  }

  lemma UndoingStart(nGroups: int, mtf: seq<nat>, sel: seq<int>)
    requires nGroups >= 1
    ensures Undoing(nGroups, mtf, 0, Identity(nGroups), sel)
  {
    assert mtf[..0] == [] && sel[..0] == [];
  }

  lemma UndoingNext(nGroups: int, mtf: seq<nat>, i: int, pos: seq<int>, sel: seq<int>)
    requires Undoing(nGroups, mtf, i, pos, sel) && i < |mtf| && i < |sel| && mtf[i] < nGroups
    ensures |pos| == nGroups
    ensures Undoing(nGroups, mtf, i + 1, Moved(pos, mtf[i]), sel[i := pos[mtf[i]]])
  {
    hide Moved;
    IdentitySize(nGroups);
    var ks := mtf[..i];
    assert mtf[..i + 1] == ks + [mtf[i]];
    assert (ks + [mtf[i]])[..|ks|] == ks;
    var sel1 := sel[i := pos[mtf[i]]];
    assert sel1[..i + 1] == sel[..i] + [pos[mtf[i]]];
  }

  lemma UndoingDone(nGroups: int, mtf: seq<nat>, sel: seq<int>, pos: seq<int>)
    requires Undoing(nGroups, mtf, |mtf|, pos, sel)
    ensures sel[..|mtf|] == Symbols(Identity(nGroups), mtf) && |Symbols(Identity(nGroups), mtf)| == |mtf|
  {
    assert mtf[..|mtf|] == mtf;
  }

  /** Moving an entry to the front by shifting the ones before it. */
  ghost predicate Shifted(p0: seq<int>, p: seq<int>, v0: int, v: int) {
    && |p| == |p0| && 0 <= v <= v0 < |p|
    && (forall k :: 0 <= k <= v ==> p[k] == p0[k] || k == v) && (forall k :: 0 <= k < v ==> p[k] == p0[k])
    && (forall k :: v < k <= v0 ==> p[k] == p0[k - 1]) && (forall k :: v0 < k < |p| ==> p[k] == p0[k])
  }

  lemma ShiftedDone(p0: seq<int>, p: seq<int>, v0: int)
    requires Shifted(p0, p, v0, 0)
    ensures p[0 := p0[v0]] == Moved(p0, v0)
  {
  }

  // The code lengths.

  lemma LengthRead(s: State, l: Saved, st: Store, c: nat)
    requires l.curr == c && s.at == Coding2 && Good(s) && Live(s, l, st) && Shaped(st)
    ensures 0 <= l.t < N_GROUPS && 0 <= l.i < TABLE_SIZE && l.i < l.alphaSize
    ensures var s1 := s.(cur := s.cur + [s.curr]);
      var row: seq<nat> := st.len[l.t][l.i := c];
      var st1 := st.(len := st.len[l.t := row]);
      && Shaped(st1) && Common(s1, st1) && MapKnown(s1, l, st1) && SelectorsKnown(s1, l, st1)
      && Rows(s1, l.alphaSize, st1) && l.t == |s1.len| && l.i + 1 == |s1.cur| && st1.len[l.t][..l.i + 1] == s1.cur
  {
    hide Chars;
    CharsSmall(s);
    assert st.len[l.t][l.i := c][..l.i + 1] == st.len[l.t][..l.i] + [c];
  }

  lemma CharsSmall(s: State)
    requires |s.inUse| == 256
    ensures NInUse(s) + 2 <= TABLE_SIZE
  {
  }

  lemma RowDone(s: State, l: Saved, st: Store)
    requires Rows(s, l.alphaSize, st) && l.t == |s.len| < |st.len| && |s.cur| == l.alphaSize <= |st.len[l.t]|
    requires st.len[l.t][..l.alphaSize] == s.cur
    ensures Rows(s.(len := s.len + [s.cur]), l.alphaSize, st)
  {
  }

  lemma AlphaIs(s: State, l: Saved, st: Store)
    requires MapKnown(s, l, st)
    ensures l.alphaSize == NInUse(s) + 2 <= TABLE_SIZE
  {
    hide Chars;
    CharsSmall(s);
  }

  lemma MapSame(s: State, s1: State, l: Saved, l1: Saved, st: Store)
    requires MapKnown(s, l, st) && s1.inUse == s.inUse && l1.alphaSize == l.alphaSize
    ensures MapKnown(s1, l1, st) && NInUse(s1) == NInUse(s)
  {
    hide Chars;
  }

  lemma SelectorsSame(s: State, s1: State, l: Saved, l1: Saved, st: Store)
    requires SelectorsKnown(s, l, st) && s1.nGroups == s.nGroups && s1.nSelectors == s.nSelectors
    requires s1.selector == s.selector
    requires l1.nGroups == l.nGroups && l1.nSelectors == l.nSelectors
    ensures SelectorsKnown(s1, l1, st)
  {
  }

  lemma LengthGood(s: State)
    requires s.at == Coding2 && Good(s)
    ensures Coding(s.(cur := s.cur + [s.curr])) && GoodLengths(s.cur + [s.curr])
  {
    hide Chars;
  }

  // The symbols.

  lemma RowLengths(s: State, n: int, st: Store, t: int)
    requires Rows(s, n, st) && GoodTables(s) && 0 <= t < |s.len| && n == NInUse(s) + 2 && n <= |st.len[t]|
    ensures st.len[t][..n] == s.len[t] && forall i :: 0 <= i < n ==> 1 <= st.len[t][i] <= LONGEST
  {
    hide NInUse;
    assert GoodLengths(s.len[t]);
    forall i | 0 <= i < n ensures 1 <= st.len[t][i] <= LONGEST { assert st.len[t][i] == s.len[t][i]; }
  }

  lemma IdentityLow(n: int)
    requires 0 <= n <= 256
    ensures ListLow(Identity(256), n)
  {
  }

  lemma MovedLow(y: seq<int>, n: int, k: int)
    requires ListLow(y, n) && 0 <= k < n
    ensures ListLow(Moved(y, k), n)
  {
    forall r | 0 <= r < n ensures 0 <= Moved(y, k)[r] < n {
      assert Moved(y, k)[r] == if r == 0 then y[k] else if r <= k then y[r - 1] else y[r];
    }
  }

  /** A character of the column. */
  lemma CharKnown(s: State, l: Saved, st: Store, uc: int)
    requires MapKnown(s, l, st) && 0 <= uc < NInUse(s)
    ensures uc < 256 && st.seqToUnseq[uc] == CharOf(s, uc)
  {
    hide Chars;
    CharsSmall(s);
    assert st.seqToUnseq[uc] == st.seqToUnseq[..NInUse(s)][uc];
  }

  lemma ColumnNext(s: State, l: Saved, st: Store, c: int)
    requires ColumnSoFar(s, l, st) && |s.tt| < |st.tt|
    ensures ColumnSoFar(s.(tt := s.tt + [c]), l.(nblock := l.nblock + 1), st.(tt := st.tt[l.nblock := c]))
  {
  }

  lemma ColumnRun(tt: seq<int>, c: int, n: nat)
    ensures tt + Repeat(c, n) + [c] == tt + Repeat(c, n + 1) && tt + Repeat(c, 0) == tt
  {
    assert Repeat(c, n + 1) == Repeat(c, n) + [c];
  }

  /** The table of the group is that of its lengths. */
  lemma TableOfGroup(s: State, l: Saved, st: Store, n: int)
    requires TablesKnown(s, st) && GroupKnown(s, l) && 0 <= n < MAX_CODE_LEN && s.len[s.gSel] != []
    requires forall i :: 0 <= i < |s.len[s.gSel]| ==> s.len[s.gSel][i] <= LONGEST
    ensures 0 <= s.gSel < |st.tables| && n < |st.tables[s.gSel].limit| && n < |st.tables[s.gSel].base|
    ensures var t, len := TablesOf(s.len[s.gSel]), s.len[s.gSel];
      && st.tables[s.gSel].limit[n] == LimitOf(t, n) == LimitAt(len, MinLen(len), MaxLen(len), n)
      && st.tables[s.gSel].base[n] == BaseOf(t, n) == BaseAt(len, MinLen(len), MaxLen(len), n)
    ensures |TablesOf(s.len[s.gSel]).perm| == |s.len[s.gSel]| <= |st.tables[s.gSel].perm|
    ensures st.tables[s.gSel].perm[..|s.len[s.gSel]|] == TablesOf(s.len[s.gSel]).perm
  {
    hide LimitAt, BaseAt, MinLen, MaxLen, Ordered;
    var len := s.len[s.gSel];
    assert Agree(st.tables[s.gSel], len);
    assert st.tables[s.gSel].limit[n] == st.tables[s.gSel].limit[..MAX_CODE_LEN][n];
    assert st.tables[s.gSel].base[n] == st.tables[s.gSel].base[..MAX_CODE_LEN][n];
    TablesOfFit(len);
  }

  lemma RowsSize(s: State, n: int, st: Store)
    requires Rows(s, n, st)
    ensures 0 <= n && |s.len| <= |st.len| && forall r :: 0 <= r < |s.len| ==> n <= |st.len[r]|
  {
  }

  lemma GroupsOf(s: State, l: Saved, st: Store)
    requires SelectorsKnown(s, l, st)
    ensures l.nGroups == s.nGroups <= N_GROUPS && l.nSelectors == s.nSelectors == |s.selector|
  {
  }

  lemma SelectorAt(s: State, l: Saved, st: Store, i: int)
    requires SelectorsKnown(s, l, st) && 0 <= i < |s.selector|
    ensures i < |st.selector| && st.selector[i] == s.selector[i]
  {
    assert st.selector[i] == st.selector[..|s.selector|][i];
  }

  lemma TabledFirst(s: State)
    requires Selected(s) && |s.len| == s.nGroups && GoodTables(s)
    ensures Tabled(s.(groupNo := -1, groupPos := 0, y := Identity(256), tt := []))
  {
    hide Chars, GoodLengths;
  }

  lemma BetweenFirst(s: State, l: Saved, l1: Saved, st: Store, st1: Store, st2: Store)
    requires MapKnown(s, l, st) && SelectorsKnown(s, l, st) && TablesKnown(s, st2) && Common(s, st)
    requires st1.tables == st2.tables && st1.minLens == st2.minLens
    requires st1.inUse == st.inUse && st1.nInUse == st.nInUse && st1.seqToUnseq == st.seqToUnseq
    requires st1.selector == st.selector
    requires Spells(st1.mtfa, st1.mtfbase, Identity(256)) && st1.mtfbase[0] >= 1
    requires l1 ==
      l.(eob := st.nInUse + 1, nblockMAX := 100000 * st.blockSize100k, groupNo := -1, groupPos := 0, nblock := 0)
    ensures Between(s.(groupNo := -1, groupPos := 0, y := Identity(256), tt := []), l1, st1)
  {
    hide Chars, Agree, MinLen, Spells;
    CharsSmall(s);
    IdentityLow(NInUse(s));
    assert st1.tt[..0] == [];
  }

  /** The group that the next selector picks. */
  lemma GroupPicked(s: State, l: Saved, st: Store)
    requires Between(s, l, st) && Tabled(s) && l.groupNo + 1 < l.nSelectors
    ensures 0 <= l.groupNo + 1 < |st.selector| && |st.minLens| >= |s.len| && l.nSelectors == s.nSelectors
    ensures l.groupNo == s.groupNo
    ensures var g := st.selector[l.groupNo + 1];
      g == s.selector[s.groupNo + 1] && 0 <= g < |s.len| && st.minLens[g] == MinLen(s.len[g])
  {
    hide Chars, MapKnown, GoodTables, Spells, Agree, ListLow, ColumnSoFar, MinLen;
    SelectorAt(s, l, st, l.groupNo + 1);
  }

  lemma BetweenFacts(s: State, l: Saved, st: Store)
    requires Between(s, l, st) && Tabled(s)
    ensures l.groupPos == s.groupPos && l.groupNo == s.groupNo && l.nSelectors == s.nSelectors
    ensures s.groupPos > 0 ==> GroupKnown(s, l) && s.gSel < |s.len|
  {
    hide Chars, MapKnown, GoodTables, Spells, Agree, ListLow, ColumnSoFar, MinLen;
  }

  /** A symbol is to be read. */
  lemma SymbolStarted(s: State, l: Saved, st: Store, s1: State, l1: Saved, k: int)
    requires Between(s, l, st) && Common(s, st) && k % 2 == 1
    requires s1 == s.(groupNo := s1.groupNo, groupPos := s1.groupPos, gSel := s1.gSel, zn := s1.zn, at := Mtf(k))
    requires l1 == l.(groupNo := s1.groupNo, groupPos := s1.groupPos, gSel := s1.gSel, zn := s1.zn,
      gMinlen := l1.gMinlen, gLimit := l1.gLimit, gPerm := l1.gPerm, gBase := l1.gBase)
    requires GroupKnown(s1, l1) && s1.zn == MinLen(s1.len[s1.gSel]) && (k == 3 ==> l.es == s.es && l.N == s.N)
    ensures Live(s1, l1, st.(at := Mtf(k)))
  {
    hide Chars, Spells, Agree, MinLen, ListLow;
  }

  lemma TabledGroups(s: State)
    requires Tabled(s)
    ensures 0 <= s.groupPos && -1 <= s.groupNo < s.nSelectors == |s.selector| && |s.len| == s.nGroups
    ensures forall i :: 0 <= i < |s.selector| ==> 0 <= s.selector[i] < |s.len|
  {
    hide Chars, GoodTables;
  }

  lemma RunSame(s: State, l: Saved, st: Store, es: int, n: int)
    requires Between(s, l, st) && Tabled(s)
    ensures Between(s.(es := es, N := n), l.(es := es, N := n), st) && Tabled(s.(es := es, N := n))
    ensures NInUse(s.(es := es, N := n)) == NInUse(s)
  {
    hide Chars, Spells, Agree, MinLen, ListLow, GoodLengths;
  }

  lemma NextSymSame(s: State, l: Saved, st: Store, sym: int)
    requires Between(s, l, st)
    ensures Between(s, l.(nextSym := sym), st)
  {
    hide Chars, Spells, Agree, MinLen, ListLow;
  }

  lemma SymbolFacts(s: State, l: Saved, st: Store)
    requires Between(s, l, st)
    ensures l.eob == NInUse(s) + 1 && l.nblockMAX == Capacity(s) && ColumnSoFar(s, l, st) && l.nblock == |s.tt|
    ensures Spells(st.mtfa, st.mtfbase, s.y) && |st.mtfbase| == 16 && st.mtfbase[0] >= 1 && |s.y| == 256
    ensures 0 <= NInUse(s) <= 254 + 2
  {
    hide Chars, Agree, MinLen, ListLow;
  }

  /** The entry that a symbol stands for, and its character. */
  lemma CharTaken(s: State, l: Saved, st: Store, sym: int)
    requires Between(s, l, st) && Tabled(s) && Bounded(s) && 2 <= sym < NInUse(s) + 1 && |s.tt| < Capacity(s)
    requires Shaped(st)
    ensures 0 <= s.y[sym - 1] < NInUse(s) && s.y[sym - 1] < 256
    ensures st.seqToUnseq[s.y[sym - 1]] == CharOf(s, s.y[sym - 1])
    ensures 0 <= l.nblock < MAX_BLOCK
  {
    hide Chars, Agree, MinLen, Spells, GoodTables, Rotations.Bytes;
    CharKnown(s, l, st, s.y[sym - 1]);
  }

  lemma SymbolTaken(s: State, l: Saved, st: Store, s1: State, l1: Saved, st1: Store, sym: int)
    requires Between(s, l, st) && Tabled(s) && Shaped(st) && Shaped(st1) && Common(s, st) && 2 <= sym < NInUse(s) + 1
    requires s1 == s.(y := Moved(s.y, sym - 1), tt := s.tt + [CharOf(s, s.y[sym - 1])])
    requires l1 == l.(nblock := l.nblock + 1) && 0 <= l.nblock < |st.tt|
    requires st1 == st.(mtfa := st1.mtfa, mtfbase := st1.mtfbase, tt := st.tt[l.nblock := CharOf(s, s.y[sym - 1])])
    requires Spells(st1.mtfa, st1.mtfbase, Moved(s.y, sym - 1)) && st1.mtfbase[0] >= 1
    ensures Between(s1, l1, st1) && Tabled(s1) && Common(s1, st1)
  {
    hide Chars, Agree, MinLen, Spells, Moved, GoodLengths, CharOf;
    MovedLow(s.y, NInUse(s), sym - 1);
    MovedEntries(s.y, sym - 1);
    ColumnNext(s, l, st, CharOf(s, s.y[sym - 1]));
    MapSame(s, s1, l, l1, st);
  }

  // Runs.

  lemma FirstEntry(a: seq<int>, base: seq<int>, y: seq<int>)
    requires Spells(a, base, y)
    ensures |base| == 16 && 0 <= base[0] < |a| && |y| == 256 && a[base[0]] == y[0]
  {
    assert SliceHolds(a, base[0], y, 0);
    assert a[base[0]..base[0] + 16][0] == y[..16][0];
  }

  lemma RunChar(s: State, l: Saved, st: Store)
    requires Between(s, l, st) && Tabled(s) && NInUse(s) >= 1
    ensures 0 <= s.y[0] < 256 && st.seqToUnseq[s.y[0]] == CharOf(s, s.y[0])
  {
    hide Chars, Agree, MinLen, Spells, GoodTables;
    CharKnown(s, l, st, s.y[0]);
  }

  /** Part of a run is in the column. */
  ghost predicate RunPut(s: State, c: int, l: Saved, st: Store, n: nat) {
    l.nblock == |s.tt| + n <= |st.tt| && st.tt[..l.nblock] == s.tt + Repeat(c, n)
  }

  lemma RunStart(s: State, l: Saved, st: Store, c: int)
    requires Between(s, l, st) && Bounded(s) && Shaped(st)
    ensures RunPut(s, c, l.(es := l.es + 1), st, 0)
    ensures |s.tt| <= Capacity(s) <= MAX_BLOCK && |st.tt| == MAX_BLOCK && l.nblock == |s.tt|
  {
    hide Chars, Agree, MinLen, Spells, GoodTables, ListLow;
    assert s.tt + Repeat(c, 0) == s.tt;
  }

  lemma RunPutNext(s: State, c: int, l: Saved, st: Store, n: nat)
    requires RunPut(s, c, l, st, n) && l.nblock < |st.tt|
    ensures RunPut(s, c, l.(nblock := l.nblock + 1, es := l.es - 1), st.(tt := st.tt[l.nblock := c]), n + 1)
  {
    ColumnRun(s.tt, c, n);
    assert st.tt[l.nblock := c][..l.nblock + 1] == st.tt[..l.nblock] + [c];
  }

  lemma RunDone(s: State, l: Saved, st: Store, l1: Saved, st1: Store, c: int, n: nat)
    requires Between(s, l, st) && Common(s, st) && Tabled(s) && c == CharOf(s, s.y[0]) && RunPut(s, c, l1, st1, n)
    requires st1 == st.(tt := st1.tt)
    requires l1 == l.(es := l1.es, nblock := l1.nblock) && n == (if s.es + 1 > 0 then s.es + 1 else 0)
    requires l1.nblock <= Capacity(s)
    ensures Decompressor.PutRun(s).Continue?
    ensures Between(Decompressor.PutRun(s).s, l1, st1) && Common(Decompressor.PutRun(s).s, st1)
  {
    hide Chars, Agree, MinLen, Spells, GoodTables, ListLow, CharOf;
    ColumnRun(s.tt, c, n);
  }

  // Codes.

  /** The bits read so far may be a code. */
  ghost predicate Candidate(s: State, l: Saved, st: Store) {
    && Between(s, l, st) && GroupKnown(s, l) && l.zn == s.zn && l.zvec == s.zvec && s.zn >= 0 && s.zvec >= 0
    && var len := s.len[s.gSel];
      && MinLen(len) <= s.zn
      && (s.zn > MinLen(len) ==> s.zvec >= 2 * (LimitAt(len, MinLen(len), MaxLen(len), s.zn - 1) + 1))
  }

  /** The first bits of a code, or one more. */
  lemma CandidateRead(s: State, k: int, l: Saved, st: Store, v: nat)
    requires s.at == Mtf(k) && CodeRead(s, k, l, st) && Good(s)
    ensures k % 2 == 1 ==> Candidate(s.(zvec := v), l.(zvec := v), st)
    ensures k % 2 == 0 ==> Candidate(s.(zvec := s.zvec * 2 + v), l.(zj := v, zvec := l.zvec * 2 + v), st)
  {
    hide Chars, Agree, MinLen, MaxLen, LimitAt, Spells, GoodTables, ListLow;
  }

  lemma CandidateFacts(s: State, l: Saved, st: Store)
    requires Candidate(s, l, st) && Tabled(s)
    ensures Between(s, l, st) && l.zn == s.zn && l.zvec == s.zvec && l.gLimit == l.gBase == l.gPerm == s.gSel
    ensures 0 <= s.gSel < |st.tables|
    ensures 0 <= s.gSel < |s.len| == s.nGroups && |s.len[s.gSel]| == NInUse(s) + 2 && 0 <= s.zn
  {
    hide Chars, Agree, MinLen, MaxLen, LimitAt, Spells, ListLow, ColumnSoFar, GoodLengths;
  }

  /** Whether it is a code is found in the group's tables; if so, its place holds its symbol. */
  lemma CodeFound(s: State, l: Saved, st: Store)
    requires Candidate(s, l, st) && Tabled(s) && s.zn <= LONGEST && Shaped(st)
    ensures 0 <= s.gSel < |st.tables| && s.zn < |st.tables[s.gSel].limit| && s.zn < |st.tables[s.gSel].base|
    ensures st.tables[s.gSel].limit[s.zn] == LimitOf(TablesOf(s.len[s.gSel]), s.zn)
    ensures st.tables[s.gSel].base[s.zn] == BaseOf(TablesOf(s.len[s.gSel]), s.zn)
    ensures s.zvec <= st.tables[s.gSel].limit[s.zn] ==>
      var p, t := s.zvec - st.tables[s.gSel].base[s.zn], TablesOf(s.len[s.gSel]);
      0 <= p < |t.perm| && p < |st.tables[s.gSel].perm| && p < TABLE_SIZE && st.tables[s.gSel].perm[p] == t.perm[p]
    ensures s.zvec > st.tables[s.gSel].limit[s.zn] ==> Beyond(s.len[s.gSel], s.zn, s.zvec)
  {
    hide Chars, Agree, MinLen, MaxLen, LimitAt, BaseAt, LimitOf, BaseOf, Spells, ListLow, ColumnSoFar, TablesOf,
      MapKnown, SelectorsKnown, TablesKnown;
    var len := s.len[s.gSel];
    GroupLengths(s);
    BetweenTables(s, l, st);
    TableOfGroup(s, l, st, s.zn);
    if s.zvec <= st.tables[s.gSel].limit[s.zn] {
      HitInside(len, s.zn, s.zvec);
      var p := s.zvec - st.tables[s.gSel].base[s.zn];
      assert st.tables[s.gSel].perm[p] == st.tables[s.gSel].perm[..|len|][p];
    }
  }

  lemma GroupLengths(s: State)
    requires Tabled(s) && 0 <= s.gSel < |s.len|
    ensures s.len[s.gSel] != [] && |s.len[s.gSel]| == NInUse(s) + 2 <= TABLE_SIZE
    ensures forall i :: 0 <= i < |s.len[s.gSel]| ==> s.len[s.gSel][i] <= LONGEST
  {
    hide Chars;
    CharsSmall(s);
    assert GoodLengths(s.len[s.gSel]);
  }

  lemma BetweenTables(s: State, l: Saved, st: Store)
    requires Between(s, l, st)
    ensures TablesKnown(s, st)
  {
    hide Chars, Agree, MinLen, Spells, ListLow, ColumnSoFar;
  }

  /** One more bit is to be read. */
  lemma CodeGoesOn(s: State, k: int, l: Saved, st: Store)
    requires Candidate(s, l, st) && Beyond(s.len[s.gSel], s.zn, s.zvec) && k % 2 == 1 && Common(s, st)
    requires (k == 3 ==> l.es == s.es && l.N == s.N)
    ensures Live(s.(zn := s.zn + 1, at := Mtf(k + 1)), l.(zn := l.zn + 1), st.(at := Mtf(k + 1)))
  {
    hide Chars, Agree, MinLen, MaxLen, LimitAt, Spells, ListLow;
  }

  lemma MtfFacts(s: State)
    requires s.at.Mtf? && Good(s) && Kept(s)
    ensures 0 <= s.gSel < s.nGroups && NInUse(s) >= 1
    ensures forall z: int {:trigger s.(zvec := z)} ::
      Tabled(s.(zvec := z)) && Bounded(s.(zvec := z)) && NInUse(s.(zvec := z)) == NInUse(s)
  {
    hide Chars, GoodLengths, Rotations.Bytes;
  }

  // At a label.

  lemma SameLabel(s: State, l: Saved, st: Store)
    requires Live(s, l, st)
    ensures st.at == s.at && Common(s, st)
  {
    hide CodeRead, MapBits, MapKnown, RanksRead, RowRead, Rows, SelectorsKnown, ColumnSoFar;
  }

  lemma WaitingGood(s: State)
    requires Waiting(s)
    ensures Good(s) && s.at != Output && s.at != Idle
  {
    hide Good;
  }
}
