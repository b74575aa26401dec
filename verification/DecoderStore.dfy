/** The decoder's storage and variables, and what of them stands for the state of the machine.

    The machine's record says what a state is. The decoder keeps it in arrays and in two kinds
    of variables: those saved between calls, and a few that are not. Of the latter nothing is
    said here: whatever they hold, the same state is stood for.
 */
module DecoderStore {
  import opened CanonicalCodes
  import opened CodeTables
  import opened Decompressor
  import opened SlicedList
  import opened SymbolMaps

  /** The variables that are saved between calls. The last three point to the tables of a group. */
  datatype Saved = Saved(
    i: int, j: int, t: int, alphaSize: int, nGroups: int, nSelectors: int, eob: int, groupNo: int, groupPos: int,
    nextSym: int, nblockMAX: int, nblock: int, es: int, N: int, curr: int, zt: int, zn: int, zvec: int, zj: int,
    gSel: int, gMinlen: int, gLimit: int, gBase: int, gPerm: int)

  /** The variables that are not. */
  datatype Scratch = Scratch(uc: int, minLen: int, maxLen: int)

  /** What lies in the decoder's fields and arrays. */
  datatype Store = Store(
    at: Label, blockSize100k: int, storedBlockCRC: nat, storedCombinedCRC: nat, randomised: bool, origPtr: nat,
    inUse16: seq<bool>, inUse: seq<bool>, nInUse: int, seqToUnseq: seq<int>, selectorMtf: seq<nat>, selector: seq<int>,
    len: seq<seq<nat>>, tables: seq<Tables>, minLens: seq<nat>, mtfa: seq<int>, mtfbase: seq<int>, tt: seq<int>)

  /** Room for as many selectors as 15 bits can count. */
  const SELECTOR_CELLS: int := 32768
  const MAX_BLOCK: int := 900000
  const N_GROUPS: int := 6

  ghost predicate Shaped(st: Store) {
    && |st.inUse16| == 16 && |st.inUse| == |st.seqToUnseq| == 256 && |st.selectorMtf| == |st.selector| == SELECTOR_CELLS
    && |st.len| == |st.tables| == |st.minLens| == N_GROUPS
    && (forall r :: 0 <= r < N_GROUPS ==> |st.len[r]| == TABLE_SIZE)
    && |st.mtfa| == MTFA_SIZE && |st.mtfbase| == 16 && |st.tt| == MAX_BLOCK
  }

  ghost predicate Common(s: State, st: Store) {
    && st.at == s.at && st.blockSize100k == s.blockSize100k && st.storedBlockCRC == s.storedBlockCRC
    && st.storedCombinedCRC == s.storedCombinedCRC && st.randomised == s.randomised && st.origPtr == s.origPtr
  }

  ghost predicate MapBits(s: State, l: Saved, st: Store) {
    && 0 <= l.i < 16 && l.i == s.i && l.j == s.j && 0 <= l.j < 16 && st.inUse16 == s.inUse16
    && MapSoFar(s, 16 * l.i + l.j, st)
  }

  /** The first n entries of the map are read, the others are not set. */
  ghost predicate MapSoFar(s: State, n: int, st: Store) {
    && |st.inUse| == 256 && 0 <= n <= 256 && st.inUse[..n] == s.inUse && forall c :: n <= c < 256 ==> !st.inUse[c]
  }

  ghost predicate MapKnown(s: State, l: Saved, st: Store) {
    && |s.inUse| == 256 && st.inUse == s.inUse && st.nInUse == NInUse(s) && |st.seqToUnseq| == 256
    && st.seqToUnseq[..NInUse(s)] == Chars(s.inUse) && l.alphaSize == NInUse(s) + 2
  }

  ghost predicate RanksRead(s: State, l: Saved, st: Store) {
    && l.nGroups == s.nGroups && l.nSelectors == s.nSelectors && |s.selectorMtf| < s.nSelectors < SELECTOR_CELLS
    && l.i == |s.selectorMtf| <= |st.selectorMtf| && st.selectorMtf[..l.i] == s.selectorMtf && l.j == s.j
  }

  ghost predicate SelectorsKnown(s: State, l: Saved, st: Store) {
    && l.nGroups == s.nGroups <= N_GROUPS && l.nSelectors == s.nSelectors == |s.selector| <= |st.selector|
    && st.selector[..|s.selector|] == s.selector
  }

  /** The first tables' code lengths. */
  ghost predicate Rows(s: State, n: int, st: Store) {
    && |s.len| <= |st.len| && n >= 0
    && forall r :: 0 <= r < |s.len| ==> n <= |st.len[r]| && st.len[r][..n] == s.len[r]
  }

  ghost predicate RowRead(s: State, l: Saved, st: Store) {
    && l.t == |s.len| < |st.len| && l.i == |s.cur| <= |st.len[l.t]| && st.len[l.t][..l.i] == s.cur && l.curr == s.curr
  }

  /** The decode tables of all groups. */
  ghost predicate TablesKnown(s: State, st: Store) {
    && |s.len| <= |st.tables| && |s.len| <= |st.minLens|
    && forall r :: 0 <= r < |s.len| ==> Agree(st.tables[r], s.len[r]) && st.minLens[r] == MinLen(s.len[r])
  }

  ghost predicate ColumnSoFar(s: State, l: Saved, st: Store) {
    l.nblock == |s.tt| <= |st.tt| && st.tt[..|s.tt|] == s.tt
  }

  /** The group's table has been looked up. */
  ghost predicate GroupKnown(s: State, l: Saved) {
    && l.gSel == s.gSel && 0 <= s.gSel < |s.len| && l.gMinlen == MinLen(s.len[s.gSel])
    && l.gLimit == l.gBase == l.gPerm == s.gSel
  }

  /** The first entries of the list are those in use: no other is ever moved or looked up. */
  ghost predicate ListLow(y: seq<int>, n: int) {
    n <= |y| && forall r :: 0 <= r < n ==> 0 <= y[r] < n
  }

  /** Between symbols. */
  ghost predicate Between(s: State, l: Saved, st: Store) {
    && MapKnown(s, l, st) && SelectorsKnown(s, l, st) && TablesKnown(s, st) && Spells(st.mtfa, st.mtfbase, s.y)
    && st.mtfbase[0] >= 1
    && ListLow(s.y, NInUse(s)) && l.groupNo == s.groupNo && l.groupPos == s.groupPos
    && (s.groupPos > 0 ==> GroupKnown(s, l))
    && l.eob == NInUse(s) + 1 && l.nblockMAX == Capacity(s) && ColumnSoFar(s, l, st)
  }

  /** The bits read so far are beyond all codes of their length. */
  ghost predicate Beyond(len: seq<nat>, n: int, z: int) {
    n >= 0 && MinLen(len) <= n && z > LimitAt(len, MinLen(len), MaxLen(len), n) && z >= 0
  }

  /** A symbol's code is being read; within a run, the run's value so far is known. */
  ghost predicate CodeRead(s: State, k: int, l: Saved, st: Store) {
    && Between(s, l, st) && GroupKnown(s, l) && l.zn == s.zn
    && (if k % 2 == 1 then s.zn == MinLen(s.len[s.gSel])
      else l.zvec == s.zvec && Beyond(s.len[s.gSel], s.zn - 1, s.zvec))
    && (k == 3 || k == 4 ==> l.es == s.es && l.N == s.N)
  }

  /** At a label, all that is needed there and further on is known from the saved variables and
      the storage. */
  ghost predicate Live(s: State, l: Saved, st: Store) {
    && Common(s, st)
    && match s.at
       case Mapping1 => l.i == |s.inUse16| <= |st.inUse16| && st.inUse16[..l.i] == s.inUse16
       case Mapping2 => MapBits(s, l, st)
       case Selector1 => MapKnown(s, l, st)
       case Selector2 => MapKnown(s, l, st) && l.nGroups == s.nGroups
       case Selector3 => MapKnown(s, l, st) && RanksRead(s, l, st)
       case Coding1 => MapKnown(s, l, st) && SelectorsKnown(s, l, st) && Rows(s, l.alphaSize, st) && l.t == |s.len|
       case Coding2 => MapKnown(s, l, st) && SelectorsKnown(s, l, st) && Rows(s, l.alphaSize, st) && RowRead(s, l, st)
       case Coding3 => MapKnown(s, l, st) && SelectorsKnown(s, l, st) && Rows(s, l.alphaSize, st) && RowRead(s, l, st)
       case Mtf(k) => CodeRead(s, k, l, st)
       case Output => ColumnSoFar(s, l, st)
       case _ => true
  }

  /** Going on, or back to the caller. */
  datatype Turn = Going | Back(code: Status)

  /** The decoder has done what the machine does. */
  ghost predicate Meets(o: Outcome, turn: Turn, l: Saved, st: Store) {
    && Shaped(st)
    && match o
       case Continue(s) => turn == Going && Live(s, l, st)
       case Return(code, s) => turn == Back(code) && (code == Ok || code == StreamEnd ==> Live(s, l, st))
  }
}
