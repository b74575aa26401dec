/** The decompressor, given the code tables and the coded symbols of a block. */
module SymbolDecoding {
  import opened Bits
  import opened BlockDecoding
  import opened CanonicalCodes
  import opened CodeTables
  import opened Coroutine
  import opened Decompressor
  import opened MoveToFront
  import opened PrefixCost
  import opened StreamFormat
  import opened SymbolMaps
  import opened Words

  // All tables.

  /** The state once all tables have been read. */
  function WithTables(s: State, len: seq<seq<nat>>): State
    requires |len| >= 1 && forall t :: 0 <= t < |len| ==> len[t] != []
  {
    var l := len[|len| - 1];
    s.(len := len, cur := l, curr := l[|l| - 1], at := Coding2)
  }

  /** The state before the t-th table, where t tables have been read. */
  ghost predicate InTables(s: State, len: seq<seq<nat>>) {
    && Selected(s) && |len| == s.nGroups && |s.len| < |len| && s.len == len[..|s.len|]
    && forall t :: 0 <= t < |len| ==> |len[t]| == NInUse(s) + 2 && GoodLengths(len[t])
  }

  lemma TableStart(s: State, len: seq<seq<nat>>)
    requires s.at == Coding1 && InTables(s, len)
    ensures var l := len[|s.len|]; var s1 := s.(curr := l[0], cur := [], at := Coding2);
      && l != [] && l[0] < Pow2(5) && Waiting(s) && Need(s) == 5
      && Advance(s, l[0]) == Continue(s1) && InTable(s1, l) && Waiting(s1)
  {
    hide Chars;
    var l := len[|s.len|];
    assert 1 <= l[0] <= LONGEST;
    assert Pow2(5) == 32;
  }

  lemma TableEnd(s: State, len: seq<seq<nat>>)
    requires InTables(s, len)
    ensures var l := len[|s.len|]; var s1 := s.(cur := l, curr := l[|l| - 1], at := Coding2);
      && l != [] && Coding(s1) && |s1.cur| == NInUse(s1) + 2 && GoodLengths(s1.cur)
      && var s2 := s1.(len := len[..|s.len| + 1]);
      && (|s.len| + 1 < |len| ==> TableDone(s1) == Continue(s2.(at := Coding1)) && InTables(s2.(at := Coding1), len))
      && (|s.len| + 1 == |len| ==>
        s2.len == len && |len| == s2.nGroups && GoodTables(s2) && Selected(s2) && TableDone(s1) == FirstSymbol(s2))
  {
    hide Chars, FirstSymbol;
    assert s.len + [len[|s.len|]] == len[..|s.len| + 1];
  }

  lemma TablesNonempty(s: State, len: seq<seq<nat>>)
    requires InTables(s, len)
    ensures |s.len| < |len| && forall t :: 0 <= t < |len| ==> len[t] != []
  {
  }

  lemma TablesBitsParts(len: seq<seq<nat>>, t: int)
    requires 0 <= t < |len| && forall t :: 0 <= t < |len| ==> len[t] != []
    ensures TablesBits(len[t..]) == Word(len[t][0], 5) + LengthBits(len[t][0], len[t]) + TablesBits(len[t + 1..])
    ensures t + 1 == |len| ==> TablesBits(len[t + 1..]) == []
  {
    assert len[t..][1..] == len[t + 1..];
  }

  lemma OnwardTo(o: Outcome, s1: State, x: seq<bool>)
    requires o == Continue(s1) && Waiting(s1)
    ensures Moves(o) && Onward(o, x) == Drive(s1, x)
  {
    hide Drive, Good;
  }

  lemma TablesGood(s: State, len: seq<seq<nat>>)
    requires Selected(s) && s.len == len && GoodTables(s) && |len| == s.nGroups
    ensures Selected(s) && |s.len| == s.nGroups && GoodTables(s) && Moves(FirstSymbol(s))
  {
    hide Chars, GoodLengths, StartSymbol;
    StartSymbolMoves(s.(groupNo := -1, groupPos := 0, y := Identity(256), tt := []), 1);
  }

  lemma {:induction false} TablesDecode(s: State, len: seq<seq<nat>>, x: seq<bool>)
    requires s.at == Coding1 && InTables(s, len)
    ensures |len| >= 1 && forall t :: 0 <= t < |len| ==> len[t] != []
    ensures var s1 := WithTables(s, len);
      && Waiting(s) && Selected(s1) && |s1.len| == s1.nGroups && GoodTables(s1) && Moves(FirstSymbol(s1))
      && Drive(s, TablesBits(len[|s.len|..]) + x) == Onward(FirstSymbol(s1), x)
    decreases |len| - |s.len|
  {
    hide Advance, Coding, Drive, FirstSymbol, Good, GoodLengths, GoodTables, InTable, InTables, LengthBits, Moves,
      NInUse, Need, Onward, Pow2, Selected, TableDone, TablesBits, Waiting, Word;
    TablesNonempty(s, len);
    var t := |s.len|;
    var l := len[t];
    TableStart(s, len);
    TableEnd(s, len);
    var more := TablesBits(len[t + 1..]);
    TablesBitsParts(len, t);
    var s1 := s.(curr := l[0], cur := [], at := Coding2);
    var s2 := s1.(cur := l, curr := l[|l| - 1]);
    var s3 := s2.(len := len[..t + 1]);
    assert Word(l[0], 5) + LengthBits(l[0], l) + more + x == Word(l[0], 5) + (LengthBits(l[0], l) + (more + x));
    StepWord(s, l[0], 5, LengthBits(l[0], l) + (more + x));
    OnwardTo(Advance(s, l[0]), s1, LengthBits(l[0], l) + (more + x));
    assert l[0..] == l;
    LengthsDecode(s1, l, more + x);
    if t + 1 < |len| {
      TableWaiting(s3.(at := Coding1), len);
      OnwardTo(TableDone(s2), s3.(at := Coding1), more + x);
      TablesDecode(s3.(at := Coding1), len, x);
    } else {
      assert more + x == x;
      assert len[..t + 1] == len;
      TablesGood(s3, len);
    }
  }

  lemma TableWaiting(s: State, len: seq<seq<nat>>)
    requires s.at == Coding1 && InTables(s, len)
    ensures Waiting(s)
  {
    TableStart(s, len);
  }

  // One symbol.

  /** What the block fixes about the state, between symbols; i symbols have been asked for. */
  ghost predicate InPlace(s: State, b: Block, i: int) {
    && Sendable(b) && 0 <= i <= |b.vs| && Tabled(s)
    && s.inUse == b.inUse && s.selector == b.selectors && s.len == b.len
    && (if i % G_SIZE == 0 then s.groupPos == 0 && s.groupNo == i / G_SIZE - 1
        else s.groupPos == G_SIZE - i % G_SIZE && s.groupNo == i / G_SIZE && s.gSel == b.selectors[i / G_SIZE])
  }

  function TableOf(b: Block, i: int): nat
    requires Sendable(b) && 0 <= i < |b.vs|
  {
    b.selectors[i / G_SIZE]
  }

  /** The state once symbol i has been asked for. */
  function Asked(s: State, b: Block, i: int, k: int): State
    requires Sendable(b) && 0 <= i < |b.vs|
  {
    s.(groupNo := i / G_SIZE, groupPos := G_SIZE - 1 - i % G_SIZE, gSel := TableOf(b, i),
       zn := MinLen(b.len[TableOf(b, i)]), at := Mtf(k))
  }

  lemma AskSymbol(s: State, b: Block, i: int, k: int)
    requires InPlace(s, b, i) && i < |b.vs| && k % 2 == 1
    ensures StartSymbol(s, k) == Continue(Asked(s, b, i, k)) && Waiting(Asked(s, b, i, k))
    ensures InPlace(Asked(s, b, i, k), b, i + 1)
  {
    hide Chars, MinLen;
    StartSymbolMoves(s, k);
    NextPlace(i);
  }

  lemma NextPlace(i: nat)
    ensures (i + 1) % G_SIZE == 0 ==> (i + 1) / G_SIZE == i / G_SIZE + 1 && i % G_SIZE == G_SIZE - 1
    ensures (i + 1) % G_SIZE != 0 ==> (i + 1) / G_SIZE == i / G_SIZE && (i + 1) % G_SIZE == i % G_SIZE + 1
  {
  }

  /** What the machine does with a symbol it has read. */
  function Take(s: State, k: int, sym: int): Outcome
    requires Tabled(s) && 0 <= sym < NInUse(s) + 2
  {
    if k == 3 then TakeInRun(s, sym) else TakeSymbol(s, sym)
  }

  /** The state amid the code of symbol sym, by table l. */
  ghost predicate InCode(s: State, l: seq<nat>, sym: int) {
    && Tabled(s) && 0 <= s.gSel < s.nGroups && s.len[s.gSel] == l && 0 <= sym < |l| == NInUse(s) + 2
    && Decodable(l, MinLen(l), MaxLen(l)) && TablesFor(TablesOf(l), l, MinLen(l), MaxLen(l))
    && |TablesOf(l).perm| == |l|
    && |TablesOf(l).limit| == |TablesOf(l).base| == MAX_CODE_LEN
  }

  lemma TableDecodable(s: State, l: seq<nat>, sym: int)
    requires Tabled(s) && 0 <= s.gSel < s.nGroups && s.len[s.gSel] == l && 0 <= sym < |l| && KraftSum(l) <= 1.0
    ensures InCode(s, l, sym)
  {
    hide Chars, MinLen, MaxLen, KraftSum;
    assert |l| == NInUse(s) + 2 && GoodLengths(l);
    CharsFew(s.inUse);
    MinMax(l);
    MinMaxWithin(l, 1, LONGEST);
    TablesOfFit(l);
  }

  lemma CharsFew(inUse: seq<bool>)
    ensures |Chars(inUse)| <= |inUse|
  {
  }

  /** Where a complete code leads. */
  lemma CodePlace(l: seq<nat>, sym: int, t: Tables)
    requires 0 <= sym < |l| && Decodable(l, MinLen(l), MaxLen(l)) && TablesFor(t, l, MinLen(l), MaxLen(l))
    requires |t.limit| == |t.base| == MAX_CODE_LEN && |t.perm| == |l|
    ensures l[sym] <= LONGEST && LimitOf(t, l[sym]) >= Code(l, MinLen(l), sym)
    ensures var p := Code(l, MinLen(l), sym) - BaseOf(t, l[sym]);
      0 <= p < TABLE_SIZE && p < |t.perm| && t.perm[p] == sym
  {
    hide First, Times, Shorter, MinLen, MaxLen, KraftSum;
    CodeBounds(l, MinLen(l), sym);
    PlaceWithin(l, sym);
    assert Code(l, MinLen(l), sym) - t.base[l[sym]] == Place(l, sym);
  }

  lemma CodeHit(s: State, l: seq<nat>, sym: int, k: int)
    requires InCode(s, l, sym) && s.zn == l[sym] && s.zvec == Code(l, MinLen(l), sym)
    ensures CheckCode(s, k) == Take(s, k, sym)
  {
    hide BaseOf, Code, Decodable, InCode, LimitOf, MaxLen, MinLen, NInUse, Tabled, TablesFor, TablesOf, TakeInRun,
      TakeSymbol;
    InCodeFacts(s, l, sym);
    CodePlace(l, sym, TablesOf(l));
  }

  lemma InCodeFacts(s: State, l: seq<nat>, sym: int)
    requires InCode(s, l, sym)
    ensures Tabled(s) && 0 <= s.gSel < s.nGroups && s.gSel < |s.len| && s.len[s.gSel] == l
    ensures 0 <= sym < |l| == NInUse(s) + 2
    ensures Decodable(l, MinLen(l), MaxLen(l)) && TablesFor(TablesOf(l), l, MinLen(l), MaxLen(l))
    ensures |TablesOf(l).perm| == |l| && |TablesOf(l).limit| == |TablesOf(l).base| == MAX_CODE_LEN
  {
  }

  lemma CodeMiss(s: State, l: seq<nat>, sym: int, k: int)
    requires InCode(s, l, sym) && MinLen(l) <= s.zn < l[sym]
    requires s.zvec >= First(l, MinLen(l), s.zn) + Times(l, s.zn)
    ensures CheckCode(s, k) == Continue(s.(zn := s.zn + 1, at := Mtf(k + 1)))
  {
    hide First, Times, Shorter, TablesOf, MinLen, MaxLen, Chars, TakeInRun, TakeSymbol, KraftSum;
  }

  lemma NextBitMtf(s: State, k: int, b: nat)
    requires s.at == Mtf(k + 1) && k % 2 == 1 && Waiting(s) && b < 2
    ensures Need(s) == 1 && Advance(s, b) == CheckCode(s.(zvec := s.zvec * 2 + b), k)
  {
    hide CheckCode, Chars;
  }

  /** Reading on from the first n bits of a code. */
  lemma {:induction false} CodeOn(s: State, l: seq<nat>, sym: int, k: int, w: seq<bool>, x: seq<bool>)
    returns (s1: State)
    requires InCode(s, l, sym) && k % 2 == 1 && MinLen(l) <= s.zn <= l[sym]
    requires w == CodeWord(l, MinLen(l), sym) && s.zvec == Shr(Code(l, MinLen(l), sym), l[sym] - s.zn)
    ensures s1 == s.(at := s1.at, zn := s1.zn, zvec := s1.zvec) && InCode(s1, l, sym)
    ensures Moves(CheckCode(s, k)) && Moves(Take(s1, k, sym)) && s.zn <= |w|
    ensures Onward(CheckCode(s, k), w[s.zn..] + x) == Onward(Take(s1, k, sym), x)
    decreases l[sym] - s.zn
  {
    hide *;
    InCodeFacts(s, l, sym);
    var lo := MinLen(l);
    var c, m, n := Code(l, lo, sym), l[sym], s.zn;
    CodeWordStart(l, lo, MaxLen(l), sym);
    CheckCodeMoves(s, k);
    if n == m {
      ShrNone(c);
      CodeHit(s, l, sym, k);
      assert w[n..] + x == x;
      s1 := s;
    } else {
      ShrAbove(l, lo, n, m, c);
      CodeMiss(s, l, sym, k);
      CodeWordBit(l, lo, sym, n);
      var s2 := s.(zn := n + 1, at := Mtf(k + 1));
      var bit := if w[n] then 1 else 0;
      var s3 := s2.(zvec := s2.zvec * 2 + bit);
      MovesWaits(CheckCode(s, k));
      OnwardTo(CheckCode(s, k), s2, w[n..] + x);
      NextBitMtf(s2, k, bit);
      assert w[n..] + x == [w[n]] + (w[n + 1..] + x);
      StepBit(s2, w[n], w[n + 1..] + x);
      SameCode(s, s3, l, sym);
      s1 := CodeOn(s3, l, sym, k, w, x);
    }
  }

  lemma MovesWaits(o: Outcome)
    requires Moves(o)
    ensures o.Continue? ==> Waiting(o.s)
  {
  }

  lemma SameCode(s: State, s1: State, l: seq<nat>, sym: int)
    requires InCode(s, l, sym) && s1 == s.(at := s1.at, zn := s1.zn, zvec := s1.zvec)
    ensures InCode(s1, l, sym)
  {
    hide MinLen, MaxLen, TablesFor, TablesOf, KraftSum;
  }

  /** Two states that differ only in how they read symbols. */
  ghost predicate Alike(s: State, s1: State) {
    s1 == s.(at := s1.at, zn := s1.zn, zvec := s1.zvec, groupNo := s1.groupNo, groupPos := s1.groupPos, gSel := s1.gSel)
  }

  lemma PlacedTable(s: State, b: Block, i: int)
    requires InPlace(s, b, i) && i < |b.vs|
    ensures TableOf(b, i) < |b.len| && |b.vs| > 0
    ensures var l := b.len[TableOf(b, i)];
      0 <= b.vs[i] < |l| && KraftSum(l) <= 1.0 && SymbolBits(b, i) == CodeWord(l, MinLen(l), b.vs[i])
  {
    hide MinLen, KraftSum, Chars;
  }

  lemma AskedInCode(s: State, b: Block, i: int, k: int)
    requires InPlace(s, b, i) && i < |b.vs| && InPlace(Asked(s, b, i, k), b, i + 1)
    ensures TableOf(b, i) < |b.len|
    ensures InCode(Asked(s, b, i, k), b.len[TableOf(b, i)], b.vs[i])
  {
    hide InCode;
    PlacedTable(s, b, i);
    TableDecodable(Asked(s, b, i, k), b.len[TableOf(b, i)], b.vs[i]);
  }

  lemma FirstBitsMtf(s: State, k: int, v: nat)
    requires s.at == Mtf(k) && k % 2 == 1 && Waiting(s)
    ensures Need(s) == s.zn && Advance(s, v) == CheckCode(s.(zvec := v), k)
  {
    hide CheckCode, Chars;
  }

  lemma PlacedAlike(s: State, s1: State, b: Block, i: int)
    requires InPlace(s, b, i) && s1 == s.(at := s1.at, zn := s1.zn, zvec := s1.zvec)
    ensures InPlace(s1, b, i)
  {
    hide Chars, KraftSum;
  }

  /** Asking for a symbol and being given its code. */
  lemma SymbolDecodes(s: State, b: Block, i: int, k: int, x: seq<bool>) returns (s1: State)
    requires InPlace(s, b, i) && i < |b.vs| && k % 2 == 1
    ensures Alike(s, s1) && InPlace(s1, b, i + 1) && 0 <= b.vs[i] < NInUse(s1) + 2
    ensures Moves(StartSymbol(s, k)) && Moves(Take(s1, k, b.vs[i]))
    ensures Onward(StartSymbol(s, k), SymbolBits(b, i) + x) == Onward(Take(s1, k, b.vs[i]), x)
  {
    hide Advance, Asked, CheckCode, Code, CodeWord, Decodable, Drive, First, Good, InCode, InPlace, KraftSum, MaxLen,
      MinLen, Moves, NInUse, Need, Onward, Sendable, Shr, StartSymbol, SymbolBits, TableOf, Tabled, TablesFor,
      TablesOf, Take, Value, Waiting;
    PlacedFacts(s, b, i);
    PlacedTable(s, b, i);
    AskSymbol(s, b, i, k);
    AskedInCode(s, b, i, k);
    var a := Asked(s, b, i, k);
    var l, sym := b.len[TableOf(b, i)], b.vs[i];
    InCodeFacts(a, l, sym);
    AskedFields(s, b, i, k);
    var w := SymbolBits(b, i);
    var lo := MinLen(l);
    CodeWordStart(l, lo, MaxLen(l), sym);
    OnwardTo(StartSymbol(s, k), a, w + x);
    FirstBitsMtf(a, k, Value(w[..lo]));
    DriveNext(a, w + x);
    assert (w + x)[..lo] == w[..lo] && (w + x)[lo..] == w[lo..] + x;
    var a1 := a.(zvec := Value(w[..lo]));
    SameCode(a, a1, l, sym);
    s1 := CodeOn(a1, l, sym, k, w, x);
    PlacedAlike(a, s1, b, i + 1);
    InCodeFacts(s1, l, sym);
  }

  lemma PlacedFacts(s: State, b: Block, i: int)
    requires InPlace(s, b, i)
    ensures Sendable(b) && Tabled(s) && 0 <= i <= |b.vs|
  {
  }

  lemma AskedFields(s: State, b: Block, i: int, k: int)
    requires Sendable(b) && 0 <= i < |b.vs|
    ensures TableOf(b, i) < |b.len|
    ensures var a := Asked(s, b, i, k);
      a.at == Mtf(k) && a.zn == MinLen(b.len[TableOf(b, i)]) && Alike(s, a)
  {
    hide MinLen, KraftSum;
  }
}
