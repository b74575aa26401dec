/** Writing a block: header, mapping table, selectors, code lengths and coded symbols. */
module BlockWriter {
  import opened Bits
  import opened BitWriters
  import opened CanonicalCodes
  import opened CodeLengths
  import opened CodeTables
  import opened Decompressor
  import Huffman
  import opened MoveToFront
  import opened PrefixCost
  import opened StreamFormat
  import opened Sums
  import opened SymbolMaps
  import opened Words

  /** Puts bytes one by one. */
  method PutBytes(w: BitWriter, bytes: seq<nat>)
    requires w.Valid() && w.bsLive >= 0 && forall i :: 0 <= i < |bytes| ==> bytes[i] < 256
    modifies w
    ensures w.Valid() && w.bsLive >= 0 && w.Written() == old(w.Written()) + BitsOf(bytes)
  {
    hide Word, BitsOf, Pow2;
    Pow2Values();
    ghost var w0 := w.Written();
    NoBytes();
    assert w0 + [] == w0;
    for i := 0 to |bytes|
      invariant w.Valid() && w.bsLive >= 0 && w.Written() == w0 + BitsOf(bytes[..i])
    {
      w.W(8, bytes[i]);
      assert bytes[..i + 1] == bytes[..i] + [bytes[i]];
      BitsOfNext(bytes[..i], bytes[i]);
    }
    assert bytes[..|bytes|] == bytes;
  }

  lemma NoBytes()
    ensures BitsOf([]) == []
  {
  }

  lemma OneBit(b: bool)
    ensures Word(if b then 1 else 0, 1) == [b] && Pow2(1) == 2
  {
    assert Word(0, 0) == [];
  }

  /** Puts one bit. */
  method PutBit(w: BitWriter, b: bool)
    requires w.Valid() && w.bsLive >= 0
    modifies w
    ensures w.Valid() && w.bsLive >= 0 && w.Written() == old(w.Written()) + [b]
  {
    OneBit(b);
    if b { w.W(1, 1); } else { w.W(1, 0); }
  }

  /** Puts bits one by one. */
  method PutBits(w: BitWriter, bits: seq<bool>)
    requires w.Valid() && w.bsLive >= 0
    modifies w
    ensures w.Valid() && w.bsLive >= 0 && w.Written() == old(w.Written()) + bits
  {
    ghost var w0 := w.Written();
    assert w0 + bits[..0] == w0;
    for i := 0 to |bits|
      invariant w.Valid() && w.bsLive >= 0 && w.Written() == w0 + bits[..i]
    {
      PutBit(w, bits[i]);
      assert w0 + bits[..i] + [bits[i]] == w0 + bits[..i + 1];
    }
    assert bits[..|bits|] == bits;
  }

  /** Which groups of 16 byte values have any in use. */
  method PutMapHead(w: BitWriter, inUse: seq<bool>)
    requires w.Valid() && w.bsLive >= 0 && |inUse| == 256
    modifies w
    ensures w.Valid() && w.bsLive >= 0 && w.Written() == old(w.Written()) + MapHead(inUse)
  {
    hide GroupUsed;
    ghost var w0 := w.Written();
    ghost var h := MapHead(inUse);
    assert w0 + h[..0] == w0;
    for i := 0 to 16
      invariant w.Valid() && w.bsLive >= 0 && w.Written() == w0 + h[..i]
    {
      PutBit(w, GroupUsed(inUse, i));
      assert w0 + h[..i] + [h[i]] == w0 + h[..i + 1];
    }
    assert h[..16] == h;
  }

  lemma MapBodyParts(inUse: seq<bool>, i: int)
    requires |inUse| == 256 && 0 <= i <= 16
    ensures i == 16 ==> MapBody(inUse, i) == []
    ensures i < 16 && GroupUsed(inUse, i) ==> MapBody(inUse, i) == inUse[16 * i..16 * i + 16] + MapBody(inUse, i + 1)
    ensures i < 16 && !GroupUsed(inUse, i) ==> MapBody(inUse, i) == MapBody(inUse, i + 1)
  {
  }

  /** The byte values in use of those groups. */
  method PutMapBody(w: BitWriter, inUse: seq<bool>)
    requires w.Valid() && w.bsLive >= 0 && |inUse| == 256
    modifies w
    ensures w.Valid() && w.bsLive >= 0 && w.Written() == old(w.Written()) + MapBody(inUse, 0)
  {
    hide GroupUsed, MapBody;
    ghost var w0 := w.Written();
    for i := 0 to 16
      invariant w.Valid() && w.bsLive >= 0 && w.Written() + MapBody(inUse, i) == w0 + MapBody(inUse, 0)
    {
      MapBodyParts(inUse, i);
      if GroupUsed(inUse, i) {
        ghost var v := w.Written();
        PutBits(w, inUse[16 * i..16 * i + 16]);
        assert v + (inUse[16 * i..16 * i + 16] + MapBody(inUse, i + 1)) == w.Written() + MapBody(inUse, i + 1);
      }
    }
    MapBodyParts(inUse, 16);
    assert w.Written() + [] == w.Written();
  }

  /** A number in unary. */
  method PutUnary(w: BitWriter, j: nat)
    requires w.Valid() && w.bsLive >= 0
    modifies w
    ensures w.Valid() && w.bsLive >= 0 && w.Written() == old(w.Written()) + Unary(j)
  {
    ghost var w0 := w.Written();
    for i := 0 to j
      invariant w.Valid() && w.bsLive >= 0 && w.Written() + Unary(j - i) == w0 + Unary(j)
    {
      ghost var v := w.Written();
      PutBit(w, true);
      assert v + ([true] + Unary(j - i - 1)) == w.Written() + Unary(j - i - 1);
    }
    PutBit(w, false);
  }

  /** The selectors' ranks. */
  method PutSelectors(w: BitWriter, js: seq<nat>)
    requires w.Valid() && w.bsLive >= 0
    modifies w
    ensures w.Valid() && w.bsLive >= 0 && w.Written() == old(w.Written()) + SelectorBits(js)
  {
    hide Unary;
    ghost var w0 := w.Written();
    assert js[0..] == js;
    for i := 0 to |js|
      invariant w.Valid() && w.bsLive >= 0 && w.Written() + SelectorBits(js[i..]) == w0 + SelectorBits(js)
    {
      ghost var v := w.Written();
      PutUnary(w, js[i]);
      assert js[i..][1..] == js[i + 1..];
      assert v + (Unary(js[i]) + SelectorBits(js[i + 1..])) == w.Written() + SelectorBits(js[i + 1..]);
    }
    assert w.Written() + [] == w.Written();
  }

  lemma StepsAre(c: nat, l: nat)
    ensures c < l ==> Steps(c, l) == [true, false] + Steps(c + 1, l)
    ensures c > l ==> Steps(c, l) == [true, true] + Steps(c - 1, l)
    ensures c == l ==> Steps(c, l) == [false]
  {
  }

  /** From one code length to the next. */
  method PutSteps(w: BitWriter, curr: nat, l: nat)
    requires w.Valid() && w.bsLive >= 0
    modifies w
    ensures w.Valid() && w.bsLive >= 0 && w.Written() == old(w.Written()) + Steps(curr, l)
  {
    hide Word, BitsOf, Pow2, Steps, Buffered;
    ghost var w0 := w.Written();
    var c := curr;
    StepWords();
    while c < l
      invariant w.Valid() && w.bsLive >= 0 && (c <= l || c == curr) && w.Written() + Steps(c, l) == w0 + Steps(curr, l)
    {
      StepsAre(c, l);
      ghost var v := w.Written();
      w.W(2, 2);
      assert v + ([true, false] + Steps(c + 1, l)) == w.Written() + Steps(c + 1, l);
      c := c + 1;
    }
    while c > l
      invariant w.Valid() && w.bsLive >= 0 && c >= l && w.Written() + Steps(c, l) == w0 + Steps(curr, l)
    {
      StepsAre(c, l);
      ghost var v := w.Written();
      w.W(2, 3);
      assert v + ([true, true] + Steps(c - 1, l)) == w.Written() + Steps(c - 1, l);
      c := c - 1;
    }
    StepsAre(c, l);
    PutBit(w, false);
  }

  lemma StepWords()
    ensures Word(2, 2) == [true, false] && Word(3, 2) == [true, true] && Pow2(2) == 4
  {
    assert Word(0, 0) == [] && Word(1, 1) == [true];
  }

  /** The code lengths of one table. */
  method PutTable(w: BitWriter, len: seq<nat>)
    requires w.Valid() && w.bsLive >= 0 && len != [] && forall i :: 0 <= i < |len| ==> len[i] < 32
    modifies w
    ensures w.Valid() && w.bsLive >= 0 && w.Written() == old(w.Written()) + TableBits(len)
  {
    hide Word, BitsOf, Pow2, Steps;
    FiveBits();
    ghost var w0 := w.Written();
    var curr := len[0];
    w.W(5, curr);
    ghost var w1 := w.Written();
    assert len[0..] == len;
    for i := 0 to |len|
      invariant w.Valid() && w.bsLive >= 0
      invariant w.Written() + LengthBits(curr, len[i..]) == w1 + LengthBits(len[0], len)
    {
      ghost var v := w.Written();
      PutSteps(w, curr, len[i]);
      assert len[i..][1..] == len[i + 1..];
      assert v + (Steps(curr, len[i]) + LengthBits(len[i], len[i + 1..])) ==
        w.Written() + LengthBits(len[i], len[i + 1..]);
      curr := len[i];
    }
    assert w.Written() + [] == w.Written();
    assert w0 + Word(len[0], 5) + LengthBits(len[0], len) == w0 + TableBits(len);
  }

  lemma FiveBits()
    ensures Pow2(5) == 32
  {
  }

  /** All tables. */
  method PutTables(w: BitWriter, len: seq<seq<nat>>)
    requires w.Valid() && w.bsLive >= 0
    requires forall t :: 0 <= t < |len| ==> len[t] != [] && forall i :: 0 <= i < |len[t]| ==> len[t][i] < 32
    modifies w
    ensures w.Valid() && w.bsLive >= 0 && w.Written() == old(w.Written()) + TablesBits(len)
  {
    hide TableBits;
    ghost var w0 := w.Written();
    assert len[0..] == len;
    for t := 0 to |len|
      invariant w.Valid() && w.bsLive >= 0 && w.Written() + TablesBits(len[t..]) == w0 + TablesBits(len)
    {
      ghost var v := w.Written();
      PutTable(w, len[t]);
      assert len[t..][1..] == len[t + 1..];
      assert v + (TableBits(len[t]) + TablesBits(len[t + 1..])) == w.Written() + TablesBits(len[t + 1..]);
    }
    assert w.Written() + [] == w.Written();
  }

  // The codes.

  /** The shortest and the longest length. */
  method FindMinMax(length: array<nat>, alphaSize: int) returns (minLen: nat, maxLen: nat)
    requires 0 <= alphaSize <= length.Length
    ensures minLen == MinLen(length[..alphaSize]) && maxLen == MaxLen(length[..alphaSize])
  {
    minLen := 32;
    maxLen := 0;
    for i := 0 to alphaSize
      invariant minLen == MinLen(length[..i]) && maxLen == MaxLen(length[..i])
    {
      assert length[..i + 1][..i] == length[..i];
      if length[i] > maxLen { maxLen := length[i]; }
      if length[i] < minLen { minLen := length[i]; }
    }
  }

  /** The codes fit the lengths of each table. */
  ghost predicate CodesFor(code: seq<seq<int>>, len: seq<seq<nat>>) {
    && |code| == |len|
    && (forall t :: 0 <= t < |len| ==> |code[t]| == |len[t]|)
    && (forall t, i :: 0 <= t < |len| && 0 <= i < |len[t]| ==> code[t][i] == Code(len[t], MinLen(len[t]), i))
  }

  /** Code lengths and codes of one table, from how often it is used for each symbol. */
  method MakeTable(rfreq: seq<nat>) returns (len: seq<nat>, code: seq<int>)
    requires 2 <= |rfreq| <= TABLE_SIZE && Total(Counted(rfreq)) < Huffman.WEIGHT_LIMIT
    ensures |len| == |code| == |rfreq| && (forall i :: 0 <= i < |len| ==> 1 <= len[i] <= 17) && KraftSum(len) == 1.0
    ensures forall i :: 0 <= i < |len| ==> code[i] == Code(len, MinLen(len), i)
    ensures Fitted(rfreq, len, 17)
  {
    hide Total, Counted, KraftSum, Code, Fitted, MinLen, MaxLen, Optimal, Overflows;
    var n := |rfreq|;
    var freq := new nat[n](i requires 0 <= i < n => rfreq[i]);
    assert freq[..n] == rfreq;
    var length := new nat[n];
    var codes := new int[n];
    ghost var rounds := MakeCodeLengths(length, freq, n, 17);
    var minLen, maxLen := FindMinMax(length, n);
    len := length[..n];
    MinMax(len);
    AssignCodes(codes, length, minLen, maxLen, n);
    assert length[..n] == len;
    code := codes[..n];
  }

  // Ranks of the selectors.

  /** Entries up to q have moved up by one; old entry q is held aside. */
  ghost predicate Slid(y: seq<int>, z: seq<int>, q: int) {
    && |z| == |y| && 0 <= q < |y|
    && (forall k :: 1 <= k <= q ==> z[k] == y[k - 1])
    && (forall k :: q < k < |y| ==> z[k] == y[k])
  }

  lemma SlidMoved(y: seq<int>, z: seq<int>, q: int)
    requires Slid(y, z, q) && y[q] !in y[..q]
    ensures z[0 := y[q]] == Moved(y, q) && Rank(y, y[q]) == q
  {
    RankFirst(y, q);
  }

  lemma {:induction false} RankFirst(y: seq<int>, q: int)
    requires 0 <= q < |y| && y[q] !in y[..q]
    ensures Rank(y, y[q]) == q
  {
    if q > 0 {
      assert y[0] in y[..q];
      assert y[1..][..q - 1] == y[1..q];
      RankFirst(y[1..], q - 1);
    }
  }

  /** The rank of selector c, which moves to the front. */
  method RankSelector(pos: array<int>, c: int) returns (j: int)
    requires pos.Length >= 1 && c in pos[..]
    modifies pos
    ensures j == Rank(old(pos[..]), c) && pos[..] == Moved(old(pos[..]), j)
  {
    ghost var y := pos[..];
    ghost var at := Rank(y, c);
    j := 0;
    var tmp := pos[j];
    while c != tmp
      invariant 0 <= j <= at && tmp == y[j] && Slid(y, pos[..], j) && c !in y[..j]
      decreases at - j
    {
      j := j + 1;
      tmp, pos[j] := pos[j], tmp;
    }
    SlidMoved(y, pos[..], j);
    pos[0] := tmp;
  }

  /** The ranks of all selectors. */
  method RankSelectors(selector: seq<int>, nGroups: nat) returns (js: seq<nat>)
    requires nGroups >= 1 && Listed(selector, Identity(nGroups))
    ensures js == Ranks(Identity(nGroups), selector)
  {
    var pos := new int[nGroups](i => i);
    ghost var y := Identity(nGroups);
    assert pos[..] == y;
    js := [];
    for i := 0 to |selector|
      invariant Listed(selector[..i], y) && js == Ranks(y, selector[..i]) && pos[..] == After(y, js)
    {
      hide Ranks, After, Moved, Rank, Listed;
      SelectorNext(y, selector, i);
      var j := RankSelector(pos, selector[i]);
      SymbolsNext(y, js, j);
      js := js + [j];
    }
    assert selector[..|selector|] == selector;
  }

  lemma SelectorNext(y: seq<int>, selector: seq<int>, i: int)
    requires 0 <= i < |selector| && Listed(selector, y)
    ensures Listed(selector[..i], y) && Listed(selector[..i + 1], y) && Below(Ranks(y, selector[..i]), |y|)
    ensures selector[i] in After(y, Ranks(y, selector[..i]))
    ensures Ranks(y, selector[..i + 1]) ==
      Ranks(y, selector[..i]) + [Rank(After(y, Ranks(y, selector[..i])), selector[i])]
  {
    hide Ranks, After, Rank;
    assert selector[..i + 1] == selector[..i] + [selector[i]];
    assert selector[i] in y;
    RanksNext(y, selector[..i], selector[i]);
  }

  // The symbols.

  /** What is needed to write symbol i: its table, and a code that fits its length. */
  lemma SymbolCode(b: Block, code: seq<seq<int>>, i: int)
    requires Sendable(b) && CodesFor(code, b.len) && 0 <= i < |b.vs|
    ensures i / G_SIZE < |b.selectors| && b.selectors[i / G_SIZE] < |b.len| == |code|
    ensures var t := b.selectors[i / G_SIZE];
      && 0 <= b.vs[i] < |b.len[t]| == |code[t]| && b.len[t][b.vs[i]] <= 25
      && 0 <= code[t][b.vs[i]] < Pow2(b.len[t][b.vs[i]])
      && Word(code[t][b.vs[i]], b.len[t][b.vs[i]]) == SymbolBits(b, i)
  {
    hide KraftSum, MinLen, Code, Chars, Word, Pow2, First, Times;
    var t := b.selectors[i / G_SIZE];
    var l := b.len[t];
    MinMax(l);
    CodeBounds(l, MinLen(l), b.vs[i]);
  }

  lemma DataStep(b: Block, i: int)
    requires Sendable(b) && 0 <= i < |b.vs|
    ensures DataBits(b, i) == SymbolBits(b, i) + DataBits(b, i + 1)
  {
    hide Sendable, SymbolBits;
  }

  lemma DataEnd(b: Block)
    requires Sendable(b)
    ensures DataBits(b, |b.vs|) == []
  {
  }

  /** The symbols of one group, by one table. */
  method PutGroup(w: BitWriter, mtfv: array<int>, gs: int, ge: int, selCtr: int, len: seq<nat>, code: seq<int>,
                  ghost b: Block, ghost codes: seq<seq<int>>)
    requires w.Valid() && w.bsLive >= 0 && Sendable(b) && CodesFor(codes, b.len)
    requires |b.vs| <= mtfv.Length && mtfv[..|b.vs|] == b.vs
    requires 0 <= gs <= ge < |b.vs| && gs == G_SIZE * selCtr && ge < gs + G_SIZE && selCtr < |b.selectors|
    requires b.selectors[selCtr] < |b.len| && |codes| == |b.len| && len == b.len[b.selectors[selCtr]]
    requires code == codes[b.selectors[selCtr]]
    modifies w
    ensures w.Valid() && w.bsLive >= 0 && w.Written() + DataBits(b, ge + 1) == old(w.Written()) + DataBits(b, gs)
  {
    hide *;
    ghost var d := w.Written() + DataBits(b, gs);
    GroupSize();
    for i := gs to ge + 1
      invariant w.Valid() && w.bsLive >= 0 && w.Written() + DataBits(b, i) == d
    {
      SymbolCode(b, codes, i);
      DataStep(b, i);
      assert i / G_SIZE == selCtr;
      assert mtfv[i] == mtfv[..|b.vs|][i];
      ghost var v := w.Written();
      w.W(len[mtfv[i]], code[mtfv[i]]);
      assert v + (SymbolBits(b, i) + DataBits(b, i + 1)) == w.Written() + DataBits(b, i + 1);
    }
  }

  lemma GroupSize()
    ensures G_SIZE == 50
  {
  }

  /** The coded symbols, in groups of 50. */
  method PutData(w: BitWriter, mtfv: array<int>, nMTF: int, selector: seq<nat>, len: seq<seq<nat>>, code: seq<seq<int>>,
                 ghost b: Block)
    requires w.Valid() && w.bsLive >= 0 && Sendable(b) && CodesFor(code, b.len)
    requires nMTF == |b.vs| <= mtfv.Length && mtfv[..nMTF] == b.vs && selector == b.selectors && len == b.len
    modifies w
    ensures w.Valid() && w.bsLive >= 0 && w.Written() == old(w.Written()) + DataBits(b, 0)
  {
    hide *;
    ghost var w0 := w.Written();
    GroupSize();
    var selCtr, gs := 0, 0;
    while true
      invariant w.Valid() && w.bsLive >= 0 && 0 <= gs && (gs < nMTF ==> gs == G_SIZE * selCtr) && gs <= nMTF
      invariant w.Written() + DataBits(b, gs) == w0 + DataBits(b, 0)
      decreases nMTF - gs
    {
      if gs >= nMTF { break; }
      var ge := gs + G_SIZE - 1;
      if ge >= nMTF { ge := nMTF - 1; }
      SymbolCode(b, code, gs);
      PutGroup(w, mtfv, gs, ge, selCtr, len[selector[selCtr]], code[selector[selCtr]], b, code);
      gs := ge + 1;
      selCtr := selCtr + 1;
    }
    DataEnd(b);
    assert w.Written() + [] == w.Written();
  }

  // The choice of tables, and how often each is used.

  /** How many tables are used for so many symbols. */
  function GroupsFor(nMTF: int): nat {
    if nMTF < 200 then 2 else if nMTF < 600 then 3 else if nMTF < 1200 then 4 else if nMTF < 2400 then 5 else 6
  }

  /** The outcome of the choice of tables: how often each table is used for each symbol, and a
      table for every 50 symbols. */
  ghost predicate Choice(rfreq: seq<seq<nat>>, selector: seq<nat>, nMTF: int, alphaSize: int) {
    && |rfreq| == GroupsFor(nMTF) && |selector| == (nMTF + G_SIZE - 1) / G_SIZE
    && (forall t :: 0 <= t < |rfreq| ==> |rfreq[t]| == alphaSize && Total(Counted(rfreq[t])) < Huffman.WEIGHT_LIMIT)
    && (forall i :: 0 <= i < |selector| ==> selector[i] < |rfreq|)
  }

  /** A table for every group of 50 symbols. */
  ghost predicate Picked(selector: seq<nat>, nMTF: int, nGroups: nat) {
    |selector| == (nMTF + G_SIZE - 1) / G_SIZE && forall i :: 0 <= i < |selector| ==> selector[i] < nGroups
  }

  /** How often symbol v is sent by table t among the first i symbols. */
  function Uses(vs: seq<int>, selector: seq<nat>, i: nat, t: nat, v: int): nat
    requires i <= |vs| && |selector| == (|vs| + G_SIZE - 1) / G_SIZE
  {
    if i == 0 then 0
    else Uses(vs, selector, i - 1, t, v) + if vs[i - 1] == v && selector[(i - 1) / G_SIZE] == t then 1 else 0
  }

  /** Every table's row counts its uses, which are no more than the symbols counted. */
  ghost predicate Tallied(rfreq: seq<seq<nat>>, vs: seq<int>, selector: seq<nat>, i: nat, nGroups: nat,
                          alphaSize: nat) {
    && i <= |vs| && |selector| == (|vs| + G_SIZE - 1) / G_SIZE && |rfreq| == nGroups
    && forall t :: 0 <= t < nGroups ==> Row(rfreq[t], vs, selector, i, t, alphaSize)
  }

  ghost predicate Row(row: seq<nat>, vs: seq<int>, selector: seq<nat>, i: nat, t: nat, alphaSize: nat)
    requires i <= |vs| && |selector| == (|vs| + G_SIZE - 1) / G_SIZE
  {
    |row| == alphaSize && Total(row) <= i && forall v :: 0 <= v < alphaSize ==> row[v] == Uses(vs, selector, i, t, v)
  }

  lemma RowNext(row: seq<nat>, vs: seq<int>, selector: seq<nat>, i: nat, t: nat, alphaSize: nat)
    requires i < |vs| && |selector| == (|vs| + G_SIZE - 1) / G_SIZE && Row(row, vs, selector, i, t, alphaSize)
    requires 0 <= vs[i] < alphaSize
    ensures selector[i / G_SIZE] != t ==> Row(row, vs, selector, i + 1, t, alphaSize)
    ensures selector[i / G_SIZE] == t ==> Row(row[vs[i] := row[vs[i]] + 1], vs, selector, i + 1, t, alphaSize)
  {
    hide Total;
    TotalUpdate(row, vs[i], row[vs[i]] + 1);
  }

  lemma {:induction false} TotalZeros(row: seq<nat>)
    requires forall v :: 0 <= v < |row| ==> row[v] == 0
    ensures Total(row) == 0
  {
    if row != [] { TotalZeros(row[..|row| - 1]); }
  }

  /** Counting zero frequencies as one adds no more than the size of the alphabet. */
  lemma {:induction false} CountedTotal(row: seq<nat>)
    ensures Total(Counted(row)) <= Total(row) + |row|
  {
    if row != [] {
      CountedTotal(row[..|row| - 1]);
      assert Counted(row)[..|row| - 1] == Counted(row[..|row| - 1]);
    }
  }

  lemma RowWeight(row: seq<nat>, vs: seq<int>, selector: seq<nat>, t: nat, alphaSize: nat)
    requires |selector| == (|vs| + G_SIZE - 1) / G_SIZE && Row(row, vs, selector, |vs|, t, alphaSize)
    requires |vs| <= 900001 && alphaSize <= TABLE_SIZE
    ensures |row| == alphaSize && Total(Counted(row)) < Huffman.WEIGHT_LIMIT
  {
    hide Total;
    CountedTotal(row);
  }

  /** Counts how often each table is used for each symbol. */
  method CountFrequencies(mtfv: array<int>, nMTF: nat, selector: seq<nat>, nGroups: nat, alphaSize: nat)
    returns (rfreq: seq<seq<nat>>)
    requires nMTF <= mtfv.Length && Picked(selector, nMTF, nGroups)
    requires forall i :: 0 <= i < nMTF ==> 0 <= mtfv[i] < alphaSize
    ensures Tallied(rfreq, mtfv[..nMTF], selector, nMTF, nGroups, alphaSize)
  {
    hide Row;
    ghost var vs := mtfv[..nMTF];
    rfreq := seq(nGroups, t => seq(alphaSize, v => 0));
    forall t | 0 <= t < nGroups ensures Row(rfreq[t], vs, selector, 0, t, alphaSize) {
      NoUses(rfreq[t], vs, selector, t, alphaSize);
    }
    for i := 0 to nMTF
      invariant Tallied(rfreq, vs, selector, i, nGroups, alphaSize)
    {
      var bt := selector[i / G_SIZE];
      assert vs[i] == mtfv[i];
      TalliedNext(rfreq, vs, selector, i, nGroups, alphaSize);
      rfreq := rfreq[bt := rfreq[bt][mtfv[i] := rfreq[bt][mtfv[i]] + 1]];
    }
  }

  lemma TalliedNext(rfreq: seq<seq<nat>>, vs: seq<int>, selector: seq<nat>, i: nat, nGroups: nat, alphaSize: nat)
    requires i < |vs| && Tallied(rfreq, vs, selector, i, nGroups, alphaSize) && Picked(selector, |vs|, nGroups)
    requires 0 <= vs[i] < alphaSize
    ensures |rfreq| == nGroups && selector[i / G_SIZE] < nGroups && |rfreq[selector[i / G_SIZE]]| == alphaSize
    ensures var bt := selector[i / G_SIZE];
      Tallied(rfreq[bt := rfreq[bt][vs[i] := rfreq[bt][vs[i]] + 1]], vs, selector, i + 1, nGroups, alphaSize)
  {
    hide Row;
    var bt := selector[i / G_SIZE];
    RowSize(rfreq[bt], vs, selector, i, bt, alphaSize);
    var next := rfreq[bt := rfreq[bt][vs[i] := rfreq[bt][vs[i]] + 1]];
    forall t | 0 <= t < nGroups ensures Row(next[t], vs, selector, i + 1, t, alphaSize) {
      RowNext(rfreq[t], vs, selector, i, t, alphaSize);
    }
  }

  lemma NoUses(row: seq<nat>, vs: seq<int>, selector: seq<nat>, t: nat, alphaSize: nat)
    requires |selector| == (|vs| + G_SIZE - 1) / G_SIZE && |row| == alphaSize
    requires forall v :: 0 <= v < alphaSize ==> row[v] == 0
    ensures Row(row, vs, selector, 0, t, alphaSize)
  {
    TotalZeros(row);
  }

  lemma RowSize(row: seq<nat>, vs: seq<int>, selector: seq<nat>, i: nat, t: nat, alphaSize: nat)
    requires i <= |vs| && |selector| == (|vs| + G_SIZE - 1) / G_SIZE && Row(row, vs, selector, i, t, alphaSize)
    ensures |row| == alphaSize
  {
  }

  lemma TalliedChoice(rfreq: seq<seq<nat>>, vs: seq<int>, selector: seq<nat>, alphaSize: nat)
    requires Tallied(rfreq, vs, selector, |vs|, GroupsFor(|vs|), alphaSize) && Picked(selector, |vs|, GroupsFor(|vs|))
    requires |vs| <= 900001 && alphaSize <= TABLE_SIZE
    ensures Choice(rfreq, selector, |vs|, alphaSize)
  {
    hide Row, Total, Counted;
    forall t | 0 <= t < |rfreq| ensures |rfreq[t]| == alphaSize && Total(Counted(rfreq[t])) < Huffman.WEIGHT_LIMIT {
      RowWeight(rfreq[t], vs, selector, t, alphaSize);
    }
  }

  ghost predicate TablesMade(len: seq<seq<nat>>, code: seq<seq<int>>, n: int, alphaSize: int) {
    && |len| == |code| == n && CodesFor(code, len)
    && forall t :: 0 <= t < n ==> |len[t]| == alphaSize && KraftSum(len[t]) == 1.0 && Limited(len[t])
  }

  ghost predicate Limited(l: seq<nat>) {
    forall i :: 0 <= i < |l| ==> 1 <= l[i] <= 17
  }

  lemma TablesMadeNext(len: seq<seq<nat>>, code: seq<seq<int>>, n: int, alphaSize: int, l: seq<nat>, c: seq<int>)
    requires TablesMade(len, code, n, alphaSize) && |l| == |c| == alphaSize && Limited(l) && KraftSum(l) == 1.0
    requires forall i :: 0 <= i < |l| ==> c[i] == Code(l, MinLen(l), i)
    ensures TablesMade(len + [l], code + [c], n + 1, alphaSize)
  {
    hide Code, MinLen, KraftSum, Limited;
  }

  /** The lengths of every table are those made for its row of frequencies. */
  ghost predicate TablesFit(rfreq: seq<seq<nat>>, len: seq<seq<nat>>) {
    |len| <= |rfreq| && forall t :: 0 <= t < |len| ==> Fitted(rfreq[t], len[t], 17)
  }

  /** How often table t of a block sends each symbol. */
  function UsesOf(b: Block, t: nat): (row: seq<nat>)
    requires |b.selectors| == (|b.vs| + G_SIZE - 1) / G_SIZE
    ensures |row| == AlphaSize(b)
  {
    seq(AlphaSize(b), v requires 0 <= v => Uses(b.vs, b.selectors, |b.vs|, t, v))
  }

  /** The code lengths of every table are optimal for the symbols that it sends, scaled down only
      as long as an optimal code is longer than 17. */
  ghost predicate TablesOptimal(b: Block) {
    && |b.selectors| == (|b.vs| + G_SIZE - 1) / G_SIZE
    && forall t :: 0 <= t < |b.len| ==> Fitted(UsesOf(b, t), b.len[t], 17)
  }

  lemma TablesFitUses(b: Block, rfreq: seq<seq<nat>>)
    requires Tallied(rfreq, b.vs, b.selectors, |b.vs|, |rfreq|, AlphaSize(b)) && TablesFit(rfreq, b.len)
    ensures TablesOptimal(b)
  {
    hide Chars, Fitted, Total;
    forall t | 0 <= t < |b.len| ensures Fitted(UsesOf(b, t), b.len[t], 17) {
      assert Row(rfreq[t], b.vs, b.selectors, |b.vs|, t, AlphaSize(b));
      assert rfreq[t] == UsesOf(b, t);
    }
  }

  method MakeTables(rfreq: seq<seq<nat>>, alphaSize: nat) returns (len: seq<seq<nat>>, code: seq<seq<int>>)
    requires 2 <= alphaSize <= TABLE_SIZE
    requires forall t :: 0 <= t < |rfreq| ==> |rfreq[t]| == alphaSize && Total(Counted(rfreq[t])) < Huffman.WEIGHT_LIMIT
    ensures TablesMade(len, code, |rfreq|, alphaSize) && TablesFit(rfreq, len)
  {
    hide Total, Counted, Fitted, KraftSum, Code, MinLen;
    len, code := [], [];
    for t := 0 to |rfreq|
      invariant TablesMade(len, code, t, alphaSize) && TablesFit(rfreq, len)
    {
      var l, c := MakeTable(rfreq[t]);
      TablesMadeNext(len, code, t, alphaSize, l, c);
      len, code := len + [l], code + [c];
    }
  }

  /** The tables and selectors, whatever they are, make a block that can be sent. */
  lemma ChoiceSendable(b: Block, code: seq<seq<int>>, rfreq: seq<seq<nat>>)
    requires b.crc < WORD && b.origPtr < 0x100_0000 && |b.inUse| == 256 && |Chars(b.inUse)| >= 1
    requires 1 <= |b.vs| <= 900001 && Choice(rfreq, b.selectors, |b.vs|, AlphaSize(b))
    requires TablesMade(b.len, code, |rfreq|, AlphaSize(b))
    requires forall i :: 0 <= i < |b.vs| ==> 0 <= b.vs[i] < AlphaSize(b)
    ensures Sendable(b) && CodesFor(code, b.len)
    ensures forall t :: 0 <= t < |b.len| ==> b.len[t] != [] && forall i :: 0 <= i < |b.len[t]| ==> b.len[t][i] < 32
  {
    hide KraftSum, Chars, CodesFor, Total, Counted;
    CharsAtMost(b.inUse);
    SelectorCount(|b.vs|);
    forall t | 0 <= t < |b.len| ensures GoodLengths(b.len[t]) && b.len[t] != [] {
      assert Limited(b.len[t]);
    }
  }

  lemma CharsAtMost(inUse: seq<bool>)
    ensures |Chars(inUse)| <= |inUse|
  {
  }

  lemma SelectorCount(n: int)
    requires 1 <= n <= 900001
    ensures 1 <= (n + G_SIZE - 1) / G_SIZE < 0x8000
  {
  }

  /** The part of a block from the mapping table on. */
  ghost function Body(b: Block): seq<bool>
    requires Sendable(b) && forall t :: 0 <= t < |b.len| ==> b.len[t] != []
  {
    MapHead(b.inUse) + MapBody(b.inUse, 0) + Word(|b.len|, 3) + Word(|b.selectors|, 15)
    + SelectorBits(SelectorRanks(b)) + TablesBits(b.len) + DataBits(b, 0)
  }

  lemma SmallWords(b: Block)
    requires Sendable(b)
    ensures |b.len| < Pow2(3) && |b.selectors| < Pow2(15) && |b.inUse| == 256 && |b.len| >= 1
    ensures Listed(b.selectors, Identity(|b.len|)) && SelectorRanks(b) == Ranks(Identity(|b.len|), b.selectors)
  {
    hide KraftSum, Chars, Ranks;
    SelectorsListed(b);
    assert Pow2(3) == 8;
    assert Pow2(7) == 128;
    Pow2Values();
    Pow2Add(7, 8);
  }

  // The whole of a block after its header.

  /** Writes the symbols, with everything needed to read them. */
  method SendMTFValues(w: BitWriter, mtfv: array<int>, nMTF: int, inUse: array<bool>, nInUse: nat,
                       selector: seq<nat>, ghost crc: nat, ghost origPtr: nat)
    returns (ghost b: Block)
    requires w.Valid() && w.bsLive >= 0 && inUse.Length == 256 && nInUse == |Chars(inUse[..])| >= 1
    requires 1 <= nMTF <= 900001 && nMTF <= mtfv.Length && Picked(selector, nMTF, GroupsFor(nMTF))
    requires forall i :: 0 <= i < nMTF ==> 0 <= mtfv[i] < nInUse + 2
    requires crc < WORD && origPtr < 0x100_0000
    modifies w
    ensures w.Valid() && w.bsLive >= 0
    ensures b.crc == crc && b.origPtr == origPtr && b.inUse == inUse[..] && b.vs == mtfv[..nMTF] && Sendable(b)
    ensures b.selectors == selector && |selector| <= MAX_SELECTORS && |b.len| == GroupsFor(nMTF) && TablesOptimal(b)
    ensures (forall t :: 0 <= t < |b.len| ==> b.len[t] != []) && w.Written() == old(w.Written()) + Body(b)
  {
    hide *;
    ghost var w0 := w.Written();
    var alphaSize := nInUse + 2;
    AlphaBound(inUse[..]);
    GroupsPositive(nMTF);
    SelectorsFit(selector, nMTF, GroupsFor(nMTF));
    var rfreq := CountFrequencies(mtfv, nMTF, selector, GroupsFor(nMTF), alphaSize);
    TalliedChoice(rfreq, mtfv[..nMTF], selector, alphaSize);
    ChoiceFacts(rfreq, selector, nMTF, alphaSize);
    var len, code := MakeTables(rfreq, alphaSize);
    b := Block(crc, origPtr, inUse[..], selector, len, mtfv[..nMTF]);
    AlphaIs(b);
    ChoiceSendable(b, code, rfreq);
    SmallWords(b);
    TablesSize(len, code, |rfreq|, alphaSize);
    TalliedSize(rfreq, b.vs, selector, nMTF, GroupsFor(nMTF), alphaSize);
    TablesFitUses(b, rfreq);
    var js := RankSelectors(selector, |rfreq|);
    PutMapHead(w, inUse[..]);
    PutMapBody(w, inUse[..]);
    w.W(3, |rfreq|);
    w.W(15, |selector|);
    PutSelectors(w, js);
    PutTables(w, len);
    PutData(w, mtfv, nMTF, selector, len, code, b);
    BodyIs(b, w0);
  }

  lemma SelectorsFit(selector: seq<nat>, nMTF: int, nGroups: nat)
    requires 1 <= nMTF <= 900001 && Picked(selector, nMTF, nGroups)
    ensures |selector| <= MAX_SELECTORS
  {
  }

  lemma GroupsPositive(nMTF: int)
    ensures 2 <= GroupsFor(nMTF) <= 6
  {
  }

  lemma AlphaBound(inUse: seq<bool>)
    requires |inUse| == 256 && |Chars(inUse)| >= 1
    ensures 2 <= |Chars(inUse)| + 2 <= TABLE_SIZE
  {
  }

  lemma ChoiceFacts(rfreq: seq<seq<nat>>, selector: seq<nat>, nMTF: int, alphaSize: int)
    requires Choice(rfreq, selector, nMTF, alphaSize)
    ensures forall t :: 0 <= t < |rfreq| ==> |rfreq[t]| == alphaSize && Total(Counted(rfreq[t])) < Huffman.WEIGHT_LIMIT
    ensures 2 <= |rfreq| <= 6
  {
  }

  lemma AlphaIs(b: Block)
    ensures AlphaSize(b) == |Chars(b.inUse)| + 2
  {
  }

  lemma TalliedSize(rfreq: seq<seq<nat>>, vs: seq<int>, selector: seq<nat>, i: nat, nGroups: nat, alphaSize: nat)
    requires Tallied(rfreq, vs, selector, i, nGroups, alphaSize)
    ensures |rfreq| == nGroups
  {
  }

  lemma TablesSize(len: seq<seq<nat>>, code: seq<seq<int>>, n: int, alphaSize: int)
    requires TablesMade(len, code, n, alphaSize)
    ensures |len| == n
  {
  }

  lemma BodyIs(b: Block, w0: seq<bool>)
    requires Sendable(b) && |b.inUse| == 256 && forall t :: 0 <= t < |b.len| ==> b.len[t] != []
    ensures w0 + Body(b) == w0 + MapHead(b.inUse) + MapBody(b.inUse, 0) + Word(|b.len|, 3) + Word(|b.selectors|, 15)
      + SelectorBits(SelectorRanks(b)) + TablesBits(b.len) + DataBits(b, 0)
  {
    hide DataBits, MapBody, MapHead, SelectorBits, SelectorRanks, Sendable, TablesBits, Word;
  }
}
