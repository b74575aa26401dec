/** How many bits a block takes. */
module BlockLength {
  import opened Bits
  import opened CanonicalCodes
  import opened CodeTables
  import opened Decompressor
  import opened MoveToFront
  import PrefixCost
  import Rotations
  import opened RoundTrip
  import opened RunLength
  import opened StreamFormat
  import opened SymbolMaps

  /** A block has at most one symbol more than bytes, and a selector for fifty of them. */
  lemma FewSymbols(x: Sent, capacity: int)
    requires Faithful(x, capacity)
    ensures 1 <= |x.b.vs| <= capacity + 1 && |x.b.selectors| == (|x.b.vs| + G_SIZE - 1) / G_SIZE && Sendable(x.b)
  {
    hide Chars, Digits, Emitted, Pending, Ranks, Rotations.IsSorted, Squeezed;
    FaithfulFacts(x, capacity);
    var s := ColumnNumbers(Squeezed(x.ps), x.p, x.b.inUse);
    var ks := Ranks(Identity(|Chars(x.b.inUse)|), s);
    EmittedShort(ks);
    DigitsShort(Pending(ks));
  }

  lemma {:induction false} MapShort(inUse: seq<bool>, i: int)
    requires 0 <= i <= 16 && |inUse| == 256
    ensures |MapBody(inUse, i)| <= 16 * (16 - i)
    decreases 16 - i
  {
    if i < 16 { MapShort(inUse, i + 1); }
  }

  lemma {:induction false} UnaryLength(j: nat)
    ensures |Unary(j)| == j + 1
  {
    if j > 0 { UnaryLength(j - 1); }
  }

  lemma {:induction false} SelectorsShort(js: seq<nat>, m: nat)
    requires Below(js, m)
    ensures |SelectorBits(js)| <= m * |js|
  {
    if js != [] {
      UnaryLength(js[0]);
      SelectorsShort(js[1..], m);
      assert m * |js| == m * |js[1..]| + m by { OneMore(m, |js[1..]|); }
    }
  }

  lemma OneMore(m: nat, n: nat)
    ensures m * (n + 1) == m * n + m
  {
  }

  lemma {:induction false} StepsLength(curr: nat, l: nat)
    ensures |Steps(curr, l)| == 1 + 2 * (if curr < l then l - curr else curr - l)
    decreases if curr < l then l - curr else curr - l
  {
    if curr < l { StepsLength(curr + 1, l); } else if curr > l { StepsLength(curr - 1, l); }
  }

  /** From one length to the next are at most 19 steps, of two bits each. */
  lemma {:induction false} LengthsShort(curr: nat, l: seq<nat>)
    requires GoodLengths(l) && 1 <= curr <= LONGEST
    ensures |LengthBits(curr, l)| <= 39 * |l|
    decreases |l|
  {
    if l != [] {
      StepsLength(curr, l[0]);
      LengthsShort(l[0], l[1..]);
    }
  }

  lemma {:induction false} TablesShort(len: seq<seq<nat>>, n: nat)
    requires forall t :: 0 <= t < |len| ==> 1 <= |len[t]| <= n && GoodLengths(len[t])
    ensures |TablesBits(len)| <= (5 + 39 * n) * |len|
  {
    if len != [] {
      LengthsShort(len[0][0], len[0]);
      TablesShort(len[1..], n);
      OneMore(5 + 39 * n, |len[1..]|);
    }
  }

  lemma {:induction false} DataShort(b: Block, i: int)
    requires Sendable(b) && 0 <= i <= |b.vs|
    ensures |DataBits(b, i)| <= LONGEST * (|b.vs| - i)
    decreases |b.vs| - i
  {
    hide CodeWord, MinLen, PrefixCost.KraftSum, Chars;
    if i < |b.vs| {
      SymbolShort(b, i);
      DataShort(b, i + 1);
    }
  }

  lemma SymbolShort(b: Block, i: int)
    requires Sendable(b) && 0 <= i < |b.vs|
    ensures |SymbolBits(b, i)| <= LONGEST
  {
    hide MinLen, PrefixCost.KraftSum, Chars;
  }

  lemma RanksShort(b: Block)
    requires Sendable(b)
    ensures |SelectorBits(SelectorRanks(b))| <= 6 * |b.selectors|
  {
    hide Chars, PrefixCost.KraftSum, SelectorBits;
    SelectorsListed(b);
    SelectorsShort(SelectorRanks(b), |b.len|);
    Fewer(|b.len|, 6, |b.selectors|);
  }

  lemma Fewer(m: nat, k: nat, n: nat)
    requires m <= k
    ensures m * n <= k * n
  {
  }

  /** A bound on the bits of a block of n bytes. */
  function Room(n: int): int {
    LONGEST * (n + 1) + 6 * ((n + G_SIZE) / G_SIZE) + 6 * (5 + 39 * 258) + 395
  }

  lemma BlockShort(x: Sent, n: int)
    requires Faithful(x, n)
    ensures Sendable(x.b) && |BlockBits(x.b)| <= Room(n)
  {
    hide Faithful, Chars, PrefixCost.KraftSum, DataBits, LengthBits, SelectorBits, MapBody, Word, BitsOf, Ranks;
    FewSymbols(x, n);
    var b := x.b;
    MapShort(b.inUse, 0);
    RanksShort(b);
    TablesShort(b.len, 258);
    DataShort(b, 0);
  }
}
