/** What the decompressor makes of any bits at the place of a coded symbol, for any code lengths. */
module SymbolReading {
  import opened Bits
  import opened BlockDecoding
  import opened CanonicalCodes
  import opened CodeTables
  import opened Coroutine
  import opened Decompressor
  import opened HeaderReading
  import opened MoveToFront
  import opened ReadableFormat
  import opened StreamFormat
  import opened SymbolDecoding
  import opened SymbolMaps
  import opened Words

  // Codes of any lengths.

  lemma {:induction false} OfLengthIs(len: seq<nat>, n: nat, r: nat)
    requires r < Times(len, n)
    ensures var i := OfLength(len, n)[r]; 0 <= i < |len| && len[i] == n && Times(len[..i], n) == r
  {
    var m := |len| - 1;
    if r < Times(len[..m], n) {
      OfLengthIs(len[..m], n, r);
      assert OfLength(len, n)[r] == OfLength(len[..m], n)[r];
      assert len[..m][..OfLength(len, n)[r]] == len[..OfLength(len, n)[r]];
    }
  }

  /** The symbol whose code is a number between the first of its length and the last. */
  lemma SymbolOfCode(len: seq<nat>, lo: nat, hi: nat, n: nat, z: nat) returns (v: int)
    requires n <= hi && First(len, lo, n) <= z < First(len, lo, n) + Times(len, n)
    requires forall i :: 0 <= i < |len| ==> len[i] <= hi
    ensures 0 <= v < |len| && len[v] == n && Code(len, lo, v) == z
    ensures |Ordered(len, hi + 1)| == |len|
    ensures 0 <= Shorter(len, n) + (z - First(len, lo, n)) < |len|
    ensures Ordered(len, hi + 1)[Shorter(len, n) + (z - First(len, lo, n))] == v
  {
    hide First, Times, Shorter, OfLength, Ordered;
    var r := z - First(len, lo, n);
    OfLengthIs(len, n, r);
    OfLengthSize(len, n);
    v := OfLength(len, n)[r];
    PlacesFit(len, hi);
    PlaceAt(len, v);
  }

  lemma NoneLonger(len: seq<nat>, n: nat)
    requires n > MaxLen(len)
    ensures Times(len, n) == 0
  {
    hide MaxLen, MinLen;
    MinMax(len);
    NoneOf(len, n);
  }

  lemma {:induction false} NoneOf(len: seq<nat>, n: nat)
    requires forall i :: 0 <= i < |len| ==> len[i] != n
    ensures Times(len, n) == 0
  {
    if len != [] { NoneOf(len[..|len| - 1], n); }
  }

  /** A code at or above the first of its length begins with no shorter code word. */
  lemma NoShorter(len: seq<nat>, lo: nat, v: int, n: nat, z: nat, x: seq<bool>)
    requires 0 <= v < |len| && lo <= len[v] < n && z < Pow2(n) && z >= First(len, lo, n)
    requires Code(len, lo, v) < Pow2(len[v])
    ensures !(CodeWord(len, lo, v) <= Word(z, n) + x)
  {
    hide First, Times, Shr, Word, Pow2;
    var m := len[v];
    if CodeWord(len, lo, v) <= Word(z, n) + x {
      assert (Word(z, n) + x)[..m] == Word(z, n)[..m] == CodeWord(len, lo, v);
      WordPrefix(z, n, m);
      ShrFits(z, n, m);
      WordValue(Code(len, lo, v), m);
      WordValue(Shr(z, n - m), m);
      ShrAbove(len, lo, m, n, z);
      RankWithin(len, v);
      assert false;
    }
  }

  /** Nor does a code at or beyond the codes of its length. */
  lemma NoneOfLength(len: seq<nat>, lo: nat, v: int, n: nat, z: nat, x: seq<bool>)
    requires 0 <= v < |len| && len[v] == n && z < Pow2(n) && z >= First(len, lo, n) + Times(len, n)
    requires Code(len, lo, v) < Pow2(n)
    ensures !(CodeWord(len, lo, v) <= Word(z, n) + x)
  {
    hide First, Times, Word, Pow2;
    if CodeWord(len, lo, v) <= Word(z, n) + x {
      assert (Word(z, n) + x)[..n] == Word(z, n) == CodeWord(len, lo, v);
      WordValue(Code(len, lo, v), n);
      WordValue(z, n);
      RankWithin(len, v);
      assert false;
    }
  }

  /** No code word begins another, of those that fit their lengths. */
  lemma CodesDiffer(l: seq<nat>, v: int, v': int, x: seq<bool>, x': seq<bool>)
    requires HasCode(l, v) && HasCode(l, v')
    requires CodeWord(l, MinLen(l), v) + x == CodeWord(l, MinLen(l), v') + x'
    ensures v == v' && x == x'
  {
    hide First, Times, Word, Pow2, MinLen;
    MinMax(l);
    var lo := MinLen(l);
    var w := CodeWord(l, lo, v) + x;
    assert CodeWord(l, lo, v) <= w && CodeWord(l, lo, v') <= w;
    if l[v] < l[v'] {
      NoShorter(l, lo, v, l[v'], Code(l, lo, v'), x');
      assert false;
    } else if l[v'] < l[v] {
      NoShorter(l, lo, v', l[v], Code(l, lo, v), x);
      assert false;
    } else {
      assert w[..l[v]] == CodeWord(l, lo, v) == CodeWord(l, lo, v');
      assert x == w[l[v]..] == x';
      WordValue(Code(l, lo, v), l[v]);
      WordValue(Code(l, lo, v'), l[v]);
      SameCode(l, lo, v, v');
    }
  }

  lemma SameCode(len: seq<nat>, lo: nat, i: int, j: int)
    requires 0 <= i < |len| && 0 <= j < |len| && len[i] == len[j] && Code(len, lo, i) == Code(len, lo, j)
    ensures i == j
  {
    hide First, Times;
    if i < j { TimesGrows(len, i, j, len[i]); } else if j < i { TimesGrows(len, j, i, len[i]); }
  }

  // Reading a code.

  /** Amid a code by table l: zn bits have been read, and none of the code words shorter than that are
      among those that begin the code. */
  ghost predicate Amid(s: State, l: seq<nat>) {
    && Tabled(s) && 0 <= s.gSel < s.nGroups && s.len[s.gSel] == l && 1 <= |l| == NInUse(s) + 2 <= TABLE_SIZE
    && GoodLengths(l) && MinLen(l) <= s.zn && First(l, MinLen(l), s.zn) <= s.zvec < Pow2(s.zn)
  }

  lemma AmidTables(s: State, l: seq<nat>)
    requires Amid(s, l)
    ensures 1 <= MinLen(l) <= MaxLen(l) <= LONGEST && (forall i :: 0 <= i < |l| ==> MinLen(l) <= l[i] <= MaxLen(l))
    ensures var t := TablesOf(l); |t.limit| == |t.base| == MAX_CODE_LEN && t.perm == Ordered(l, MaxLen(l) + 1)
    ensures s.zn <= LONGEST ==> LimitOf(TablesOf(l), s.zn) == LimitAt(l, MinLen(l), MaxLen(l), s.zn)
    ensures s.zn <= LONGEST ==> BaseOf(TablesOf(l), s.zn) == BaseAt(l, MinLen(l), MaxLen(l), s.zn)
  {
    hide MinLen, MaxLen, Ordered, LimitAt, BaseAt, First, Times, Pow2, NInUse, Tabled;
    MinMax(l);
    MinMaxWithin(l, 1, LONGEST);
    if s.zn <= LONGEST { TablesCells(l, s.zn); } else { TablesCells(l, 0); }
  }

  /** The code is complete: its symbol is taken. */
  lemma AmidHit(s: State, l: seq<nat>, k: int) returns (v: int)
    requires Amid(s, l) && s.zn <= MaxLen(l) && s.zvec < First(l, MinLen(l), s.zn) + Times(l, s.zn)
    ensures 0 <= v < |l| == NInUse(s) + 2 && l[v] == s.zn && Code(l, MinLen(l), v) == s.zvec && Tabled(s)
    ensures s.zn <= LONGEST && HasCode(l, v) && CheckCode(s, k) == Take(s, k, v)
  {
    hide BaseOf, First, LimitOf, MaxLen, MinLen, NInUse, Ordered, Pow2, Shorter, Tabled, TablesOf, TakeInRun,
      TakeSymbol, Times;
    AmidTables(s, l);
    v := SymbolOfCode(l, MinLen(l), MaxLen(l), s.zn, s.zvec);
  }

  /** It is not: one more bit is read, up to 20. */
  lemma AmidMiss(s: State, l: seq<nat>, k: int)
    requires Amid(s, l) && (s.zn > MaxLen(l) || s.zvec >= First(l, MinLen(l), s.zn) + Times(l, s.zn))
    ensures CheckCode(s, k) == if s.zn > LONGEST then Return(DataError, s)
      else Continue(s.(zn := s.zn + 1, at := Mtf(k + 1)))
    ensures s.zvec >= First(l, MinLen(l), s.zn) + Times(l, s.zn)
  {
    hide BaseOf, First, LimitOf, MaxLen, MinLen, NInUse, Ordered, Pow2, Shorter, Tabled, TablesOf, TakeInRun,
      TakeSymbol, Times;
    AmidTables(s, l);
    if s.zn > MaxLen(l) {
      NoneLonger(l, s.zn);
      BeyondLongest(l, s.zn);
    }
  }

  lemma {:induction false} BeyondLongest(l: seq<nat>, n: nat)
    requires l != [] && n > MaxLen(l) && forall i :: 0 <= i < |l| ==> MinLen(l) <= l[i] <= MaxLen(l)
    ensures First(l, MinLen(l), n) >= 2
    decreases n
  {
    hide MinLen, MaxLen, Times;
    MinMax(l);
    LongestUsed(l);
    if n - 1 > MaxLen(l) { BeyondLongest(l, n - 1); }
  }

  /** With one more bit, still amid. */
  lemma AmidNext(s: State, l: seq<nat>, b: bool, s1: State)
    requires Amid(s, l) && s.zvec >= First(l, MinLen(l), s.zn) + Times(l, s.zn)
    requires s1 == s.(zn := s.zn + 1, at := s1.at, zvec := s.zvec * 2 + if b then 1 else 0)
    ensures Amid(s1, l) && Word(s1.zvec, s1.zn) == Word(s.zvec, s.zn) + [b]
  {
    hide MinLen, Times, NInUse, Word;
    SameInUse(s, s1);
    FirstNext(l, MinLen(l), s.zn);
    WordLast(s1.zvec, s.zvec, if b then 1 else 0, s1.zn);
  }

  /** States that differ only in the code being read. */
  ghost predicate CodeOnly(s: State, s1: State) {
    s1 == s.(at := s1.at, zn := s1.zn, zvec := s1.zvec)
  }

  /** No code word begins the bits. */
  ghost predicate NoneBegins(l: seq<nat>, w: seq<bool>) {
    forall v :: HasCode(l, v) ==> !(CodeWord(l, MinLen(l), v) <= w)
  }

  /** Too short, or at a dead end, for any code word. */
  lemma NoneAmid(s: State, l: seq<nat>, w: seq<bool>)
    requires Amid(s, l) && s.zvec >= First(l, MinLen(l), s.zn) + Times(l, s.zn) && (w == [] || s.zn >= LONGEST)
    ensures NoneBegins(l, Word(s.zvec, s.zn) + w)
  {
    hide MinLen, First, Times, NInUse, Word, Pow2, Tabled;
    var n := s.zn;
    forall v | HasCode(l, v) ensures !(CodeWord(l, MinLen(l), v) <= Word(s.zvec, n) + w) {
      MinMax(l);
      if l[v] < n {
        NoShorter(l, MinLen(l), v, n, s.zvec, w);
      } else if l[v] == n {
        NoneOfLength(l, MinLen(l), v, n, s.zvec, w);
      } else {
        assert |CodeWord(l, MinLen(l), v)| == l[v];
      }
    }
  }

  /** The run fails, no code word beginning the bits, or reads a symbol. */
  lemma {:induction false} CodeFound(s: State, l: seq<nat>, k: int, w: seq<bool>)
    returns (found: bool, v: int, s1: State, rest: seq<bool>)
    requires Amid(s, l) && k % 2 == 1
    ensures Tabled(s) && 0 <= s.gSel < s.nGroups && Moves(CheckCode(s, k))
    ensures !found ==> Fails(Onward(CheckCode(s, k), w), DataError) && NoneBegins(l, Word(s.zvec, s.zn) + w)
    ensures found ==> HasCode(l, v) && Word(s.zvec, s.zn) + w == CodeWord(l, MinLen(l), v) + rest
    ensures found ==> CodeOnly(s, s1) && Tabled(s1) && v < NInUse(s1) + 2 && Moves(Take(s1, k, v))
    ensures found ==> Onward(CheckCode(s, k), w) == Onward(Take(s1, k, v), rest)
    decreases |w|
  {
    hide Advance, CheckCode, CodeWord, Drive, First, HasCode, MaxLen, MinLen, Moves, NInUse, Need, NoneBegins, Onward,
      Pow2, Take, Times, Waiting, Word;
    found, v, s1, rest := false, 0, s, [];
    CheckCodeMoves(s, k);
    AmidTables(s, l);
    OnwardParts(CheckCode(s, k), w);
    if s.zn <= MaxLen(l) && s.zvec < First(l, MinLen(l), s.zn) + Times(l, s.zn) {
      v := AmidHit(s, l, k);
      found, s1, rest := true, s, w;
      WordOfCode(l, v, s.zvec, s.zn);
    } else {
      AmidMiss(s, l, k);
      if s.zn > LONGEST {
        NoneAmid(s, l, w);
      } else if w == [] {
        NoneAmid(s, l, w);
        MtfShort(s.(zn := s.zn + 1, at := Mtf(k + 1)), k);
      } else {
        var s2 := s.(zn := s.zn + 1, at := Mtf(k + 1));
        var b := w[0];
        var bit := if b then 1 else 0;
        var s3 := s2.(zvec := s2.zvec * 2 + bit);
        assert w == [b] + w[1..];
        AmidNext(s, l, b, s3);
        NextBitMtf(s2, k, bit);
        StepBit(s2, b, w[1..]);
        found, v, s1, rest := CodeFound(s3, l, k, w[1..]);
        assert Word(s.zvec, s.zn) + [b] + w[1..] == Word(s.zvec, s.zn) + w;
      }
    }
  }

  lemma WordOfCode(l: seq<nat>, v: int, z: nat, n: nat)
    requires 0 <= v < |l| && l[v] == n && Code(l, MinLen(l), v) == z
    ensures CodeWord(l, MinLen(l), v) == Word(z, n)
  {
  }

  lemma MtfShort(s: State, k: int)
    requires s.at == Mtf(k + 1) && k % 2 == 1 && Waiting(s)
    ensures Drive(s, []).Short?
  {
    hide Drive;
    NextBitMtf(s, k, 0);
    DriveShort(s, []);
  }
}
