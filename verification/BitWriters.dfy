/** The compressor's bit stream: bits gather at the top of a 32-bit buffer and leave as bytes. */
module BitWriters {
  import opened Bits
  import opened CanonicalCodes
  import opened Words

  const TOP: nat := 0x1_0000_0000

  /** The buffer has bits w at its top and zeros below. */
  ghost predicate Buffered(buff: nat, w: seq<bool>) {
    && buff < TOP && |w| <= 32 && Word(buff, 32)[..|w|] == w
    && forall i :: |w| <= i < 32 ==> !Word(buff, 32)[i]
  }

  lemma {:induction false} ShrIsDivision(v: nat, k: nat)
    ensures Shr(v, k) == v / Pow2(k)
  {
    if k > 0 {
      ShrIsDivision(v / 2, k - 1);
      HalvedDivision(v, Pow2(k - 1));
    }
  }

  lemma HalvedDivision(v: nat, p: nat)
    requires p > 0
    ensures v / (2 * p) == (v / 2) / p
  {
    var q, r := (v / 2) / p, (v / 2) % p;
    assert v == q * (2 * p) + (2 * r + v % 2);
    var d := v / (2 * p) - q;
    assert d * (2 * p) == 2 * r + v % 2 - v % (2 * p);
    Multiple(d, 2 * p);
  }

  lemma Pow2Values()
    ensures Pow2(8) == 0x100 && Pow2(24) == 0x100_0000 && Pow2(32) == TOP
  {
    assert Pow2(4) == 16;
    Pow2Add(4, 4);
    Pow2Add(8, 8);
    Pow2Add(16, 8);
    Pow2Add(16, 16);
  }

  /** Shifting out the top byte. */
  lemma ByteOut(buff: nat, w: seq<bool>)
    requires Buffered(buff, w)
    ensures buff / 0x100_0000 < 256 && Word(buff / 0x100_0000, 8) == Word(buff, 32)[..8]
    ensures Word(buff * 256 % TOP, 32) == Word(buff, 32)[8..] + Zeros(8)
  {
    Pow2Values();
    ShrIsDivision(buff, 24);
    WordPrefix(buff, 32, 8);
    WordAppend(buff, 24, 0, 8);
    WordModulo(buff * 256, 32, 32);
    WordSuffix(buff, 32, 24);
    WordZeros(8);
  }

  lemma ByteKept(buff: nat, w: seq<bool>)
    requires Buffered(buff, w) && |w| >= 8
    ensures Word(buff / 0x100_0000, 8) == w[..8] && Buffered(buff * 256 % TOP, w[8..])
  {
    ByteOut(buff, w);
  }

  /** The last, incomplete byte: the missing bits are zeros. */
  lemma BytePadded(buff: nat, w: seq<bool>)
    requires Buffered(buff, w) && |w| < 8
    ensures Word(buff / 0x100_0000, 8) == w + Zeros(8 - |w|) && Buffered(buff * 256 % TOP, [])
  {
    ByteOut(buff, w);
    assert Word(buff, 32)[..8] == w + Zeros(8 - |w|);
  }

  lemma {:induction false} WordOr(a: nat, b: nat, n: nat, i: int)
    requires 0 <= i < n
    ensures Word(Or(a, b), n)[i] == (Word(a, n)[i] || Word(b, n)[i])
  {
    if a == 0 && b == 0 {
      WordZeros(n);
    } else if i < n - 1 {
      assert Or(a, b) / 2 == Or(a / 2, b / 2);
      WordOr(a / 2, b / 2, n - 1, i);
    }
  }

  /** v << k */
  function Shl(v: nat, k: nat): nat {
    v * Pow2(k)
  }

  lemma ProductLess(a: nat, b: nat, c: nat)
    requires a < b && c > 0
    ensures a * c < b * c
  {
  }

  lemma ShiftedFits(v: nat, n: nat, k: nat)
    requires v < Pow2(n) && n + k <= 32
    ensures Shl(v, k) < TOP
  {
    ProductLess(v, Pow2(n), Pow2(k));
    Pow2Values();
    Pow2Add(n, k);
    Pow2Mono(n + k, 32);
  }

  /** Where a value lands when it is shifted below the bits already there. */
  lemma ShiftedWord(v: nat, n: nat, live: nat)
    requires v < Pow2(n) && live + n <= 32
    ensures Word(Shl(v, 32 - live - n), 32) == Zeros(live) + Word(v, n) + Zeros(32 - live - n)
  {
    hide Pow2, Word, Zeros;
    var k := 32 - live - n;
    Pow2Positive(k);
    WordAppend(v, live + n, 0, k);
    WordAppend(0, live, v, n);
    WordZeros(live);
    WordZeros(k);
    assert 0 * Pow2(n) + v == v;
    assert v * Pow2(k) + 0 == v * Pow2(k);
  }

  lemma Pow2Positive(k: nat)
    ensures 0 < Pow2(k)
  {
  }

  lemma OrZeros(x: seq<bool>, y: seq<bool>, r: seq<bool>, w: seq<bool>, u: seq<bool>)
    requires |w| + |u| <= 32 && |r| == 32 && x == w + Zeros(32 - |w|)
    requires y == Zeros(|w|) + u + Zeros(32 - |w| - |u|)
    requires forall i :: 0 <= i < 32 ==> r[i] == (x[i] || y[i])
    ensures r == w + u + Zeros(32 - |w| - |u|)
  {
  }

  lemma OrWord(a: nat, b: nat, w: seq<bool>, u: seq<bool>)
    requires |w| + |u| <= 32 && Word(a, 32) == w + Zeros(32 - |w|)
    requires Word(b, 32) == Zeros(|w|) + u + Zeros(32 - |w| - |u|)
    ensures Word(Or(a, b), 32) == w + u + Zeros(32 - |w| - |u|)
  {
    hide *;
    forall i | 0 <= i < 32 ensures Word(Or(a, b), 32)[i] == (Word(a, 32)[i] || Word(b, 32)[i]) {
      WordOr(a, b, 32, i);
    }
    OrZeros(Word(a, 32), Word(b, 32), Word(Or(a, b), 32), w, u);
  }

  lemma BufferedWord(buff: nat, w: seq<bool>)
    ensures Buffered(buff, w) <==> buff < TOP && |w| <= 32 && Word(buff, 32) == w + Zeros(32 - |w|)
  {
    if |w| <= 32 {
      if Buffered(buff, w) {
        assert Word(buff, 32) == w + Zeros(32 - |w|);
      }
    }
  }

  /** Or-ing a value in below the bits already there appends its bits. */
  lemma BitsIn(buff: nat, w: seq<bool>, v: nat, n: nat)
    requires Buffered(buff, w) && v < Pow2(n) && |w| + n <= 32
    ensures Buffered(Or(buff, Shl(v, 32 - |w| - n)), w + Word(v, n))
  {
    hide *;
    var s := Shl(v, 32 - |w| - n);
    BufferedWord(buff, w);
    ShiftedWord(v, n, |w|);
    ShiftedFits(v, n, 32 - |w| - n);
    Pow2Values();
    OrBound(buff, s, 32);
    OrWord(buff, s, w, Word(v, n));
    BufferedWord(Or(buff, s), w + Word(v, n));
  }

  class BitWriter {
    var zbits: seq<nat>
    var bsBuff: nat
    var bsLive: int
    ghost var pending: seq<bool>

    ghost predicate Valid()
      reads this
    {
      && Buffered(bsBuff, pending) && bsLive <= |pending|
      && (bsLive >= 0 ==> bsLive == |pending|) && (bsLive < 0 ==> pending == [])
      && forall i :: 0 <= i < |zbits| ==> zbits[i] < 256
    }

    /** All bits written since the bytes were last handed over. */
    ghost function Written(): seq<bool>
      reads this
    {
      BitsOf(zbits) + pending
    }

    constructor ()
      ensures Valid() && Written() == [] && zbits == [] && bsLive == 0
    {
      zbits := [];
      bsBuff := 0;
      bsLive := 0;
      pending := [];
      new;
      WordZeros(32);
    }

    /** Starts a new sequence of bytes, once those written have been delivered. */
    method Restart()
      requires Valid()
      modifies this`zbits
      ensures Valid() && zbits == [] && Written() == pending
    {
      zbits := [];
      assert BitsOf([]) + pending == pending;
    }

    /** Hands over one byte. */
    method ShiftOut()
      requires Valid() && bsLive > 0
      modifies this
      ensures Valid() && bsLive == old(bsLive) - 8
      ensures old(bsLive) >= 8 ==> Written() == old(Written())
      ensures old(bsLive) < 8 ==> Written() == old(Written()) + Zeros(8 - old(bsLive))
    {
      hide Buffered, BitsOf, Word;
      ghost var z, w, b := zbits, pending, bsBuff / 0x100_0000;
      ByteLeaves(z, bsBuff, w);
      zbits := zbits + [bsBuff / 0x100_0000];
      bsBuff := bsBuff * 256 % TOP;
      bsLive := bsLive - 8;
      pending := if |pending| >= 8 then pending[8..] else [];
    }

    /** Writes the n low bits of v. */
    method W(n: nat, v: nat)
      requires Valid() && bsLive >= 0 && n <= 25 && v < Pow2(n)
      modifies this
      ensures Valid() && bsLive >= 0 && Written() == old(Written()) + Word(v, n)
    {
      hide Buffered, BitsOf, Word, Pow2, Or, Shl;
      while bsLive >= 8
        invariant Valid() && bsLive >= 0 && Written() == old(Written())
        decreases bsLive
      {
        ShiftOut();
      }
      BitsIn(bsBuff, pending, v, n);
      bsBuff := Or(bsBuff, Shl(v, 32 - bsLive - n));
      bsLive := bsLive + n;
      pending := pending + Word(v, n);
      assert BitsOf(zbits) + pending == old(Written()) + Word(v, n);
    }

    /** Hands over all that is left, filling up the last byte with zeros. */
    method FinishWrite() returns (ghost k: nat)
      requires Valid() && bsLive >= 0
      modifies this
      ensures Valid() && bsLive <= 0 && pending == []
      ensures k < 8 && Written() == old(Written()) + Zeros(k)
    {
      hide Buffered, BitsOf, Word;
      k := 0;
      while bsLive > 0
        invariant Valid() && k < 8 && (bsLive > 0 ==> k == 0) && Written() == old(Written()) + Zeros(k)
        decreases bsLive
      {
        k := if bsLive >= 8 then 0 else 8 - bsLive;
        ShiftOut();
      }
    }
  }

  lemma ByteLeaves(z: seq<nat>, buff: nat, w: seq<bool>)
    requires Buffered(buff, w)
    ensures buff / 0x100_0000 < 256
    ensures |w| >= 8 ==> BitsOf(z + [buff / 0x100_0000]) + w[8..] == BitsOf(z) + w
    ensures |w| >= 8 ==> Buffered(buff * 256 % TOP, w[8..])
    ensures |w| < 8 ==> BitsOf(z + [buff / 0x100_0000]) + [] == BitsOf(z) + w + Zeros(8 - |w|)
    ensures |w| < 8 ==> Buffered(buff * 256 % TOP, [])
  {
    hide *;
    ByteOut(buff, w);
    BitsOfNext(z, buff / 0x100_0000);
    if |w| >= 8 {
      ByteKept(buff, w);
      assert w == w[..8] + w[8..];
    } else {
      BytePadded(buff, w);
    }
  }
}
