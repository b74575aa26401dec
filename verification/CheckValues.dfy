/** What the check values are, in terms of bits: division of the data by the CRC polynomial, and for
    a stream the values of its blocks, rotated and added.
 */
module CheckValues {
  import opened Bits
  import opened BitWriters
  import opened BlockCrc
  import opened CanonicalCodes
  import HeaderReading
  import opened RoundTrip
  import opened RunLength
  import opened StreamDecoding
  import opened StreamFormat
  import opened Words

  // Data, bit by bit.

  /** Takes one bit of the data into the register. */
  function DivideBit(c: bv32, b: bool): bv32 {
    if Top(c) != b then Xor(Up(c), POLYNOMIAL) else Up(c)
  }

  function DivideBits(c: bv32, w: seq<bool>): bv32
    decreases |w|
  {
    if w == [] then c else DivideBits(DivideBit(c, w[0]), w[1..])
  }

  lemma {:induction false} DivideConcat(c: bv32, v: seq<bool>, w: seq<bool>)
    ensures DivideBits(c, v + w) == DivideBits(DivideBits(c, v), w)
    decreases |v|
  {
    hide DivideBit;
    if v == [] {
      assert v + w == w;
    } else {
      assert (v + w)[1..] == v[1..] + w;
      DivideConcat(DivideBit(c, v[0]), v[1..], w);
    }
  }

  /** The bits at the top of a register. */
  function TopBits(m: bv32, n: nat): (w: seq<bool>)
    ensures |w| == n
    decreases n
  {
    if n == 0 then [] else [Top(m)] + TopBits(Up(m), n - 1)
  }

  function Raised(m: bv32, n: nat): bv32
    decreases n
  {
    if n == 0 then m else Raised(Up(m), n - 1)
  }

  function DivideTimes(c: bv32, n: nat): bv32
    decreases n
  {
    if n == 0 then c else DivideTimes(Divide(c), n - 1)
  }

  lemma DivideXor(c: bv32, m: bv32)
    ensures Divide(Xor(c, m)) == Xor(DivideBit(c, Top(m)), Up(m))
  {
    hide Divide, Up, Top, Xor;
    DivideCases(Xor(c, m));
    UpXor(c, m);
    TopXor(c, m);
    XorPairs(Up(c), Up(m), POLYNOMIAL);
  }

  /** Bits brought in at once are bits brought in one by one. */
  lemma {:induction false} DivideTogether(c: bv32, m: bv32, n: nat)
    ensures DivideTimes(Xor(c, m), n) == Xor(DivideBits(c, TopBits(m, n)), Raised(m, n))
    decreases n
  {
    hide Divide, DivideBit, Up, Top, Xor;
    if n > 0 {
      DivideXor(c, m);
      DivideTogether(DivideBit(c, Top(m)), Up(m), n - 1);
      assert ([Top(m)] + TopBits(Up(m), n - 1))[1..] == TopBits(Up(m), n - 1);
    }
  }

  lemma DivideTwice(c: bv32, n: nat)
    ensures DivideTimes(c, n + 2) == DivideTimes(Divide(Divide(c)), n) && DivideTimes(c, 0) == c
  {
    hide Divide;
  }

  lemma DivideEight(c: bv32)
    ensures DivideTimes(c, 8) == Divide8(c)
  {
    hide Divide, DivideTimes;
    var c2 := Divide(Divide(c));
    var c4 := Divide(Divide(c2));
    var c6 := Divide(Divide(c4));
    DivideTwice(c, 6);
    DivideTwice(c2, 4);
    DivideTwice(c4, 2);
    DivideTwice(c6, 0);
    DivideTwice(Divide(Divide(c6)), 0);
  }

  lemma {:induction false} TopAt(m: bv32, n: nat, k: nat)
    requires k < n
    ensures TopBits(m, n)[k] == Top(Raised(m, k))
    decreases n
  {
    hide Top, Up;
    if k > 0 {
      assert TopBits(m, n)[k] == TopBits(Up(m), n - 1)[k - 1];
      TopAt(Up(m), n - 1, k - 1);
    }
  }

  lemma {:induction false} RaisedNext(m: bv32, n: nat)
    ensures Raised(m, n + 1) == Up(Raised(m, n)) && Raised(m, 0) == m
    decreases n
  {
    hide Up;
    if n > 0 { RaisedNext(Up(m), n - 1); }
  }

  /** The bits of a number, from the top. */
  lemma WordAt(c: nat, n: nat, k: nat)
    requires k < n
    ensures Word(c, n)[k] == (c / Pow2(n - 1 - k) % 2 == 1)
  {
    hide Pow2, Shr;
    WordPrefix(c, n, k + 1);
    ShrIsDivision(c, n - 1 - k);
    assert Word(c, n)[k] == Word(c, n)[..k + 1][k];
  }

  /** Bit by bit, a byte at the top of the register is the number. */
  lemma ByteTops(c: nat, m: bv32)
    requires c < 256 && m == Byte(c) << 24
    ensures Byte(c) & 0xffff_ff00 == 0
    ensures Top(m) == (c / 128 % 2 == 1) && Top(Up(m)) == (c / 64 % 2 == 1)
    ensures Top(Up(Up(m))) == (c / 32 % 2 == 1) && Top(Up(Up(Up(m)))) == (c / 16 % 2 == 1)
    ensures Top(Up(Up(Up(Up(m))))) == (c / 8 % 2 == 1) && Top(Up(Up(Up(Up(Up(m)))))) == (c / 4 % 2 == 1)
    ensures Top(Up(Up(Up(Up(Up(Up(m))))))) == (c / 2 % 2 == 1)
    ensures Top(Up(Up(Up(Up(Up(Up(Up(m)))))))) == (c % 2 == 1)
    ensures Up(Up(Up(Up(Up(Up(Up(Up(m)))))))) == 0
  {
  }

  lemma ByteRaised(c: nat, m: bv32, k: nat)
    requires c < 256 && m == Byte(c) << 24 && k < 8
    ensures Top(Raised(m, k)) == (c / Pow2(7 - k) % 2 == 1)
  {
    hide Byte, Raised, Top, Up;
    ByteTops(c, m);
    RaisedEight(m);
    Pow2Eight();
  }

  lemma RaisedEight(m: bv32)
    ensures Raised(m, 0) == m && Raised(m, 1) == Up(m) && Raised(m, 2) == Up(Up(m)) && Raised(m, 3) == Up(Up(Up(m)))
    ensures Raised(m, 4) == Up(Up(Up(Up(m)))) && Raised(m, 5) == Up(Up(Up(Up(Up(m)))))
    ensures Raised(m, 6) == Up(Up(Up(Up(Up(Up(m)))))) && Raised(m, 7) == Up(Up(Up(Up(Up(Up(Up(m)))))))
    ensures Raised(m, 8) == Up(Up(Up(Up(Up(Up(Up(Up(m))))))))
  {
    hide Raised, Up;
    RaisedNext(m, 0);
    RaisedNext(m, 1);
    RaisedNext(m, 2);
    RaisedNext(m, 3);
    RaisedNext(m, 4);
    RaisedNext(m, 5);
    RaisedNext(m, 6);
    RaisedNext(m, 7);
  }

  lemma Pow2Eight()
    ensures Pow2(0) == 1 && Pow2(1) == 2 && Pow2(2) == 4 && Pow2(3) == 8
    ensures Pow2(4) == 16 && Pow2(5) == 32 && Pow2(6) == 64 && Pow2(7) == 128
  {
  }

  /** A byte at the top of the register: its bits are those of the number, and go out in eight steps. */
  lemma ByteBits(c: nat, m: bv32)
    requires c < 256 && m == Byte(c) << 24
    ensures Byte(c) & 0xffff_ff00 == 0
    ensures TopBits(m, 8) == Word(c, 8) && Raised(m, 8) == 0
  {
    hide Byte, Raised, Top, TopBits, Up, Word;
    ByteTops(c, m);
    RaisedEight(m);
    forall k | 0 <= k < 8 ensures TopBits(m, 8)[k] == Word(c, 8)[k] {
      TopAt(m, 8, k);
      WordAt(c, 8, k);
      ByteRaised(c, m, k);
    }
  }

  lemma UpdateDivides(crc: bv32, c: nat)
    requires c < 256
    ensures Update(crc, Byte(c)) == DivideBits(crc, Word(c, 8))
  {
    hide Byte, Divide8, DivideBits, DivideTimes, Raised, TopBits, Update, Word, Xor;
    var m := Byte(c) << 24;
    ByteBits(c, m);
    UpdateIsDivision(crc, Byte(c));
    DivideEight(Xor(crc, m));
    DivideTogether(crc, m, 8);
    XorCancels(DivideBits(crc, Word(c, 8)));
  }

  /** The check value of a block: the data divided by the polynomial, bit by bit from the top,
      starting from ones, complemented. */
  lemma {:induction false} CheckIsDivision(data: seq<nat>)
    requires forall i :: 0 <= i < |data| ==> data[i] < 256
    ensures Register(data) == DivideBits(0xffff_ffff, BitsOf(data))
    ensures CheckValue(data) == !DivideBits(0xffff_ffff, BitsOf(data))
  {
    hide Byte, DivideBit, Update, Word;
    if data != [] {
      var n := |data| - 1;
      CheckIsDivision(data[..n]);
      UpdateDivides(Register(data[..n]), data[n]);
      DivideConcat(0xffff_ffff, BitsOf(data[..n]), Word(data[n], 8));
    }
  }

  // Check values as numbers.

  lemma UpNumber(c: bv32)
    ensures AsWord(Up(c)) == 2 * AsWord(c) - if Top(c) then 0x1_0000_0000 else 0
    ensures Top(c) == (AsWord(c) >= 0x8000_0000)
  {
    hide Up, Top;
    UpIs(c);
    TopIs(c);
    AsWordFits(Up(c));
    if Top(c) {
      UpBig(c);
      BigNumber(c);
    } else {
      UpSmall(c);
    }
  }

  lemma UpIs(c: bv32)
    ensures Up(c) == c << 1
  {
  }

  lemma TopIs(c: bv32)
    ensures Top(c) == (c >= 0x8000_0000)
  {
  }

  lemma BigNumber(c: bv32)
    requires c >= 0x8000_0000
    ensures c as nat >= 0x8000_0000
  {
  }

  lemma UpBig(c: bv32)
    requires c >= 0x8000_0000
    ensures (c << 1) as nat == 2 * (c as nat) - 0x1_0000_0000
  {
  }

  lemma UpSmall(c: bv32)
    requires c < 0x8000_0000
    ensures (c << 1) as nat == 2 * (c as nat)
  {
  }

  lemma WordFirst(v: nat, n: nat)
    requires n > 0 && v < Pow2(n)
    ensures var b := v >= Pow2(n - 1);
      var v' := v - if b then Pow2(n - 1) else 0;
      v' >= 0 && v' < Pow2(n - 1) && Word(v, n) == [b] + Word(v', n - 1)
  {
    hide Word;
    var u := if v >= Pow2(n - 1) then 1 else 0;
    WordAppend(u, 1, v - u * Pow2(n - 1), n - 1);
    WordLast(u, 0, u, 1);
    NoWord();
    assert [] + [u == 1] == [u == 1];
  }

  lemma NoWord()
    ensures Word(0, 0) == []
  {
  }

  /** The bits of a register, from the top, are those of its number. */
  lemma {:induction false} TopBitsNumber(c: bv32, v: nat, n: nat)
    requires n <= 32 && v < Pow2(n) && AsWord(c) == v * Pow2(32 - n)
    ensures TopBits(c, n) == Word(v, n)
    decreases n
  {
    hide AsWord, Pow2, Top, TopBits, Up, Word;
    NoTopBits(c);
    if n == 0 {
      NoBitsLeft(v);
    } else {
      UpNumber(c);
      WordFirst(v, n);
      PowerStep(v, n);
      TopBitsNumber(Up(c), v - if v >= Pow2(n - 1) then Pow2(n - 1) else 0, n - 1);
      TopBitsParts(c, n);
    }
  }

  lemma NoTopBits(c: bv32)
    ensures TopBits(c, 0) == []
  {
  }

  lemma TopBitsParts(c: bv32, n: nat)
    requires n > 0
    ensures TopBits(c, n) == [Top(c)] + TopBits(Up(c), n - 1)
  {
  }

  lemma NoBitsLeft(v: nat)
    requires v < Pow2(0)
    ensures Word(v, 0) == []
  {
  }

  lemma PowerStep(v: nat, n: nat)
    requires 0 < n <= 32
    ensures v * Pow2(32 - n) >= 0x8000_0000 <==> v >= Pow2(n - 1)
    ensures 2 * (v * Pow2(32 - n)) == v * Pow2(33 - n)
    ensures Pow2(n - 1) * Pow2(33 - n) == 0x1_0000_0000
    ensures (v - Pow2(n - 1)) * Pow2(33 - n) == v * Pow2(33 - n) - 0x1_0000_0000
  {
    hide Pow2;
    Pow2Values();
    var p, q := Pow2(n - 1), Pow2(32 - n);
    Pow2Add(n - 1, 33 - n);
    Pow2Doubles(32 - n);
    Distribute(v, p, q);
    Ordered(v, p, q);
  }

  lemma Pow2Doubles(n: nat)
    ensures Pow2(n + 1) == 2 * Pow2(n)
  {
  }

  lemma Distribute(v: int, p: int, q: int)
    ensures (v - p) * (2 * q) == v * (2 * q) - p * (2 * q) && v * (2 * q) == 2 * (v * q) && p * (2 * q) == 2 * (p * q)
  {
  }

  lemma Ordered(v: nat, p: nat, q: nat)
    requires q > 0
    ensures v * q >= p * q <==> v >= p
  {
  }

  lemma NumberBits(c: bv32)
    ensures TopBits(c, 32) == Word(AsWord(c), 32)
  {
    hide AsWord, Pow2, TopBits, Word;
    Pow2Values();
    AsWordFits(c);
    assert Pow2(0) == 1 by { PowerNone(); }
    TopBitsNumber(c, AsWord(c), 32);
  }

  lemma PowerNone()
    ensures Pow2(0) == 1
  {
  }

  // The check value of the stream.

  lemma TurnBig(c: bv32)
    requires c >= 0x8000_0000
    ensures ((c << 1) | (c >> 31)) as nat == 2 * (c as nat) - 0x1_0000_0000 + 1
  {
  }

  lemma TurnSmall(c: bv32)
    requires c < 0x8000_0000
    ensures ((c << 1) | (c >> 31)) as nat == 2 * (c as nat)
  {
  }

  function Turned(c: bv32): bv32 {
    (c << 1) | (c >> 31)
  }

  lemma TurnedIs(c: bv32)
    ensures Turned(c) == (c << 1) | (c >> 31)
  {
  }

  lemma TurnStep(c: bv32)
    ensures AsWord(Turned(c)) == 2 * AsWord(c) - if Top(c) then 0xffff_ffff else 0
  {
    hide Turned, Top;
    TurnedIs(c);
    TopIs(c);
    if Top(c) { TurnBig(c); } else { TurnSmall(c); }
  }

  /** The rotation by one bit, in numbers. */
  lemma TurnedNumber(c: bv32)
    ensures AsWord(Turned(c)) == 2 * AsWord(c) % 0x1_0000_0000 + AsWord(c) / 0x8000_0000
  {
    hide AsWord, Top, Turned, Up;
    TurnStep(c);
    UpNumber(c);
    AsWordFits(c);
  }

  /** The bits of a number below 2^32, from the top. */
  function Bits32(v: nat): (w: seq<bool>)
    ensures |w| == 32
  {
    Word(v, 32)
  }

  /** Rotated by one bit. */
  lemma TurnedBits(v: nat)
    requires v < 0x1_0000_0000
    ensures Bits32(2 * v % 0x1_0000_0000 + v / 0x8000_0000) == Bits32(v)[1..] + [Bits32(v)[0]]
  {
    hide Pow2, Word;
    Pow2Values();
    Pow2Doubles(31);
    WordFirst(v, 32);
    var b := v / 0x8000_0000;
    var v' := v - b * 0x8000_0000;
    WordLast(2 * v' + b, v', b, 32);
  }

  lemma {:induction false} TopBitsXor(a: bv32, b: bv32, n: nat, k: nat)
    requires k < n
    ensures TopBits(Xor(a, b), n)[k] == (TopBits(a, n)[k] != TopBits(b, n)[k])
    decreases n
  {
    hide Top, TopBits, Up, Xor;
    TopBitsParts(a, n);
    TopBitsParts(b, n);
    TopBitsParts(Xor(a, b), n);
    TopXor(a, b);
    UpXor(a, b);
    if k > 0 { TopBitsXor(Up(a), Up(b), n - 1, k - 1); }
  }

  lemma CombineIs(c: bv32, b: bv32)
    ensures Combine(c, b) == Xor(Turned(c), b)
  {
  }

  /** Taking in a block rotates the value so far and adds the block's. */
  lemma CombineBits(c: bv32, b: bv32, i: nat)
    requires i < 32
    ensures Bits32(AsWord(Combine(c, b)))[i] == (Bits32(AsWord(c))[(i + 1) % 32] != Bits32(AsWord(b))[i])
  {
    hide AsWord, Bits32, Combine, TopBits, Turned, Xor;
    CombineIs(c, b);
    TurnedNumber(c);
    AsWordFits(c);
    TurnedBits(AsWord(c));
    RegisterBits(Turned(c));
    RegisterBits(b);
    RegisterBits(Xor(Turned(c), b));
    TopBitsXor(Turned(c), b, 32, i);
    assert (Bits32(AsWord(c))[1..] + [Bits32(AsWord(c))[0]])[i] == Bits32(AsWord(c))[(i + 1) % 32];
  }

  lemma RegisterBits(c: bv32)
    ensures TopBits(c, 32) == Bits32(AsWord(c))
  {
    hide AsWord, TopBits, Word;
    NumberBits(c);
  }

  predicate HasBit(x: Sent, i: int) {
    Bits32(AsWord(CheckValue(Plain(x.ps))))[i % 32]
  }

  /** The blocks whose value, rotated by one bit for every later block, has bit i. */
  ghost function Setting(sent: seq<Sent>, i: nat): (js: set<int>)
    requires i < 32
  {
    set j | 0 <= j < |sent| && HasBit(sent[j], i + |sent| - 1 - j)
  }

  lemma {:induction false} CombinedNext(xs: seq<Sent>, x: Sent, c: bv32)
    ensures Combined(xs + [x], c) == Combine(Combined(xs, c), CheckValue(Plain(x.ps)))
    decreases |xs|
  {
    hide CheckValue, Combine, Plain;
    if xs == [] {
      assert [] + [x] == [x] && [x][1..] == [];
    } else {
      assert (xs + [x])[1..] == xs[1..] + [x];
      CombinedNext(xs[1..], x, Combine(c, CheckValue(Plain(xs[0].ps))));
    }
  }

  lemma SettingNext(xs: seq<Sent>, x: Sent, i: nat)
    requires i < 32
    ensures Setting(xs + [x], i) == Setting(xs, (i + 1) % 32) + if HasBit(x, i) then {|xs|} else {}
    ensures |xs| !in Setting(xs, (i + 1) % 32)
  {
    hide HasBit;
    var n := |xs|;
    forall j | 0 <= j < n ensures j in Setting(xs + [x], i) <==> j in Setting(xs, (i + 1) % 32) {
      BitAround(xs[j], i, n - 1 - j);
    }
  }

  lemma BitAround(x: Sent, i: nat, m: nat)
    ensures HasBit(x, i + m + 1) == HasBit(x, (i + 1) % 32 + m)
  {
    hide AsWord, Bits32, CheckValue, Plain;
    Around(i, m);
  }

  lemma Around(i: nat, m: nat)
    ensures (i + m + 1) % 32 == ((i + 1) % 32 + m) % 32
  {
  }

  /** The check value of the stream: bit i is set exactly when it is set in an odd number of the
      values of the blocks, each rotated by one bit for every block after it. */
  lemma {:induction false} CombinedBits(sent: seq<Sent>, i: nat)
    requires i < 32
    ensures Bits32(AsWord(Combined(sent, 0)))[i] == (|Setting(sent, i)| % 2 == 1)
    decreases |sent|
  {
    hide AsWord, Bits32, CheckValue, Combine, Combined, HasBit, Plain, Setting;
    if sent == [] {
      NoneCombined(i);
    } else {
      var n := |sent| - 1;
      assert sent == sent[..n] + [sent[n]];
      CombinedNext(sent[..n], sent[n], 0);
      CombineBits(Combined(sent[..n], 0), CheckValue(Plain(sent[n].ps)), i);
      SettingNext(sent[..n], sent[n], i);
      BlockHas(sent[n], i);
      CombinedBits(sent[..n], (i + 1) % 32);
    }
  }

  lemma BlockHas(x: Sent, i: nat)
    requires i < 32
    ensures HasBit(x, i) == Bits32(AsWord(CheckValue(Plain(x.ps))))[i]
  {
    hide AsWord, Bits32, CheckValue, Plain;
  }

  lemma NoneCombined(i: nat)
    requires i < 32
    ensures Combined([], 0) == 0 && Setting([], i) == {} && !Bits32(AsWord(0))[i]
  {
    hide Word;
    ZeroNumber();
    WordZeros(32);
  }

  lemma ZeroNumber()
    ensures AsWord(0) == 0
  {
  }

  /** The last 32 bits of the trailer are those bits. */
  lemma TrailerBit(sent: seq<Sent>, i: nat)
    requires i < 32
    ensures |TrailerBits(AsWord(Combined(sent, 0)))| == 80
    ensures TrailerBits(AsWord(Combined(sent, 0)))[48 + i] == (|Setting(sent, i)| % 2 == 1)
  {
    hide AsWord, BitsOf, Combined, Setting, Word, WordBytes;
    AsWordFits(Combined(sent, 0));
    HeaderReading.WordBytesBits(AsWord(Combined(sent, 0)));
    CombinedBits(sent, i);
  }
}
