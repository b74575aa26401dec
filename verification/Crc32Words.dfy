/** The tables of the CRC-32 and the loops that take four bytes at a time by them. */
module Crc32Words {
  import opened Crc32

  /** 1 << k */
  function Bit(k: nat): bv32 {
    if k == 0 then 1 else Up(Bit(k - 1))
  }

  function Up(c: bv32): bv32 {
    c << 1
  }

  function Up8(c: bv32): bv32 {
    c << 8
  }

  /** The four bytes of a word the other way round. */
  function Swap(c: bv32): bv32 {
    (c >> 24) | ((c >> 8) & 0xff00) | ((c & 0xff00) << 8) | ((c & 0xff) << 24)
  }

  function ByteAt(c: bv32, k: nat): bv8
    requires k < 4
  {
    if k == 0 then (c & 0xff) as bv8
    else if k == 1 then ((c >> 8) & 0xff) as bv8
    else if k == 2 then ((c >> 16) & 0xff) as bv8
    else ((c >> 24) & 0xff) as bv8
  }

  function Raised(b: bv8, k: nat): bv32
    requires k < 4
  {
    if k == 0 then b as bv32
    else if k == 1 then (b as bv32) << 8
    else if k == 2 then (b as bv32) << 16
    else (b as bv32) << 24
  }

  // The tables.

  function Number(i: nat): bv32
    requires i < 256
  {
    Byte(i as bv8)
  }

  lemma NumberOf(b: bv8)
    ensures 0 <= b as int < 256 && Number(b as int) == Byte(b)
  {
    hide Byte;
    AndBack(b);
  }

  lemma AndBack(b: bv8)
    ensures 0 <= b as int < 256 && (b as int) as bv8 == b
  {
  }

  /** Table k moves a byte on by k + 1 bytes of zeros; table k + 4 is the same with its bytes swapped. */
  ghost predicate Entries(t: array2<bv32>, k: nat)
    requires k < 4 && t.Length0 == 8 && t.Length1 == 256
    reads t
  {
    forall i :: 0 <= i < 256 ==> t[k, i] == Steps(Number(i), 8 * (k + 1)) && t[k + 4, i] == Swap(t[k, i])
  }

  ghost predicate Tables(t: array2<bv32>)
    reads t
  {
    t.Length0 == 8 && t.Length1 == 256 && forall k :: 0 <= k < 4 ==> Entries(t, k)
  }

  const EXPONENTS: seq<nat> := [0, 1, 2, 4, 5, 7, 8, 10, 11, 12, 16, 22, 23, 26]

  /** The polynomial's terms, x^31 lowest. */
  function Terms(n: nat): bv32
    requires n <= |EXPONENTS|
  {
    if n == 0 then 0 else Terms(n - 1) | Bit(31 - EXPONENTS[n - 1])
  }

  lemma BitNext(k: nat)
    ensures Bit(k + 1) == Up(Bit(k))
  {
    hide Up;
  }

  lemma Up8Is(x: bv32)
    ensures Up8(x) == Up(Up(Up(Up(Up(Up(Up(Up(x))))))))
  {
  }

  lemma BitByte(k: nat)
    ensures Bit(k + 8) == Up8(Bit(k))
  {
    hide *;
    BitNext(k);
    BitNext(k + 1);
    BitNext(k + 2);
    BitNext(k + 3);
    BitNext(k + 4);
    BitNext(k + 5);
    BitNext(k + 6);
    BitNext(k + 7);
    Up8Is(Bit(k));
  }

  function Power(k: nat): bv32
    requires k < 8
  {
    if k == 0 then 1 else if k == 1 then 2 else if k == 2 then 4 else if k == 3 then 8
    else if k == 4 then 16 else if k == 5 then 32 else if k == 6 then 64 else 128
  }

  function RaisedPower(k: nat): bv32
    requires k < 32
  {
    if k < 8 then Power(k) else if k < 16 then Up8(Power(k - 8))
    else if k < 24 then Up8(Up8(Power(k - 16))) else Up8(Up8(Up8(Power(k - 24))))
  }

  lemma BitIs(k: nat)
    requires k < 32
    ensures Bit(k) == RaisedPower(k)
  {
    hide Bit, Up8, Power;
    if k < 8 {
      SmallBits(k);
    } else {
      BitIs(k - 8);
      BitByte(k - 8);
    }
  }

  lemma SmallBits(k: nat)
    requires k < 8
    ensures Bit(k) == Power(k)
  {
    assert Bit(0) == 1 && Bit(1) == 2;
    assert Bit(2) == 4 && Bit(3) == 8;
    assert Bit(4) == 16 && Bit(5) == 32;
    assert Bit(6) == 64 && Bit(7) == 128;
  }

  lemma TermNext(n: nat, t: bv32)
    requires n < |EXPONENTS| && EXPONENTS[n] < 32 && Terms(n) == t
    ensures Terms(n + 1) == t | RaisedPower(31 - EXPONENTS[n])
  {
    hide Bit, RaisedPower;
    BitIs(31 - EXPONENTS[n]);
  }

  lemma TermsHalf()
    ensures Terms(7) == 0xed80_0000
  {
    hide Terms, Bit;
    NoTerms();
    TermNext(0, 0);
    TermNext(1, 0x8000_0000);
    TermNext(2, 0xc000_0000);
    TermNext(3, 0xe000_0000);
    TermNext(4, 0xe800_0000);
    TermNext(5, 0xec00_0000);
    TermNext(6, 0xed00_0000);
  }

  lemma TermsArePoly()
    ensures Terms(14) == POLY
  {
    hide Terms, Bit;
    TermsHalf();
    TermNext(7, 0xed80_0000);
    TermNext(8, 0xeda0_0000);
    TermNext(9, 0xedb0_0000);
    TermNext(10, 0xedb8_0000);
    TermNext(11, 0xedb8_8000);
    TermNext(12, 0xedb8_8200);
    TermNext(13, 0xedb8_8300);
  }

  lemma NoTerms()
    ensures Terms(0) == 0
  {
  }

  lemma Exponents(n: nat)
    requires n < 14
    ensures |EXPONENTS| == 14 && EXPONENTS[n] <= 31 && Terms(n + 1) == Terms(n) | Bit(31 - EXPONENTS[n])
  {
    hide Bit;
  }

  /** Makes the polynomial's pattern from its exponents. */
  method MakePattern() returns (poly: bv32)
    ensures poly == POLY
  {
    hide Bit, Terms;
    TermsArePoly();
    NoTerms();
    poly := 0;
    for n := 0 to 14
      invariant poly == Terms(n)
    {
      Exponents(n);
      poly := poly | Bit(31 - EXPONENTS[n]);
    }
  }

  lemma StepIs(c: bv32)
    ensures Step(c) == if c & 1 != 0 then POLY ^ (c >> 1) else c >> 1
  {
  }

  /** Which entry of the first table the low byte selects. */
  function LowByte(c: bv32): (i: nat)
    ensures i < 256
  {
    ((c & 0xff) as bv8) as int
  }

  lemma LowByteIs(c: bv32)
    ensures Number(LowByte(c)) == c & 0xff
  {
    AndBack((c & 0xff) as bv8);
  }

  /** A register moved on by a byte of zeros, by the first table. */
  lemma EntryNext(b: bv32, c: bv32, n: nat)
    requires c == Steps(b, n)
    ensures Xor(Steps(Number(LowByte(c)), 8), Down8(c)) == Steps(b, n + 8)
  {
    hide LowByte, Number, Steps, Xor, TakeBits;
    LowByteIs(c);
    UpdateIs(c, 0);
    ZeroByte(c);
    StepsAdd(b, n, 8);
  }

  lemma ZeroByte(c: bv32)
    ensures Xor(c, 0) == c && Xor(c, 0) & 0xff == c & 0xff
  {
  }

  lemma IndexOf(c: bv32)
    ensures 0 <= ((c & 0xff) as bv8) as int < 256 && Byte((c & 0xff) as bv8) == c & 0xff
  {
  }

  /** An entry of the first table, bit by bit. */
  method FirstEntry(n: nat, poly: bv32) returns (c: bv32)
    requires n < 256 && poly == POLY
    ensures c == Steps(Number(n), 8)
  {
    hide Step, Steps, Number, Byte;
    c := Byte(n as bv8);
    NumberIs(n);
    NoSteps(c);
    for k := 0 to 8
      invariant c == Steps(Number(n), k)
    {
      StepIs(c);
      StepsNext(Number(n), k);
      c := if c & 1 != 0 then poly ^ (c >> 1) else c >> 1;
    }
  }

  /** An entry of a table, and the same of the table for the other byte order. */
  method PutEntry(t: array2<bv32>, k: nat, n: nat, c: bv32)
    requires t.Length0 == 8 && t.Length1 == 256 && n < 256 && k < 4
    modifies t
    ensures t[k, n] == c && t[k + 4, n] == Swap(c)
    ensures forall r, i :: 0 <= r < 8 && 0 <= i < 256 && !(i == n && (r == k || r == k + 4)) ==> t[r, i] == old(t[r, i])
  {
    t[k, n] := c;
    t[k + 4, n] := Swap(c);
  }

  /** One byte value's entries in the other tables. */
  method MoreEntries(t: array2<bv32>, n: nat)
    requires t.Length0 == 8 && t.Length1 == 256 && n < 256
    requires forall i :: 0 <= i < 256 ==> t[0, i] == Steps(Number(i), 8)
    modifies t
    ensures forall k :: 0 <= k < 4 ==> t[k, n] == Steps(Number(n), 8 * (k + 1)) && t[k + 4, n] == Swap(t[k, n])
    ensures forall i :: 0 <= i < 256 ==> t[0, i] == old(t[0, i])
    ensures forall r, i :: 0 <= r < 8 && 0 <= i < 256 && i != n ==> t[r, i] == old(t[r, i])
  {
    hide LowByte, Step, Steps, Swap, Number, Xor, Down8, Byte;
    var c := t[0, n];
    t[4, n] := Swap(c);
    for k := 1 to 4
      invariant c == t[k - 1, n]
      invariant forall j :: 0 <= j < k ==> t[j, n] == Steps(Number(n), 8 * (j + 1)) && t[j + 4, n] == Swap(t[j, n])
      invariant forall i :: 0 <= i < 256 ==> t[0, i] == old(t[0, i])
      invariant forall r, i :: 0 <= r < 8 && 0 <= i < 256 && i != n ==> t[r, i] == old(t[r, i])
    {
      EntryNext(Number(n), c, 8 * k);
      c := Xor(t[0, LowByte(c)], Down8(c));
      PutEntry(t, k, n, c);
    }
  }

  /** Fills the tables. */
  method MakeCrcTable(t: array2<bv32>)
    requires t.Length0 == 8 && t.Length1 == 256
    modifies t
    ensures Tables(t)
  {
    hide Step, Steps, Swap, Number;
    var poly := MakePattern();
    for n := 0 to 256
      invariant forall i :: 0 <= i < n ==> t[0, i] == Steps(Number(i), 8)
    {
      var c := FirstEntry(n, poly);
      t[0, n] := c;
    }
    for n := 0 to 256
      invariant forall i :: 0 <= i < 256 ==> t[0, i] == Steps(Number(i), 8)
      invariant forall k, i :: 0 <= k < 4 && 0 <= i < n ==>
        t[k, i] == Steps(Number(i), 8 * (k + 1)) && t[k + 4, i] == Swap(t[k, i])
    {
      MoreEntries(t, n);
    }
  }

  lemma NumberIs(n: nat)
    requires n < 256
    ensures Number(n) == Byte(n as bv8)
  {
  }

  // A word at a time.

  /** A word as it is read where the lowest byte comes first. */
  function Little(b0: bv8, b1: bv8, b2: bv8, b3: bv8): bv32 {
    Xor(Xor(Raised(b0, 0), Raised(b1, 1)), Xor(Raised(b2, 2), Raised(b3, 3)))
  }

  /** A word as it is read where the highest byte comes first. */
  function Big(b0: bv8, b1: bv8, b2: bv8, b3: bv8): bv32 {
    Xor(Xor(Raised(b0, 3), Raised(b1, 2)), Xor(Raised(b2, 1), Raised(b3, 0)))
  }

  lemma PartsOf(x: bv32)
    ensures Little(ByteAt(x, 0), ByteAt(x, 1), ByteAt(x, 2), ByteAt(x, 3)) == x
  {
  }

  lemma RaisedDown(b: bv8, k: nat)
    requires 0 < k < 4
    ensures Raised(b, k) & 0xff == 0 && Down8(Raised(b, k)) == Raised(b, k - 1)
  {
  }

  lemma RaisedNone(b: bv8)
    ensures Raised(b, 0) == Byte(b)
  {
  }

  /** A byte that stands higher up just moves down first. */
  lemma {:induction false} RaisedSteps(b: bv8, k: nat)
    requires k < 4
    ensures Steps(Raised(b, k), 8 * k) == Byte(b)
    decreases k
  {
    hide Steps, Raised, Byte, Down8;
    if k == 0 {
      NoSteps(Raised(b, 0));
      RaisedNone(b);
    } else {
      RaisedDown(b, k);
      StepsHigh(Raised(b, k));
      RaisedSteps(b, k - 1);
      StepsAdd(Raised(b, k), 8, 8 * (k - 1));
    }
  }

  lemma RaisedFar(b: bv8, k: nat, n: nat)
    requires k < 4 && n >= 8 * k
    ensures Steps(Raised(b, k), n) == Steps(Byte(b), n - 8 * k)
  {
    hide Steps, Raised, Byte;
    RaisedSteps(b, k);
    StepsAdd(Raised(b, k), 8 * k, n - 8 * k);
  }

  lemma EntryOf(t: array2<bv32>, k: nat, b: bv8)
    requires Tables(t) && k < 4
    ensures 0 <= b as int < 256 && t[k, b as int] == Steps(Byte(b), 8 * (k + 1))
    ensures t[k + 4, b as int] == Swap(Steps(Byte(b), 8 * (k + 1)))
  {
    hide Steps, Swap, Number, Byte;
    NumberOf(b);
    assert Entries(t, k);
  }

  /** Four table look-ups move a word on by 32 bits. */
  lemma WordStep(x: bv32)
    ensures Steps(x, 32) == Xor(Xor(Xor(Steps(Byte(ByteAt(x, 0)), 32), Steps(Byte(ByteAt(x, 1)), 24)),
                                    Steps(Byte(ByteAt(x, 2)), 16)), Steps(Byte(ByteAt(x, 3)), 8))
  {
    hide Steps, Raised, Byte, ByteAt, Xor;
    PartsOf(x);
    var b0, b1, b2, b3 := ByteAt(x, 0), ByteAt(x, 1), ByteAt(x, 2), ByteAt(x, 3);
    RaisedFar(b0, 0, 32);
    RaisedFar(b1, 1, 32);
    RaisedFar(b2, 2, 32);
    RaisedFar(b3, 3, 32);
    StepsXor(Xor(Raised(b0, 0), Raised(b1, 1)), Xor(Raised(b2, 2), Raised(b3, 3)), 32);
    StepsXor(Raised(b0, 0), Raised(b1, 1), 32);
    StepsXor(Raised(b2, 2), Raised(b3, 3), 32);
    XorAssociates(Xor(Steps(Byte(b0), 32), Steps(Byte(b1), 24)), Steps(Byte(b2), 16), Steps(Byte(b3), 8));
  }

  lemma SliceNext(data: seq<bv8>, i: nat, j: nat)
    requires i <= j < |data|
    ensures data[i..j + 1] == data[i..j] + [data[j]]
  {
  }

  /** A byte taken in after others is as if it had been taken in with them, higher up. */
  lemma TakenLater(x: bv32, b: bv8, k: nat)
    requires k < 4
    ensures Steps(Xor(Steps(x, 8 * k), Byte(b)), 8) == Steps(Xor(x, Raised(b, k)), 8 * k + 8)
  {
    hide Steps, Raised, Byte, Xor;
    RaisedSteps(b, k);
    StepsXor(x, Raised(b, k), 8 * k);
    StepsAdd(Xor(x, Raised(b, k)), 8 * k, 8);
  }

  /** Taking in four bytes one by one is taking in their word at once. */
  lemma FourBytes(c: bv32, data: seq<bv8>, i: nat)
    requires i + 4 <= |data|
    ensures Register(c, data[..i + 4]) ==
      Steps(Xor(Register(c, data[..i]), Little(data[i], data[i + 1], data[i + 2], data[i + 3])), 32)
  {
    hide Steps, Raised, Byte, Xor, TakeBits, Register;
    var r := Register(c, data[..i]);
    var b0, b1, b2, b3 := data[i], data[i + 1], data[i + 2], data[i + 3];
    OneByte(c, data, i);
    OneByte(c, data, i + 1);
    OneByte(c, data, i + 2);
    OneByte(c, data, i + 3);
    RaisedNone(b0);
    var x0 := Xor(r, Raised(b0, 0));
    TakenLater(x0, b1, 1);
    var x1 := Xor(x0, Raised(b1, 1));
    TakenLater(x1, b2, 2);
    var x2 := Xor(x1, Raised(b2, 2));
    TakenLater(x2, b3, 3);
    XorAssociates(r, Raised(b0, 0), Raised(b1, 1));
    XorAssociates(x1, Raised(b2, 2), Raised(b3, 3));
    XorAssociates(r, Xor(Raised(b0, 0), Raised(b1, 1)), Xor(Raised(b2, 2), Raised(b3, 3)));
  }

  lemma OneByte(c: bv32, data: seq<bv8>, i: nat)
    requires i < |data|
    ensures Register(c, data[..i + 1]) == Update(Register(c, data[..i]), Byte(data[i]))
    ensures Register(c, data[..i + 1]) == Steps(Xor(Register(c, data[..i]), Byte(data[i])), 8)
  {
    hide Steps, Byte, Xor, TakeBits, Register, Update;
    assert data[..i + 1] == data[..i] + [data[i]];
    RegisterNext(c, data[..i], data[i]);
    ByteSmall(data[i]);
    UpdateIs(Register(c, data[..i]), Byte(data[i]));
  }
}
