/** The check values of blocks and streams: a 32-bit CRC, most significant bit first. */
module BlockCrc {

  /** One bit of polynomial division. */
  function Divide(c: bv32): bv32 {
    if c & 0x8000_0000 != 0 then (c << 1) ^ 0x04c1_1db7 else c << 1
  }

  function Divide8(c: bv32): bv32 {
    Divide(Divide(Divide(Divide(Divide(Divide(Divide(Divide(c))))))))
  }

  /** An entry of the table, for a byte. */
  function Entry(i: bv32): bv32 {
    Divide8(i << 24)
  }

  /** A byte at a time, by the table. */
  function Update(crc: bv32, ch: bv32): bv32 {
    (crc << 8) ^ Entry((crc >> 24) ^ ch)
  }

  function Xor(a: bv32, b: bv32): bv32 {
    a ^ b
  }

  predicate Top(c: bv32) {
    c & 0x8000_0000 != 0
  }

  function Up(c: bv32): bv32 {
    c << 1
  }

  const POLYNOMIAL: bv32 := 0x04c1_1db7

  lemma DivideCases(c: bv32)
    ensures Divide(c) == if Top(c) then Xor(Up(c), POLYNOMIAL) else Up(c)
  {
  }

  lemma UpXor(a: bv32, b: bv32)
    ensures Up(Xor(a, b)) == Xor(Up(a), Up(b))
  {
  }

  lemma TopXor(a: bv32, b: bv32)
    ensures Top(Xor(a, b)) == (Top(a) != Top(b))
  {
  }

  lemma XorAssociates(a: bv32, b: bv32, c: bv32)
    ensures Xor(Xor(a, b), c) == Xor(a, Xor(b, c))
  {
  }

  lemma XorCommutes(a: bv32, b: bv32)
    ensures Xor(a, b) == Xor(b, a)
  {
  }

  lemma XorCancels(a: bv32)
    ensures Xor(a, a) == 0 && Xor(a, 0) == a
  {
  }

  lemma XorPairs(x: bv32, y: bv32, p: bv32)
    ensures Xor(Xor(x, p), Xor(y, p)) == Xor(x, y)
    ensures Xor(Xor(x, p), y) == Xor(Xor(x, y), p) && Xor(x, Xor(y, p)) == Xor(Xor(x, y), p)
  {
    hide Xor;
    XorAssociates(x, p, Xor(y, p));
    XorCommutes(y, p);
    XorAssociates(p, p, y);
    XorCancels(p);
    XorCommutes(0, y);
    XorCancels(y);
    XorAssociates(x, p, y);
    XorAssociates(x, y, p);
  }

  /** Division is linear over exclusive or. */
  lemma DivideLinear(a: bv32, b: bv32)
    ensures Divide(Xor(a, b)) == Xor(Divide(a), Divide(b))
  {
    hide *;
    DivideCases(a);
    DivideCases(b);
    DivideCases(Xor(a, b));
    UpXor(a, b);
    TopXor(a, b);
    XorPairs(Up(a), Up(b), POLYNOMIAL);
  }

  lemma Divide8Linear(a: bv32, b: bv32)
    ensures Divide8(Xor(a, b)) == Xor(Divide8(a), Divide8(b))
  {
    hide Divide, Xor;
    DivideLinear(a, b);
    var a1, b1 := Divide(a), Divide(b);
    DivideLinear(a1, b1);
    var a2, b2 := Divide(a1), Divide(b1);
    DivideLinear(a2, b2);
    var a3, b3 := Divide(a2), Divide(b2);
    DivideLinear(a3, b3);
    var a4, b4 := Divide(a3), Divide(b3);
    DivideLinear(a4, b4);
    var a5, b5 := Divide(a4), Divide(b4);
    DivideLinear(a5, b5);
    var a6, b6 := Divide(a5), Divide(b5);
    DivideLinear(a6, b6);
    DivideLinear(Divide(a6), Divide(b6));
  }

  /** Bytes low in the word only move up. */
  lemma Divide8Low(c: bv32)
    requires c & 0xff00_0000 == 0
    ensures Divide8(c) == c << 8
  {
  }

  /** The register with a byte brought in at its top: the table index, and the rest. */
  lemma TopAndRest(crc: bv32, ch: bv32)
    requires ch & 0xffff_ff00 == 0
    ensures Xor(crc, ch << 24) == Xor(((crc >> 24) ^ ch) << 24, crc & 0x00ff_ffff)
  {
  }

  lemma RestLow(crc: bv32)
    ensures (crc & 0x00ff_ffff) << 8 == crc << 8 && (crc & 0x00ff_ffff) & 0xff00_0000 == 0
  {
  }

  /** The table form is eight steps of the bit form. */
  lemma UpdateIsDivision(crc: bv32, ch: bv32)
    requires ch & 0xffff_ff00 == 0
    ensures Update(crc, ch) == Divide8(Xor(crc, ch << 24))
  {
    hide *;
    UpdateIs(crc, ch);
    TopAndRest(crc, ch);
    RestLow(crc);
    var top, low := ((crc >> 24) ^ ch) << 24, crc & 0x00ff_ffff;
    Divide8Low(low);
    UpdateParts(crc, ch, top, low, crc << 8);
  }

  lemma UpdateParts(crc: bv32, ch: bv32, top: bv32, low: bv32, up: bv32)
    requires Update(crc, ch) == Xor(up, Divide8(top)) && Divide8(low) == up
    requires Xor(crc, ch << 24) == Xor(top, low)
    ensures Update(crc, ch) == Divide8(Xor(crc, ch << 24))
  {
    hide *;
    Divide8Linear(top, low);
    XorCommutes(Divide8(top), up);
  }

  lemma UpdateIs(crc: bv32, ch: bv32)
    ensures Update(crc, ch) == Xor(crc << 8, Divide8(((crc >> 24) ^ ch) << 24))
  {
    hide Divide8;
  }

  function Byte(c: int): bv32 {
    if 0 <= c < 256 then c as bv32 else 0
  }

  /** The register after some data. */
  function Register(data: seq<int>): bv32 {
    if data == [] then 0xffff_ffff else Update(Register(data[..|data| - 1]), Byte(data[|data| - 1]))
  }

  lemma RegisterNext(data: seq<int>, c: int)
    ensures Register(data + [c]) == Update(Register(data), Byte(c))
  {
    hide Update, Byte;
    assert (data + [c])[..|data|] == data;
  }

  /** The check value of a block. */
  function CheckValue(data: seq<int>): bv32 {
    !Register(data)
  }

  /** Taking a block into the check value of the stream. */
  function Combine(combined: bv32, block: bv32): bv32 {
    ((combined << 1) | (combined >> 31)) ^ block
  }
}
