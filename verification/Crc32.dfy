/** The CRC-32 of section 8 of RFC 1952: bit by bit, and in the fast forms that use tables. */
module Crc32 {

  const POLY: bv32 := 0xedb8_8320

  function Xor(a: bv32, b: bv32): bv32 {
    a ^ b
  }

  predicate Odd(c: bv32) {
    c & 1 != 0
  }

  function Down(c: bv32): bv32 {
    c >> 1
  }

  /** One bit of division: the register moves down, and the polynomial is taken away if a one
      falls out. */
  function Step(c: bv32): bv32 {
    if Odd(c) then Xor(Down(c), POLY) else Down(c)
  }

  /** n zero bits. */
  function Steps(c: bv32, n: nat): bv32 {
    if n == 0 then c else Step(Steps(c, n - 1))
  }

  /** One bit of the message. */
  function TakeBit(c: bv32, bit: bool): bv32 {
    Step(if bit then Xor(c, 1) else c)
  }

  /** Eight bits of a byte, lowest first. */
  function TakeBits(c: bv32, b: bv32, n: nat): bv32
    decreases n
  {
    if n == 0 then c else TakeBits(TakeBit(c, Odd(b)), Down(b), n - 1)
  }

  function Byte(b: bv8): bv32 {
    b as bv32
  }

  /** The register after some bytes, bit by bit. */
  function Register(c: bv32, data: seq<bv8>): bv32 {
    if data == [] then c else TakeBits(Register(c, data[..|data| - 1]), Byte(data[|data| - 1]), 8)
  }

  function Not(c: bv32): bv32 {
    !c
  }

  /** The check value of data that follows data whose check value is crc. */
  function Crc(crc: bv32, data: seq<bv8>): bv32 {
    Not(Register(Not(crc), data))
  }

  // Exclusive or.

  lemma XorCommutes(a: bv32, b: bv32)
    ensures Xor(a, b) == Xor(b, a)
  {
  }

  lemma XorAssociates(a: bv32, b: bv32, c: bv32)
    ensures Xor(Xor(a, b), c) == Xor(a, Xor(b, c))
  {
  }

  lemma XorCancels(a: bv32)
    ensures Xor(a, a) == 0 && Xor(a, 0) == a && Xor(0, a) == a
  {
  }

  lemma XorMiddle(a: bv32, b: bv32, c: bv32, d: bv32)
    ensures Xor(Xor(a, b), Xor(c, d)) == Xor(Xor(a, c), Xor(b, d))
  {
    hide Xor;
    XorAssociates(a, b, Xor(c, d));
    XorAssociates(b, c, d);
    XorCommutes(b, c);
    XorAssociates(c, b, d);
    XorAssociates(a, c, Xor(b, d));
  }

  lemma DownXor(a: bv32, b: bv32)
    ensures Down(Xor(a, b)) == Xor(Down(a), Down(b)) && Odd(Xor(a, b)) == (Odd(a) != Odd(b))
  {
  }

  lemma StepXor(a: bv32, b: bv32)
    ensures Step(Xor(a, b)) == Xor(Step(a), Step(b))
  {
    hide Xor, Odd, Down;
    DownXor(a, b);
    var x, y, p := Down(a), Down(b), POLY;
    XorMiddle(x, p, y, p);
    XorCancels(p);
    XorCancels(Xor(x, y));
    XorAssociates(x, y, p);
    XorAssociates(x, p, y);
    XorCommutes(y, p);
  }

  /** Moving on by zero bits is linear. */
  lemma {:induction false} StepsXor(a: bv32, b: bv32, n: nat)
    ensures Steps(Xor(a, b), n) == Xor(Steps(a, n), Steps(b, n))
  {
    hide Xor, Step;
    if n > 0 {
      StepsXor(a, b, n - 1);
      StepXor(Steps(a, n - 1), Steps(b, n - 1));
    }
  }

  lemma {:induction false} StepsAdd(c: bv32, m: nat, n: nat)
    ensures Steps(Steps(c, m), n) == Steps(c, m + n)
  {
    hide Step;
    if n > 0 { StepsAdd(c, m, n - 1); }
  }

  // A byte at once.

  lemma EvenStep(c: bv32)
    requires !Odd(c)
    ensures Step(c) == Down(c)
  {
  }

  lemma AllEven(c: bv32)
    requires c & 0xff == 0
    ensures !Odd(c) && !Odd(Down(c)) && !Odd(Down(Down(c))) && !Odd(Down(Down(Down(c))))
    ensures Down(Down(Down(Down(c)))) & 0xf == 0
  {
  }

  lemma FourEven(c: bv32)
    requires c & 0xf == 0
    ensures !Odd(c) && !Odd(Down(c)) && !Odd(Down(Down(c))) && !Odd(Down(Down(Down(c))))
  {
  }

  lemma StepsNext(c: bv32, k: nat)
    ensures Steps(c, k + 1) == Step(Steps(c, k))
  {
    hide Step;
  }

  lemma NoSteps(c: bv32)
    ensures Steps(c, 0) == c
  {
  }

  lemma FourSteps(c: bv32, n: nat)
    requires var x := Steps(c, n); !Odd(x) && !Odd(Down(x)) && !Odd(Down(Down(x))) && !Odd(Down(Down(Down(x))))
    ensures Steps(c, n + 4) == Down(Down(Down(Down(Steps(c, n)))))
  {
    hide *;
    var x := Steps(c, n);
    StepsNext(c, n);
    EvenStep(x);
    StepsNext(c, n + 1);
    EvenStep(Down(x));
    StepsNext(c, n + 2);
    EvenStep(Down(Down(x)));
    StepsNext(c, n + 3);
    EvenStep(Down(Down(Down(x))));
  }

  /** While the low bits are zero the register just moves down. */
  lemma StepsHigh(c: bv32)
    requires c & 0xff == 0
    ensures Steps(c, 8) == Down8(c)
  {
    hide *;
    AllEven(c);
    NoSteps(c);
    FourSteps(c, 0);
    FourEven(Steps(c, 4));
    FourSteps(c, 4);
    Down8Is(c);
  }

  function Low(b: bv32): bv32 {
    b & 1
  }

  function Rest(b: bv32): bv32 {
    b & 0xffff_fffe
  }

  lemma LowAndRest(b: bv32)
    ensures Xor(Low(b), Rest(b)) == b && Odd(b) == (Low(b) != 0) && (Low(b) == 0 || Low(b) == 1)
  {
  }

  lemma StepRest(b: bv32)
    ensures Step(Rest(b)) == Down(b)
  {
  }

  lemma TakeLow(c: bv32, b: bv32)
    ensures TakeBit(c, Odd(b)) == Step(Xor(c, Low(b)))
  {
    hide Xor, Odd, Low, Step;
    LowAndRest(b);
    XorCancels(c);
  }

  /** Taking bits one by one is taking them all in and moving on. */
  lemma {:induction false} TakeBitsIs(c: bv32, b: bv32, n: nat)
    requires n <= 32 && Shift(b, n) == 0
    ensures TakeBits(c, b, n) == Steps(Xor(c, b), n)
    decreases n
  {
    hide Xor, Step, TakeBit, Low, Rest, Odd, Down;
    if n == 0 {
      XorCancels(c);
    } else {
      TakeLow(c, b);
      ShiftFirst(b, n);
      TakeBitsIs(TakeBit(c, Odd(b)), Down(b), n - 1);
      StepXor(Xor(c, Low(b)), Rest(b));
      StepRest(b);
      LowAndRest(b);
      XorAssociates(c, Low(b), Rest(b));
      StepsAdd(Xor(c, b), 1, n - 1);
      assert Steps(Xor(c, b), 1) == Step(Steps(Xor(c, b), 0));
    }
  }

  /** v >> k */
  function Shift(v: bv32, k: nat): bv32 {
    if k == 0 then v else Down(Shift(v, k - 1))
  }

  lemma {:induction false} ShiftFirst(v: bv32, k: nat)
    requires k > 0
    ensures Shift(v, k) == Shift(Down(v), k - 1)
  {
    hide Down;
    if k > 1 { ShiftFirst(v, k - 1); }
  }

  function Down8(x: bv32): bv32 {
    x >> 8
  }

  lemma Down8Is(x: bv32)
    ensures Down8(x) == Down(Down(Down(Down(Down(Down(Down(Down(x))))))))
  {
  }

  lemma ShiftNext(v: bv32, k: nat)
    ensures Shift(v, k + 1) == Down(Shift(v, k))
  {
    hide Down;
  }

  lemma ShiftByte(v: bv32, k: nat)
    ensures Shift(v, k + 8) == Down8(Shift(v, k))
  {
    hide *;
    ShiftNext(v, k);
    ShiftNext(v, k + 1);
    ShiftNext(v, k + 2);
    ShiftNext(v, k + 3);
    ShiftNext(v, k + 4);
    ShiftNext(v, k + 5);
    ShiftNext(v, k + 6);
    ShiftNext(v, k + 7);
    Down8Is(Shift(v, k));
  }

  lemma ByteSmall(b: bv8)
    ensures Byte(b) & 0xffff_ff00 == 0
  {
  }

  /** The table's definition: the register for each byte value. */
  function Entry(b: bv32): bv32 {
    Steps(b, 8)
  }

  /** The table form of a byte. */
  function Update(c: bv32, b: bv32): bv32 {
    Xor(Entry(Xor(c, b) & 0xff), Down8(c))
  }

  lemma HighPart(c: bv32, b: bv32)
    requires b & 0xffff_ff00 == 0
    ensures Xor(Xor(c, b) & 0xff, c & 0xffff_ff00) == Xor(c, b)
    ensures (c & 0xffff_ff00) & 0xff == 0 && Down8(c & 0xffff_ff00) == Down8(c)
  {
  }

  /** Taking in a byte, its eight bits one by one, is what the table says. */
  lemma UpdateIs(c: bv32, b: bv32)
    requires b & 0xffff_ff00 == 0
    ensures Update(c, b) == TakeBits(c, b, 8) == Steps(Xor(c, b), 8)
  {
    hide Xor, Steps, TakeBits, Shift;
    ShiftByte(b, 0);
    ShiftZero(b);
    ByteOut(b);
    TakeBitsIs(c, b, 8);
    HighPart(c, b);
    StepsXor(Xor(c, b) & 0xff, c & 0xffff_ff00, 8);
    StepsHigh(c & 0xffff_ff00);
  }

  lemma ShiftZero(b: bv32)
    ensures Shift(b, 0) == b
  {
  }

  lemma ByteOut(b: bv32)
    requires b & 0xffff_ff00 == 0
    ensures Down8(b) == 0
  {
  }

  lemma RegisterNext(c: bv32, data: seq<bv8>, b: bv8)
    ensures Register(c, data + [b]) == Update(Register(c, data), Byte(b))
  {
    hide Update, TakeBits, Byte;
    assert (data + [b])[..|data|] == data;
    ByteSmall(b);
    UpdateIs(Register(c, data), Byte(b));
  }
}
