/** Joining check values: zeros are appended to a register by squaring matrices over GF(2). */
module Crc32Combine {
  import opened Crc32
  import opened Crc32Words

  const DIM: nat := 32

  /** The matrix moves a register on by n zero bits: its columns are what becomes of single bits. */
  ghost predicate Operator(mat: seq<bv32>, n: nat) {
    |mat| == DIM && forall k :: 0 <= k < DIM ==> mat[k] == Steps(Bit(k), n)
  }

  /** x << k, which drops what leaves at the top */
  function Raise(x: bv32, k: nat): bv32 {
    if k == 0 then x else Up(Raise(x, k - 1))
  }

  lemma UpXor(a: bv32, b: bv32)
    ensures Up(Xor(a, b)) == Xor(Up(a), Up(b)) && Up(0) == 0
  {
  }

  lemma {:induction false} RaiseXor(a: bv32, b: bv32, k: nat)
    ensures Raise(Xor(a, b), k) == Xor(Raise(a, k), Raise(b, k))
  {
    hide Xor, Up;
    if k > 0 {
      RaiseXor(a, b, k - 1);
      UpXor(Raise(a, k - 1), Raise(b, k - 1));
    }
  }

  lemma {:induction false} RaiseUp(x: bv32, k: nat)
    ensures Raise(Up(x), k) == Raise(x, k + 1)
  {
    hide Up;
    if k > 0 { RaiseUp(x, k - 1); }
  }

  lemma {:induction false} RaiseOne(k: nat)
    ensures Raise(1, k) == Bit(k) && Raise(0, k) == 0
  {
    hide Up;
    UpXor(0, 0);
    if k > 0 { RaiseOne(k - 1); }
  }

  lemma {:induction false} StepsZero(n: nat)
    ensures Steps(0, n) == 0
  {
    hide Step;
    StepZero();
    if n > 0 { StepsZero(n - 1); }
  }

  lemma StepZero()
    ensures Step(0) == 0
  {
  }

  lemma LowAndUp(v: bv32)
    ensures v == Xor(Low(v), Up(Down(v))) && (v & 1 != 0 <==> Low(v) == 1) && (v & 1 == 0 <==> Low(v) == 0)
  {
  }

  /** One bit of a vector and the rest of it. */
  lemma BitAndRest(v: bv32, k: nat, n: nat)
    ensures Steps(Raise(v, k), n) == Xor(if v & 1 != 0 then Steps(Bit(k), n) else 0, Steps(Raise(Down(v), k + 1), n))
  {
    hide Steps, Raise, Bit, Xor, Up, Down, Low;
    LowAndUp(v);
    RaiseXor(Low(v), Up(Down(v)), k);
    RaiseUp(Down(v), k);
    RaiseOne(k);
    StepsZero(n);
    StepsXor(Raise(Low(v), k), Raise(Down(v), k + 1), n);
  }

  lemma ShiftAll(v: bv32)
    ensures Shift(v, 32) == 0
  {
    hide Shift;
    ShiftByte(v, 0);
    ShiftByte(v, 8);
    ShiftByte(v, 16);
    ShiftByte(v, 24);
    DownAll(Shift(v, 0));
  }

  lemma DownAll(v: bv32)
    ensures Down8(Down8(Down8(Down8(v)))) == 0
  {
  }

  /** The product of a matrix and a vector. */
  method Gf2MatrixTimes(mat: array<bv32>, vec: bv32, ghost n: nat) returns (sum: bv32)
    requires Operator(mat[..], n)
    ensures sum == Steps(vec, n)
  {
    hide Steps, Raise, Bit, Xor, Shift, Down;
    sum := 0;
    var v, k := vec, 0;
    RaiseNone(vec);
    XorCancels(Steps(vec, n));
    while v != 0
      invariant k <= 32 && v == Shift(vec, k) && Xor(sum, Steps(Raise(v, k), n)) == Steps(vec, n)
      decreases 32 - k
    {
      ShiftAll(vec);
      BitAndRest(v, k, n);
      XorAssociates(sum, Steps(Bit(k), n), Steps(Raise(Down(v), k + 1), n));
      XorCancels(Steps(Raise(Down(v), k + 1), n));
      if v & 1 != 0 {
        assert mat[..][k] == Steps(Bit(k), n);
        sum := Xor(sum, mat[k]);
      }
      ShiftNext(vec, k);
      v := Down(v);
      k := k + 1;
    }
    RaiseOne(k);
    StepsZero(n);
    XorCancels(sum);
  }

  lemma RaiseNone(v: bv32)
    ensures Raise(v, 0) == v && Shift(v, 0) == v
  {
  }

  /** The square of a matrix moves on by twice as many bits. */
  method Gf2MatrixSquare(square: array<bv32>, mat: array<bv32>, ghost n: nat)
    requires Operator(mat[..], n) && square != mat && square.Length == DIM
    modifies square
    ensures Operator(square[..], 2 * n)
  {
    hide Steps, Bit;
    for k := 0 to DIM
      invariant Operator(mat[..], n)
      invariant forall j :: 0 <= j < k ==> square[j] == Steps(Bit(j), 2 * n)
    {
      square[k] := Gf2MatrixTimes(mat, mat[..][k], n);
      StepsAdd(Bit(k), n, n);
    }
  }

  /** The operator for one zero bit. */
  lemma OneBit(k: nat)
    requires k < 32
    ensures k == 0 ==> Steps(Bit(k), 1) == POLY
    ensures k > 0 ==> Steps(Bit(k), 1) == Bit(k - 1)
  {
    hide Bit, Step;
    hide Steps, Bit;
    StepsNext(Bit(k), 0);
    NoSteps(Bit(k));
    BitIs(k);
    if k > 0 { BitIs(k - 1); }
    StepPower(k);
  }

  lemma StepPower(k: nat)
    requires k < 32
    ensures k == 0 ==> Step(RaisedPower(k)) == POLY
    ensures k > 0 ==> Step(RaisedPower(k)) == RaisedPower(k - 1)
  {
  }

  lemma Halves(q: nat, len: nat)
    ensures q * len == (2 * q) * (len / 2) + (if len % 2 == 1 then q else 0)
  {
    var h := len / 2;
    assert len == 2 * h + len % 2;
    assert q * (2 * h) == (2 * q) * h;
  }

  /** Applies the matrix if the lowest bit of the length is set, and drops that bit. */
  method ApplyBit(mat: array<bv32>, ghost q: nat, crc: bv32, len: nat) returns (crc': bv32, len': nat)
    requires Operator(mat[..], q)
    ensures len' == len / 2 && Steps(crc', (2 * q) * len') == Steps(crc, q * len)
  {
    hide Steps, Operator;
    crc' := crc;
    Halves(q, len);
    if len % 2 == 1 {
      crc' := Gf2MatrixTimes(mat, crc, q);
      StepsAdd(crc, q, (2 * q) * (len / 2));
    }
    len' := len / 2;
  }

  method FirstMatrix(odd: array<bv32>)
    requires odd.Length == DIM
    modifies odd
    ensures Operator(odd[..], 1)
  {
    hide Steps, Bit;
    odd[0] := 0xedb8_8320;
    var row := 1;
    OneBit(0);
    FirstBit();
    for n := 1 to DIM
      invariant row == Bit(n - 1) && forall k :: 0 <= k < n ==> odd[k] == Steps(Bit(k), 1)
    {
      OneBit(n);
      odd[n] := row;
      BitNext(n - 1);
      row := Up(row);
    }
  }

  lemma FirstBit()
    ensures Bit(0) == 1
  {
  }

  lemma {:induction false} RegisterConcat(c: bv32, a: seq<bv8>, b: seq<bv8>)
    ensures Register(c, a + b) == Register(Register(c, a), b)
  {
    hide TakeBits;
    if b == [] {
      assert a + b == a;
    } else {
      var n := |b| - 1;
      assert (a + b)[..|a + b| - 1] == a + b[..n];
      RegisterConcat(c, a, b[..n]);
    }
  }

  /** A change of the register goes through the data as zero bits go through it. */
  lemma {:induction false} RegisterXor(c: bv32, d: bv32, data: seq<bv8>)
    ensures Register(Xor(c, d), data) == Xor(Register(c, data), Steps(d, 8 * |data|))
  {
    hide TakeBits, Steps, Xor, Byte;
    if data == [] {
      NoSteps(d);
    } else {
      var n := |data| - 1;
      RegisterXor(c, d, data[..n]);
      var x, y, b := Register(c, data[..n]), Steps(d, 8 * n), Byte(data[n]);
      ByteSmall(data[n]);
      UpdateIs(x, b);
      UpdateIs(Xor(x, y), b);
      XorAssociates(x, y, b);
      XorCommutes(y, b);
      XorAssociates(x, b, y);
      StepsXor(Xor(x, b), y, 8);
      StepsAdd(d, 8 * n, 8);
    }
  }

  lemma NotXor(a: bv32, b: bv32)
    ensures Not(Xor(a, b)) == Xor(Not(a), b)
  {
  }

  lemma NotIsXor(a: bv32)
    ensures Not(a) == Xor(Not(0), a)
  {
  }

  lemma NotTwice(a: bv32)
    ensures Not(Not(a)) == a
  {
  }

  /** Combining the check value of a piece of data into one before it gives the check value of both
      together, whatever came before. */
  lemma CombineIsConcat(crc1: bv32, data: seq<bv8>)
    ensures Crc(crc1, data) == if |data| == 0 then crc1 else Xor(Steps(crc1, 8 * |data|), Crc(0, data))
  {
    hide Steps, Xor, TakeBits, Not;
    NotIsXor(crc1);
    NotTwice(crc1);
    if |data| == 0 {
      assert Register(Not(crc1), data) == Not(crc1);
    } else {
      var s := Steps(crc1, 8 * |data|);
      RegisterXor(Not(0), crc1, data);
      NotXor(Register(Not(0), data), s);
      XorCommutes(s, Not(Register(Not(0), data)));
    }
  }

  /** The check value of a concatenation goes on from that of its first part. */
  lemma CrcConcat(crc: bv32, a: seq<bv8>, b: seq<bv8>)
    ensures Crc(crc, a + b) == Crc(Crc(crc, a), b)
  {
    hide Register, Not;
    NotTwice(Register(Not(crc), a));
    RegisterConcat(Not(crc), a, b);
  }

  /** The check value of two pieces of data one after the other, from those of both: zeros are
      appended to the first, as many as the second has bytes. */
  method Crc32Combine(crc1: bv32, crc2: bv32, len2: int) returns (r: bv32)
    ensures len2 <= 0 ==> r == crc1
    ensures forall data: seq<bv8> :: |data| == len2 && crc2 == Crc(0, data) ==> r == Crc(crc1, data)
    ensures forall a: seq<bv8>, b: seq<bv8> ::
      |b| == len2 && crc1 == Crc(0, a) && crc2 == Crc(0, b) ==> r == Crc(0, a + b)
  {
    hide Steps, Xor, Operator, Crc;
    forall a: seq<bv8>, b: seq<bv8> | crc1 == Crc(0, a) ensures Crc(0, a + b) == Crc(crc1, b) { CrcConcat(0, a, b); }
    forall data: seq<bv8> | |data| == len2
      ensures Crc(crc1, data) == if |data| == 0 then crc1 else Xor(Steps(crc1, 8 * |data|), Crc(0, data))
    {
      CombineIsConcat(crc1, data);
    }
    if len2 <= 0 { return crc1; }
    var even, odd := new bv32[DIM], new bv32[DIM];
    FirstMatrix(odd);
    Gf2MatrixSquare(even, odd, 1);
    Gf2MatrixSquare(odd, even, 2);
    var c, len := crc1, len2;
    ghost var q: nat := 4;
    while true
      invariant even.Length == odd.Length == DIM && Operator(odd[..], q) && len >= 0
      invariant Steps(c, (2 * q) * len) == Steps(crc1, 8 * len2)
      decreases len
      modifies even, odd
    {
      Gf2MatrixSquare(even, odd, q);
      c, len := ApplyBit(even, 2 * q, c, len);
      if len == 0 { break; }
      Gf2MatrixSquare(odd, even, 2 * q);
      c, len := ApplyBit(odd, 2 * (2 * q), c, len);
      q := 2 * (2 * q);
      if len == 0 { break; }
    }
    NoSteps(c);
    r := Xor(c, crc2);
  }
}
