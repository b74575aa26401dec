/** The loops of crc32: byte by byte, and word by word in both byte orders. */
module Crc32Fast {
  import opened Crc32
  import opened Crc32Words

  /** DO1 */
  method TakeByte(t: array2<bv32>, c: bv32, b: bv8) returns (c': bv32)
    requires Tables(t)
    ensures c' == Update(c, Byte(b))
  {
    hide Steps, Xor, Down8, Byte, Tables;
    TableSize(t);
    var x := ((Xor(c, Byte(b)) & 0xff)) as bv8;
    IndexOf(Xor(c, Byte(b)));
    EntryOf(t, 0, x);
    c' := Xor(t[0, x as int], Down8(c));
  }

  lemma TableSize(t: array2<bv32>)
    requires Tables(t)
    ensures t.Length0 == 8 && t.Length1 == 256
  {
  }

  lemma NoData(c: bv32, data: seq<bv8>)
    ensures Register(c, data[..0]) == c && data[..|data|] == data
  {
  }

  lemma Complement(c: bv32)
    ensures c ^ 0xffff_ffff == Not(c)
  {
  }

  /** Takes in the bytes from i to j. */
  method TakeBytes(t: array2<bv32>, ghost c0: bv32, c: bv32, buf: seq<bv8>, i: nat, j: nat) returns (c': bv32)
    requires Tables(t) && i <= j <= |buf| && c == Register(c0, buf[..i])
    ensures c' == Register(c0, buf[..j])
  {
    hide Tables, Register, Update;
    c' := c;
    for k := i to j
      invariant c' == Register(c0, buf[..k])
    {
      OneByte(c0, buf, k);
      c' := TakeByte(t, c', buf[k]);
    }
  }

  /** The check value, eight bytes at a time and then one at a time. */
  method Crc32Bytes(t: array2<bv32>, crc: bv32, buf: seq<bv8>) returns (r: bv32)
    requires Tables(t)
    ensures r == Crc(crc, buf)
  {
    hide Tables, Register;
    Complement(crc);
    NoData(Not(crc), buf);
    var c := crc ^ 0xffff_ffff;
    var pos := 0;
    while |buf| - pos >= 8
      invariant pos <= |buf| && c == Register(Not(crc), buf[..pos])
    {
      c := TakeBytes(t, Not(crc), c, buf, pos, pos + 8);
      pos := pos + 8;
    }
    c := TakeBytes(t, Not(crc), c, buf, pos, |buf|);
    Complement(c);
    r := c ^ 0xffff_ffff;
  }

  /** DOLIT4 */
  method TakeLittle(t: array2<bv32>, ghost c0: bv32, c: bv32, buf: seq<bv8>, i: nat) returns (c': bv32)
    requires Tables(t) && i + 4 <= |buf| && c == Register(c0, buf[..i])
    ensures c' == Register(c0, buf[..i + 4])
  {
    hide Tables, Register, Steps, Xor, Byte, ByteAt, Little;
    TableSize(t);
    var x := Xor(c, Little(buf[i], buf[i + 1], buf[i + 2], buf[i + 3]));
    FourBytes(c0, buf, i);
    WordStep(x);
    EntryOf(t, 3, ByteAt(x, 0));
    EntryOf(t, 2, ByteAt(x, 1));
    EntryOf(t, 1, ByteAt(x, 2));
    EntryOf(t, 0, ByteAt(x, 3));
    c' := Xor(Xor(Xor(t[3, ByteAt(x, 0) as int], t[2, ByteAt(x, 1) as int]), t[1, ByteAt(x, 2) as int]),
      t[0, ByteAt(x, 3) as int]);
  }

  /** The check value where words have their lowest byte first: bytes up to a word boundary,
      eight words at a time, one word at a time, and the rest. */
  method Crc32Little(t: array2<bv32>, crc: bv32, buf: seq<bv8>, address: nat) returns (r: bv32)
    requires Tables(t)
    ensures r == Crc(crc, buf)
  {
    hide Tables, Register, Update;
    NoData(Not(crc), buf);
    var c := Not(crc);
    var pos := 0;
    while pos < |buf| && (address + pos) % 4 != 0
      invariant pos <= |buf| && c == Register(Not(crc), buf[..pos])
    {
      OneByte(Not(crc), buf, pos);
      c := TakeByte(t, c, buf[pos]);
      pos := pos + 1;
    }
    while |buf| - pos >= 32
      invariant pos <= |buf| && c == Register(Not(crc), buf[..pos])
    {
      for k := 0 to 8
        invariant c == Register(Not(crc), buf[..pos + 4 * k])
      {
        c := TakeLittle(t, Not(crc), c, buf, pos + 4 * k);
      }
      pos := pos + 32;
    }
    while |buf| - pos >= 4
      invariant pos <= |buf| && c == Register(Not(crc), buf[..pos])
    {
      c := TakeLittle(t, Not(crc), c, buf, pos);
      pos := pos + 4;
    }
    c := TakeBytes(t, Not(crc), c, buf, pos, |buf|);
    r := Not(c);
  }

  // Where words have their highest byte first the register is kept with its bytes swapped.

  lemma SwapXor(a: bv32, b: bv32)
    ensures Swap(Xor(a, b)) == Xor(Swap(a), Swap(b))
  {
  }

  lemma SwapNot(a: bv32)
    ensures Swap(Not(a)) == Not(Swap(a)) && Swap(Swap(a)) == a
  {
  }

  lemma SwapShift(c: bv32)
    ensures Swap(c >> 8) == Swap(c) << 8
  {
  }

  lemma SwapDown(c: bv32)
    ensures Swap(Down8(c)) == Up8(Swap(c))
  {
    hide Swap;
    SwapShift(c);
  }

  lemma SwapTop(c: bv32, b: bv8)
    ensures ByteAt(Xor(c, Byte(b)), 0) == ByteAt(Swap(c), 3) ^ b
  {
  }

  lemma SwapParts(x: bv32)
    ensures ByteAt(Swap(x), 0) == ByteAt(x, 3) && ByteAt(Swap(x), 1) == ByteAt(x, 2)
    ensures ByteAt(Swap(x), 2) == ByteAt(x, 1) && ByteAt(Swap(x), 3) == ByteAt(x, 0)
  {
  }

  lemma SwapWord(b0: bv8, b1: bv8, b2: bv8, b3: bv8)
    ensures Swap(Little(b0, b1, b2, b3)) == Big(b0, b1, b2, b3)
  {
    hide Swap, Xor, Raised;
    SwapRaised(b0, 0);
    SwapRaised(b1, 1);
    SwapRaised(b2, 2);
    SwapRaised(b3, 3);
    SwapXor(Xor(Raised(b0, 0), Raised(b1, 1)), Xor(Raised(b2, 2), Raised(b3, 3)));
    SwapXor(Raised(b0, 0), Raised(b1, 1));
    SwapXor(Raised(b2, 2), Raised(b3, 3));
  }

  lemma SwapRaised(b: bv8, k: nat)
    requires k < 4
    ensures Swap(Raised(b, k)) == Raised(b, 3 - k)
  {
    if k == 0 {
    } else if k == 1 {
    } else if k == 2 {
    } else {
    }
  }

  lemma LowIndex(x: bv32)
    ensures (x & 0xff) as bv8 == ByteAt(x, 0) && Byte(ByteAt(x, 0)) == x & 0xff
  {
  }

  method TakeByteBig(t: array2<bv32>, ghost c: bv32, d: bv32, b: bv8) returns (d': bv32)
    requires Tables(t) && d == Swap(c)
    ensures d' == Swap(Update(c, Byte(b)))
  {
    hide Steps, Xor, Down8, Up8, Byte, Tables, Swap, ByteAt;
    TableSize(t);
    SwapTop(c, b);
    LowIndex(Xor(c, Byte(b)));
    EntryOf(t, 0, ByteAt(d, 3) ^ b);
    SwapXor(Entry(Xor(c, Byte(b)) & 0xff), Down8(c));
    SwapDown(c);
    d' := Xor(t[4, (ByteAt(d, 3) ^ b) as int], Up8(d));
  }

  /** DOBIG4 */
  method TakeBig(t: array2<bv32>, ghost c0: bv32, d: bv32, buf: seq<bv8>, i: nat) returns (d': bv32)
    requires Tables(t) && i + 4 <= |buf| && d == Swap(Register(c0, buf[..i]))
    ensures d' == Swap(Register(c0, buf[..i + 4]))
  {
    hide Tables, Register, Steps, Xor, Byte, ByteAt, Little, Big, Swap;
    TableSize(t);
    ghost var c := Register(c0, buf[..i]);
    ghost var x := Xor(c, Little(buf[i], buf[i + 1], buf[i + 2], buf[i + 3]));
    var y := Xor(d, Big(buf[i], buf[i + 1], buf[i + 2], buf[i + 3]));
    SwapWord(buf[i], buf[i + 1], buf[i + 2], buf[i + 3]);
    SwapXor(c, Little(buf[i], buf[i + 1], buf[i + 2], buf[i + 3]));
    FourBytes(c0, buf, i);
    SwapParts(x);
    SwappedStep(x);
    EntryOf(t, 0, ByteAt(y, 0));
    EntryOf(t, 1, ByteAt(y, 1));
    EntryOf(t, 2, ByteAt(y, 2));
    EntryOf(t, 3, ByteAt(y, 3));
    d' := Xor(Xor(Xor(t[4, ByteAt(y, 0) as int], t[5, ByteAt(y, 1) as int]), t[6, ByteAt(y, 2) as int]),
      t[7, ByteAt(y, 3) as int]);
  }

  lemma SwappedStep(x: bv32)
    ensures Swap(Steps(x, 32)) == Xor(Xor(Xor(Swap(Steps(Byte(ByteAt(x, 3)), 8)), Swap(Steps(Byte(ByteAt(x, 2)), 16))),
                                          Swap(Steps(Byte(ByteAt(x, 1)), 24))), Swap(Steps(Byte(ByteAt(x, 0)), 32)))
  {
    hide Steps, Xor, Byte, ByteAt, Swap;
    WordStep(x);
    var s0, s1, s2, s3 := Steps(Byte(ByteAt(x, 0)), 32), Steps(Byte(ByteAt(x, 1)), 24), Steps(Byte(ByteAt(x, 2)), 16),
      Steps(Byte(ByteAt(x, 3)), 8);
    SwapXor(Xor(Xor(s0, s1), s2), s3);
    SwapXor(Xor(s0, s1), s2);
    SwapXor(s0, s1);
    XorBackwards(Swap(s0), Swap(s1), Swap(s2), Swap(s3));
  }

  lemma XorBackwards(a: bv32, b: bv32, c: bv32, d: bv32)
    ensures Xor(Xor(Xor(a, b), c), d) == Xor(Xor(Xor(d, c), b), a)
  {
    hide Xor;
    XorCommutes(Xor(Xor(a, b), c), d);
    XorCommutes(Xor(a, b), c);
    XorCommutes(a, b);
    XorAssociates(d, c, Xor(b, a));
    XorAssociates(Xor(d, c), b, a);
  }

  method Crc32Big(t: array2<bv32>, crc: bv32, buf: seq<bv8>, address: nat) returns (r: bv32)
    requires Tables(t)
    ensures r == Crc(crc, buf)
  {
    hide Tables, Register, Update, Swap;
    NoData(Not(crc), buf);
    var d := StartBig(crc);
    var pos := 0;
    while pos < |buf| && (address + pos) % 4 != 0
      invariant pos <= |buf| && d == Swap(Register(Not(crc), buf[..pos]))
    {
      OneByte(Not(crc), buf, pos);
      d := TakeByteBig(t, Register(Not(crc), buf[..pos]), d, buf[pos]);
      pos := pos + 1;
    }
    while |buf| - pos >= 32
      invariant pos <= |buf| && d == Swap(Register(Not(crc), buf[..pos]))
    {
      for k := 0 to 8
        invariant d == Swap(Register(Not(crc), buf[..pos + 4 * k]))
      {
        d := TakeBig(t, Not(crc), d, buf, pos + 4 * k);
      }
      pos := pos + 32;
    }
    while |buf| - pos >= 4
      invariant pos <= |buf| && d == Swap(Register(Not(crc), buf[..pos]))
    {
      d := TakeBig(t, Not(crc), d, buf, pos);
      pos := pos + 4;
    }
    d := TakeRestBig(t, Not(crc), d, buf, pos);
    r := FinishBig(Register(Not(crc), buf), d);
  }

  method TakeRestBig(t: array2<bv32>, ghost c0: bv32, d: bv32, buf: seq<bv8>, i: nat) returns (d': bv32)
    requires Tables(t) && i <= |buf| && d == Swap(Register(c0, buf[..i]))
    ensures d' == Swap(Register(c0, buf))
  {
    hide Tables, Register, Update, Swap;
    NoData(c0, buf);
    d' := d;
    for k := i to |buf|
      invariant d' == Swap(Register(c0, buf[..k]))
    {
      OneByte(c0, buf, k);
      d' := TakeByteBig(t, Register(c0, buf[..k]), d', buf[k]);
    }
  }

  method FinishBig(ghost c: bv32, d: bv32) returns (r: bv32)
    requires d == Swap(c)
    ensures r == Not(c)
  {
    hide Swap;
    SwapNot(c);
    SwapNot(Not(c));
    r := Swap(Not(d));
  }

  method StartBig(crc: bv32) returns (d: bv32)
    ensures d == Swap(Not(crc))
  {
    hide Swap;
    SwapNot(crc);
    d := Not(Swap(crc));
  }
}
