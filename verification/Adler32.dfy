/** The Adler-32 check value of section 8.2 of RFC 1950, with the remainders put off. */
module Adler32 {

  const BASE: int := 65521
  const NMAX: int := 5552
  const WORD: int := 0x1_0000_0000

  /** The two sums, both below BASE in a check value. */
  datatype Sums = Sums(a: nat, b: nat)

  ghost predicate Bytes(data: seq<nat>) {
    forall i :: 0 <= i < |data| ==> data[i] < 256
  }

  /** By the definition, a remainder after each addition. */
  function Adler(s: Sums, data: seq<nat>): Sums {
    if data == [] then s
    else
      var t := Adler(s, data[..|data| - 1]);
      var a := (t.a + data[|data| - 1]) % BASE;
      Sums(a, (t.b + a) % BASE)
  }

  predicate Reduced(s: Sums) {
    s.a < BASE && s.b < BASE
  }

  function Pack(s: Sums): nat {
    s.a + 65536 * s.b
  }

  function Unpack(adler: nat): Sums {
    Sums(adler % 65536, adler / 65536 % 65536)
  }

  lemma PackUnpack(s: Sums)
    requires s.a < 65536 && s.b < 65536
    ensures Unpack(Pack(s)) == s && Pack(s) < WORD
  {
  }

  // The sums without remainders.

  function Raw(s: Sums, data: seq<nat>): Sums {
    if data == [] then s
    else
      var t := Raw(s, data[..|data| - 1]);
      Sums(t.a + data[|data| - 1], t.b + t.a + data[|data| - 1])
  }

  lemma ModAdd(x: int, y: int, z: int)
    requires x % BASE == y % BASE
    ensures (x + z) % BASE == (y + z) % BASE
  {
    var q := x / BASE - y / BASE;
    assert x - y == q * BASE;
    ModShift(y + z, q);
  }

  lemma ModShift(x: int, q: int)
    ensures (x + q * BASE) % BASE == x % BASE
  {
    var r := x % BASE;
    assert x + q * BASE == (x / BASE + q) * BASE + r;
    ModIs(x + q * BASE, x / BASE + q, r);
  }

  lemma ModIs(x: int, q: int, r: int)
    requires x == q * BASE + r && 0 <= r < BASE
    ensures x % BASE == r
  {
  }

  ghost predicate Same(s: Sums, t: Sums) {
    s.a % BASE == t.a % BASE && s.b % BASE == t.b % BASE
  }

  /** Putting the remainders off makes no difference to them. */
  lemma {:induction false} RawSame(s: Sums, t: Sums, data: seq<nat>)
    requires Same(s, t)
    ensures Same(Raw(s, data), Adler(t, data))
  {
    if data != [] {
      var n := |data| - 1;
      RawSame(s, t, data[..n]);
      SameNext(Raw(s, data[..n]), Adler(t, data[..n]), data[n]);
    }
  }

  lemma SameNext(s: Sums, t: Sums, d: nat)
    requires Same(s, t)
    ensures Same(Sums(s.a + d, s.b + s.a + d), Sums((t.a + d) % BASE, (t.b + (t.a + d) % BASE) % BASE))
  {
    var a := (t.a + d) % BASE;
    ModAdd(s.a, t.a, d);
    ModAdd(s.b, t.b, s.a + d);
    ModAdd(s.a + d, a, t.b);
  }

  lemma {:induction false} AdlerReduced(s: Sums, data: seq<nat>)
    requires Reduced(s)
    ensures Reduced(Adler(s, data))
  {
    if data != [] { AdlerReduced(s, data[..|data| - 1]); }
  }

  lemma {:induction false} RawConcat(s: Sums, x: seq<nat>, y: seq<nat>)
    ensures Raw(s, x + y) == Raw(Raw(s, x), y)
  {
    if y == [] {
      assert x + y == x;
    } else {
      var n := |y| - 1;
      assert (x + y)[..|x + y| - 1] == x + y[..n];
      RawConcat(s, x, y[..n]);
    }
  }

  lemma {:induction false} AdlerConcat(s: Sums, x: seq<nat>, y: seq<nat>)
    ensures Adler(s, x + y) == Adler(Adler(s, x), y)
  {
    if y == [] {
      assert x + y == x;
    } else {
      var n := |y| - 1;
      assert (x + y)[..|x + y| - 1] == x + y[..n];
      AdlerConcat(s, x, y[..n]);
    }
  }

  /** How large the sums can get in n bytes from reduced ones. */
  ghost predicate Within(s: Sums, n: nat) {
    s.a <= BASE - 1 + 255 * n && 2 * s.b <= 2 * (n + 1) * (BASE - 1) + 255 * n * (n + 1)
  }

  lemma WithinNext(s: Sums, n: nat, d: nat)
    requires Within(s, n) && d < 256
    ensures Within(Sums(s.a + d, s.b + s.a + d), n + 1)
  {
    var m := BASE - 1;
    assert 2 * (n + 2) * m == 2 * (n + 1) * m + 2 * m;
    assert 255 * (n + 1) * (n + 2) == 255 * n * (n + 1) + 255 * 2 * (n + 1);
  }

  lemma {:induction false} RawWithin(s: Sums, data: seq<nat>)
    requires Reduced(s) && Bytes(data)
    ensures Within(Raw(s, data), |data|)
  {
    if data != [] {
      var n := |data| - 1;
      RawWithin(s, data[..n]);
      WithinNext(Raw(s, data[..n]), n, data[n]);
    }
  }

  /** For up to NMAX bytes the sums fit a word. */
  lemma WithinWord(s: Sums, n: nat)
    requires Within(s, n) && n <= NMAX
    ensures s.a < WORD && s.b < WORD
  {
    Product(n, NMAX);
    assert 255 * n * (n + 1) == 255 * (n * (n + 1));
  }

  lemma Product(n: nat, m: nat)
    requires n <= m
    ensures n * (n + 1) <= m * (m + 1)
  {
    assert n * (n + 1) <= m * (n + 1) <= m * (m + 1);
  }

  // Remainders without division.

  /** (a & 0xffff) + (tmp << 4) - tmp, where tmp is a >> 16 */
  function Chop(a: nat): nat {
    a % 65536 + 15 * (a / 65536)
  }

  lemma ChopSame(a: nat)
    ensures Chop(a) % BASE == a % BASE
  {
    var q := a / 65536;
    assert a == Chop(a) + q * BASE;
    ModShift(Chop(a), q);
  }

  function Mod28(a: nat): nat {
    var c := Chop(a);
    if c >= BASE then c - BASE else c
  }

  /** Right exactly while one subtraction suffices after chopping, as it does below 2^28. */
  lemma Mod28Is(a: nat)
    ensures Chop(a) < 2 * BASE <==> Mod28(a) == a % BASE
    ensures a < 0x1000_0000 ==> Mod28(a) == a % BASE
  {
    ChopSame(a);
    SmallMod(Chop(a));
  }

  lemma SmallMod(c: nat)
    ensures (if c >= BASE then c - BASE else c) == c % BASE <==> c < 2 * BASE
  {
  }

  function Mod(a: nat): nat {
    Mod28(Chop(a))
  }

  lemma ModReduces(a: nat)
    requires a < WORD
    ensures Mod(a) == a % BASE
  {
    ChopSame(a);
    Mod28Is(Chop(a));
  }

  /** For a length of up to 63 bits. */
  function Mod63(a: nat): nat {
    var c := a % WORD + 225 * (a / WORD);
    var d := Chop(Chop(c));
    if d >= BASE then d - BASE else d
  }

  lemma Mod63Is(a: nat)
    requires a < 0x8000_0000_0000_0000
    ensures Mod63(a) == a % BASE
  {
    var q := a / WORD;
    var c := a % WORD + 225 * q;
    assert a == c + (q * 65551) * BASE;
    ModShift(c, q * 65551);
    ChopSame(c);
    ChopSame(Chop(c));
    assert q < 0x8000_0000;
    assert c < 500_000_000_000;
    assert Chop(c) < 120_000_000;
    SmallMod(Chop(Chop(c)));
  }

  // The loops.

  /** Addition of 32-bit words. */
  function Plus(x: nat, y: nat): nat {
    (x + y) % WORD
  }

  lemma SliceNext(buf: seq<nat>, k: nat, i: nat)
    requires k <= i < |buf|
    ensures buf[k..i + 1] == buf[k..i] + [buf[i]] && buf[k..i + 1][..|buf[k..i + 1]| - 1] == buf[k..i]
  {
  }

  lemma RawNext(s: Sums, buf: seq<nat>, k: nat, i: nat)
    requires k <= i < |buf| && Reduced(s) && Bytes(buf) && i < k + NMAX
    ensures var t := Raw(s, buf[k..i]);
      Raw(s, buf[k..i + 1]) == Sums(Plus(t.a, buf[i]), Plus(t.b, Plus(t.a, buf[i])))
  {
    hide Within, Bytes, Raw, Reduced;
    SliceNext(buf, k, i);
    BlockBytes(buf, k, i + 1);
    RawWithin(s, buf[k..i + 1]);
    WithinWord(Raw(s, buf[k..i + 1]), i + 1 - k);
    RawLast(s, buf[k..i], buf[i]);
  }

  lemma RawLast(s: Sums, data: seq<nat>, d: nat)
    ensures Raw(s, data + [d]) == Sums(Raw(s, data).a + d, Raw(s, data).b + Raw(s, data).a + d)
  {
    assert (data + [d])[..|data|] == data;
  }

  /** DO1 for each byte from i to j; the block started at k from the sums s. */
  method DoBytes(ghost s: Sums, t: Sums, buf: seq<nat>, ghost k: nat, i: nat, j: nat) returns (t': Sums)
    requires Reduced(s) && Bytes(buf) && k <= i <= j <= |buf| && j <= k + NMAX && t == Raw(s, buf[k..i])
    ensures t' == Raw(s, buf[k..j])
  {
    hide Raw, Reduced, Bytes, Plus;
    t' := t;
    for n := i to j
      invariant t' == Raw(s, buf[k..n])
    {
      RawNext(s, buf, k, n);
      var a := Plus(t'.a, buf[n]);
      t' := Sums(a, Plus(t'.b, a));
    }
  }

  lemma RawNone(s: Sums, buf: seq<nat>, k: nat)
    requires k <= |buf|
    ensures Raw(s, buf[k..k]) == s
  {
  }

  /** MOD */
  method Reduce(t: Sums, noDivide: bool) returns (r: Sums)
    requires t.a < WORD && t.b < WORD
    ensures r == Sums(t.a % BASE, t.b % BASE)
  {
    if noDivide {
      ModReduces(t.a);
      ModReduces(t.b);
      r := Sums(Mod(t.a), Mod(t.b));
    } else {
      r := Sums(t.a % BASE, t.b % BASE);
    }
  }

  /** After a block that has been reduced the sums are those of the definition. */
  lemma BlockDone(s0: Sums, buf: seq<nat>, k: nat, j: nat)
    requires k <= j <= |buf| && j <= k + NMAX && Reduced(Adler(s0, buf[..k])) && Bytes(buf)
    ensures var t := Raw(Adler(s0, buf[..k]), buf[k..j]);
      t.a < WORD && t.b < WORD && Sums(t.a % BASE, t.b % BASE) == Adler(s0, buf[..j]) && Reduced(Adler(s0, buf[..j]))
  {
    hide Adler, Raw, Within, Bytes;
    var s := Adler(s0, buf[..k]);
    BlockBytes(buf, k, j);
    RawWithin(s, buf[k..j]);
    WithinWord(Raw(s, buf[k..j]), j - k);
    RawSame(s, s, buf[k..j]);
    AdlerReduced(s, buf[k..j]);
    assert buf[..j] == buf[..k] + buf[k..j];
    AdlerConcat(s0, buf[..k], buf[k..j]);
    ReducedMod(Adler(s, buf[k..j]));
  }

  lemma BlockBytes(buf: seq<nat>, k: nat, j: nat)
    requires Bytes(buf) && k <= j <= |buf|
    ensures Bytes(buf[k..j])
  {
  }

  lemma ReducedMod(s: Sums)
    requires Reduced(s)
    ensures s.a % BASE == s.a && s.b % BASE == s.b
  {
  }

  lemma NoBytes(s: Sums, buf: seq<nat>)
    ensures Adler(s, buf[..0]) == s && buf[..|buf|] == buf
  {
  }

  /** One byte. */
  method Adler32One(s: Sums, d: nat) returns (r: Sums)
    requires Reduced(s) && d < 256
    ensures r == Adler(s, [d])
  {
    assert [d][..0] == [];
    var a := s.a + d;
    if a >= BASE { a := a - BASE; }
    var b := s.b + a;
    if b >= BASE { b := b - BASE; }
    r := Sums(a, b);
  }

  /** Up to 15 bytes: one subtraction for the first sum, a short remainder for the second. */
  method Adler32Short(s: Sums, buf: seq<nat>, noDivide: bool) returns (r: Sums)
    requires Reduced(s) && Bytes(buf) && |buf| < 16
    ensures r == Adler(s, buf)
  {
    hide Raw, Adler, Bytes, Reduced;
    RawNone(s, buf, 0);
    NoBytes(s, buf);
    BlockDone(s, buf, 0, |buf|);
    assert buf[0..|buf|] == buf;
    var t := DoBytes(s, s, buf, 0, 0, |buf|);
    ShortSums(s, buf);
    var a := if t.a >= BASE then t.a - BASE else t.a;
    SmallMod(t.a);
    Mod28Is(t.b);
    r := Sums(a, if noDivide then Mod28(t.b) else t.b % BASE);
  }

  lemma ShortSums(s: Sums, buf: seq<nat>)
    requires Reduced(s) && Bytes(buf) && |buf| < 16
    ensures Raw(s, buf).a < 2 * BASE && Raw(s, buf).b < 0x1000_0000
  {
    hide Raw, Bytes;
    RawWithin(s, buf);
    Product(|buf|, 15);
    assert 255 * |buf| * (|buf| + 1) == 255 * (|buf| * (|buf| + 1));
  }

  /** The check value: blocks of NMAX bytes with one remainder each, and the rest. */
  method Adler32(adler: nat, buf: seq<nat>, noDivide: bool) returns (r: nat)
    requires adler < WORD && Reduced(Unpack(adler)) && Bytes(buf)
    ensures r == Pack(Adler(Unpack(adler), buf)) && r < WORD && Reduced(Unpack(r))
  {
    hide Raw, Adler, Bytes, Reduced;
    var s := Unpack(adler);
    AdlerReduced(s, buf);
    PackReduced(Adler(s, buf));
    NoBytes(s, buf);
    if |buf| == 1 {
      FirstByte(buf);
      var t := Adler32One(s, buf[0]);
      return Pack(t);
    }
    if |buf| < 16 {
      var t := Adler32Short(s, buf, noDivide);
      return Pack(t);
    }
    var t, pos := s, 0;
    while |buf| - pos >= NMAX
      invariant pos <= |buf| && t == Adler(s, buf[..pos]) && Reduced(t)
    {
      t := AddBlock(s, t, buf, pos, noDivide);
      pos := pos + NMAX;
    }
    if pos < |buf| { t := AddRest(s, t, buf, pos, noDivide); }
    r := Pack(t);
  }

  /** NMAX more bytes, sixteen at a time, and one remainder. */
  method AddBlock(ghost s: Sums, t: Sums, buf: seq<nat>, pos: nat, noDivide: bool) returns (t': Sums)
    requires Bytes(buf) && pos + NMAX <= |buf| && t == Adler(s, buf[..pos]) && Reduced(t)
    ensures t' == Adler(s, buf[..pos + NMAX]) && Reduced(t')
  {
    hide Raw, Adler, Bytes, Reduced;
    RawNone(t, buf, pos);
    BlockDone(s, buf, pos, pos + NMAX);
    var u := t;
    for n := 0 to NMAX / 16
      invariant u == Raw(t, buf[pos..pos + 16 * n])
    {
      u := DoBytes(t, u, buf, pos, pos + 16 * n, pos + 16 * n + 16);
    }
    t' := Reduce(u, noDivide);
  }

  /** The rest, sixteen at a time and then one at a time, and one remainder. */
  method AddRest(ghost s: Sums, t: Sums, buf: seq<nat>, pos: nat, noDivide: bool) returns (t': Sums)
    requires Bytes(buf) && pos < |buf| < pos + NMAX && t == Adler(s, buf[..pos]) && Reduced(t)
    ensures t' == Adler(s, buf) && Reduced(t')
  {
    hide Raw, Adler, Bytes, Reduced;
    RawNone(t, buf, pos);
    BlockDone(s, buf, pos, |buf|);
    NoBytes(s, buf);
    var n := (|buf| - pos) / 16 * 16;
    Sixteens(|buf| - pos);
    var u := DoBytes(t, t, buf, pos, pos, pos + n);
    u := DoBytes(t, u, buf, pos, pos + n, |buf|);
    t' := Reduce(u, noDivide);
  }

  lemma Sixteens(n: nat)
    ensures 0 <= n / 16 * 16 <= n
  {
  }

  lemma PackReduced(s: Sums)
    requires Reduced(s)
    ensures Unpack(Pack(s)) == s && Pack(s) < WORD
  {
    PackUnpack(s);
  }

  lemma FirstByte(buf: seq<nat>)
    requires Bytes(buf) && |buf| == 1
    ensures buf == [buf[0]] && buf[0] < 256
  {
  }

  // Combining.

  /** What the sums of a piece of data add to the sums before it. */
  lemma {:induction false} RawShift(s: Sums, data: seq<nat>)
    ensures Raw(s, data).a == Raw(Sums(1, 0), data).a + s.a - 1
    ensures Raw(s, data).b == Raw(Sums(1, 0), data).b + s.b + |data| * s.a - |data|
  {
    if data != [] {
      var n := |data| - 1;
      RawShift(s, data[..n]);
      assert |data| * s.a == n * s.a + s.a;
    }
  }

  /** A length may be replaced by its remainder. */
  lemma LengthMod(n: nat, x: int, a: int)
    ensures (x + n * a - n) % BASE == (x + (n % BASE) * a - n % BASE) % BASE
  {
    var q, rem := n / BASE, n % BASE;
    var y := x + rem * a - rem;
    Spread(q, rem, a);
    ModShift(y, q * a - q);
  }

  lemma Spread(q: int, rem: int, a: int)
    ensures (q * BASE + rem) * a - (q * BASE + rem) == rem * a - rem + (q * a - q) * BASE
  {
  }

  /** The check value of a concatenation, from those of its parts. */
  lemma AdlerShift(s: Sums, data: seq<nat>)
    ensures var t, rem := Adler(Sums(1, 0), data), |data| % BASE;
      && Adler(s, data).a % BASE == (t.a + (s.a - 1)) % BASE
      && Adler(s, data).b % BASE == (t.b + (s.b + rem * s.a - rem)) % BASE
  {
    hide Raw, Adler;
    var v, t, n := Raw(Sums(1, 0), data), Adler(Sums(1, 0), data), |data|;
    RawSame(s, s, data);
    RawSame(Sums(1, 0), Sums(1, 0), data);
    RawShift(s, data);
    ModAdd(v.a, t.a, s.a - 1);
    LengthMod(n, v.b + s.b, s.a);
    ModAdd(v.b, t.b, s.b + (n % BASE) * s.a - n % BASE);
  }

  /** Two subtractions at most. */
  method SubtractTwice(full: nat) returns (r: nat)
    requires full < 3 * BASE
    ensures r == full % BASE
  {
    r := full;
    if r >= BASE { r := r - BASE; }
    if r >= BASE { r := r - BASE; }
  }

  method SubtractThrice(full: nat) returns (r: nat)
    requires full < 4 * BASE
    ensures r == full % BASE
  {
    r := full;
    if r >= 2 * BASE { r := r - 2 * BASE; }
    if r >= BASE { r := r - BASE; }
  }

  /** The check value of two pieces of data one after the other, from those of both. */
  method Adler32Combine(adler1: nat, adler2: nat, len2: int, noDivide: bool) returns (r: nat)
    requires adler1 < WORD && adler2 < WORD && Reduced(Unpack(adler1)) && Reduced(Unpack(adler2))
    requires len2 < 0x8000_0000_0000_0000
    ensures len2 < 0 ==> r == 0xffff_ffff
    ensures forall data: seq<nat> :: |data| == len2 && Unpack(adler2) == Adler(Sums(1, 0), data) ==>
      r == Pack(Adler(Unpack(adler1), data))
  {
    hide Adler, Unpack, Mod, Mod63;
    if len2 < 0 { return 0xffff_ffff; }
    Mod63Is(len2);
    var rem := if noDivide then Mod63(len2) else len2 % BASE;
    var s, t := Unpack(adler1), Unpack(adler2);
    RemTimes(rem, s.a);
    ModReduces(rem * s.a);
    var product := if noDivide then Mod(rem * s.a) else rem * s.a % BASE;
    var sum1 := SubtractTwice(s.a + t.a + BASE - 1);
    var sum2 := SubtractThrice(product + s.b + t.b + BASE - rem);
    r := sum1 + 65536 * sum2;
    forall data: seq<nat> | |data| == len2 && t == Adler(Sums(1, 0), data) ensures r == Pack(Adler(s, data)) {
      CombinedSums(s, t, data, product);
    }
  }

  lemma RemTimes(rem: nat, a: nat)
    requires rem < BASE && a < BASE
    ensures 0 <= rem * a < WORD
  {
    TimesMono(rem, a, BASE - 1);
    TimesMono(BASE - 1, rem, BASE - 1);
  }

  lemma TimesMono(x: nat, y: nat, z: nat)
    requires y <= z
    ensures 0 <= x * y <= x * z
  {
  }

  lemma CombinedSums(s: Sums, t: Sums, data: seq<nat>, product: int)
    requires Reduced(s) && Reduced(t) && t == Adler(Sums(1, 0), data) && product == (|data| % BASE) * s.a % BASE
    ensures (s.a + t.a + BASE - 1) % BASE + 65536 * ((product + s.b + t.b + BASE - |data| % BASE) % BASE) ==
      Pack(Adler(s, data))
  {
    hide Adler;
    AdlerShift(s, data);
    AdlerReduced(s, data);
    ReducedMod(Adler(s, data));
    var rem := |data| % BASE;
    ModShift(t.a + (s.a - 1), 1);
    Product1(rem * s.a, product, s.b + t.b - rem);
    assert t.b + (s.b + rem * s.a - rem) == rem * s.a + (s.b + t.b - rem);
  }

  lemma Product1(x: int, product: int, z: int)
    requires product == x % BASE
    ensures (product + z + BASE) % BASE == (x + z) % BASE
  {
    ModAdd(product, x, z);
    ModShift(product + z, 1);
  }
}
