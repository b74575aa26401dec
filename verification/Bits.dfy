/** Sequences of bits, and the 32-bit buffers that writer and reader keep them in. */
module Bits {
  import opened CanonicalCodes
  import opened Words

  /** The bits of a sequence of bytes. */
  function BitsOf(bytes: seq<nat>): (w: seq<bool>)
    ensures |w| == 8 * |bytes|
  {
    if bytes == [] then [] else BitsOf(bytes[..|bytes| - 1]) + Word(bytes[|bytes| - 1], 8)
  }

  lemma BitsOfNext(bytes: seq<nat>, b: nat)
    ensures BitsOf(bytes + [b]) == BitsOf(bytes) + Word(b, 8)
  {
    assert (bytes + [b])[..|bytes|] == bytes;
  }

  lemma {:induction false} BitsOfConcat(a: seq<nat>, b: seq<nat>)
    ensures BitsOf(a + b) == BitsOf(a) + BitsOf(b)
  {
    hide Word;
    if b == [] {
      assert a + b == a;
    } else {
      hide BitsOf;
      var n := |b| - 1;
      assert b == b[..n] + [b[n]] && a + b == (a + b[..n]) + [b[n]];
      BitsOfNext(a + b[..n], b[n]);
      BitsOfNext(b[..n], b[n]);
      BitsOfConcat(a, b[..n]);
    }
  }

  /** The low n bits of a word have the value of the word modulo 2^n. */
  lemma {:induction false} ValueOfWord(v: nat, n: nat)
    ensures Value(Word(v, n)) == v % Pow2(n)
  {
    if n > 0 {
      ValueOfWord(v / 2, n - 1);
      assert Word(v, n)[..n - 1] == Word(v / 2, n - 1);
      HalvedModulo(v, Pow2(n - 1));
    }
  }

  lemma HalvedModulo(v: nat, p: nat)
    requires p > 0
    ensures v % (2 * p) == 2 * ((v / 2) % p) + v % 2
  {
    var q, r := (v / 2) / p, (v / 2) % p;
    assert v / 2 == q * p + r;
    assert v == q * (2 * p) + (2 * r + v % 2);
    Modulo(v, 2 * p, q, 2 * r + v % 2);
  }

  lemma Modulo(v: int, m: int, q: int, r: int)
    requires 0 <= r < m && v == q * m + r
    ensures v % m == r
  {
    var d := v / m - q;
    assert d * m == r - v % m;
    Multiple(d, m);
  }

  lemma Multiple(d: int, m: int)
    requires m > 0
    ensures d >= 1 ==> d * m >= m
    ensures d <= -1 ==> d * m <= -m
  {
  }

  lemma {:induction false} ValueFits(w: seq<bool>)
    ensures Value(w) < Pow2(|w|)
  {
    if w != [] { ValueFits(w[..|w| - 1]); }
  }

  /** Only the low n bits of a word matter to its low n bits. */
  lemma {:induction false} WordModulo(v: nat, n: nat, m: nat)
    requires n <= m
    ensures Word(v % Pow2(m), n) == Word(v, n)
  {
    if n > 0 {
      HalvedModulo(v, Pow2(m - 1));
      WordModulo(v / 2, n - 1, m - 1);
      assert v % Pow2(m) / 2 == (v / 2) % Pow2(m - 1);
    }
  }

  /** The last bits of a word. */
  lemma {:induction false} WordSuffix(v: nat, n: nat, k: nat)
    requires k <= n
    ensures Word(v, n)[n - k..] == Word(v, k)
  {
    if k > 0 {
      WordSuffix(v / 2, n - 1, k - 1);
      assert Word(v, n)[n - k..] == Word(v / 2, n - 1)[n - k..] + [v % 2 == 1];
    }
  }

  /** Appending k low bits. */
  lemma {:induction false} WordAppend(v: nat, n: nat, b: nat, k: nat)
    requires b < Pow2(k)
    ensures Word(v * Pow2(k) + b, n + k) == Word(v, n) + Word(b, k)
  {
    if k > 0 {
      var p := Pow2(k - 1);
      HalvedSum(v, p, b);
      WordAppend(v, n, b / 2, k - 1);
      WordLast(v * Pow2(k) + b, v * p + b / 2, b, n + k);
      WordLast(b, b / 2, b, k);
      assert Word(v, n) + (Word(b / 2, k - 1) + [b % 2 == 1]) == Word(v, n) + Word(b / 2, k - 1) + [b % 2 == 1];
    }
  }

  lemma WordLast(u: nat, half: nat, b: nat, n: nat)
    requires n > 0 && half == u / 2 && u % 2 == b % 2
    ensures Word(u, n) == Word(half, n - 1) + [b % 2 == 1]
  {
  }

  lemma HalvedSum(v: nat, p: nat, b: nat)
    requires b < 2 * p
    ensures b / 2 < p && (v * (2 * p) + b) / 2 == v * p + b / 2 && (v * (2 * p) + b) % 2 == b % 2
  {
    DoubledFactor(v, p);
    HalvedEven(v * p, b);
  }

  lemma DoubledFactor(v: nat, p: nat)
    ensures v * (2 * p) == 2 * (v * p)
  {
  }

  lemma HalvedEven(q: nat, b: nat)
    ensures (2 * q + b) / 2 == q + b / 2 && (2 * q + b) % 2 == b % 2
  {
  }

  function Zeros(n: nat): (w: seq<bool>)
    ensures |w| == n
  {
    seq(n, i => false)
  }

  lemma {:induction false} WordZeros(n: nat)
    ensures Word(0, n) == Zeros(n)
  {
    if n > 0 {
      WordZeros(n - 1);
      assert Zeros(n) == Zeros(n - 1) + [false];
    }
  }
}
