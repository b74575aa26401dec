/** Counters of bytes in two 32-bit halves. */
module Counters {
  const HALF: int := 0x1_0000_0000
  const WHOLE: int := 0x1_0000_0000_0000_0000

  /** A counter of 64 bits that stands at n. */
  ghost predicate Counts(lo: nat, hi: nat, n: nat) {
    lo < HALF && hi < HALF && hi * HALF + lo == n % WHOLE
  }

  lemma CountNone()
    ensures Counts(0, 0, 0)
  {
  }

  lemma CountWraps(n: nat, m: nat)
    requires m < HALF
    ensures (n + m) % WHOLE == if n % WHOLE + m < WHOLE then n % WHOLE + m else n % WHOLE + m - WHOLE
  {
  }

  /** Several more at once, with a carry when the low half gets less. */
  lemma CountMore(lo: nat, hi: nat, n: nat, m: nat)
    requires Counts(lo, hi, n) && m < HALF
    ensures var lo' := (lo + m) % HALF; Counts(lo', if lo' < lo then (hi + 1) % HALF else hi, n + m)
  {
    CountWraps(n, m);
    assert (lo + m) % HALF == if lo + m < HALF then lo + m else lo + m - HALF;
  }

  /** One more, with a carry when the low half comes round to 0. */
  lemma CountNext(lo: nat, hi: nat, n: nat)
    requires Counts(lo, hi, n)
    ensures var lo' := (lo + 1) % HALF; Counts(lo', if lo' == 0 then (hi + 1) % HALF else hi, n + 1)
  {
    CountMore(lo, hi, n, 1);
    assert (lo + 1) % HALF == if lo + 1 < HALF then lo + 1 else 0;
  }

  /** A counter of a stream. */
  class Counter {
    var lo: nat
    var hi: nat
    ghost var n: nat

    ghost predicate Valid()
      reads this
    {
      Counts(lo, hi, n)
    }

    constructor ()
      ensures Valid() && n == 0
    {
      lo, hi, n := 0, 0, 0;
      new;
      CountNone();
    }

    method Next()
      requires Valid()
      modifies this
      ensures Valid() && n == old(n) + 1
    {
      hide Counts;
      CountNext(lo, hi, n);
      lo := (lo + 1) % HALF;
      if lo == 0 { hi := (hi + 1) % HALF; }
      n := n + 1;
    }

    method Add(m: nat)
      requires Valid() && m < HALF
      modifies this
      ensures Valid() && n == old(n) + m
    {
      hide Counts;
      CountMore(lo, hi, n, m);
      var loOld := lo;
      lo := (lo + m) % HALF;
      if lo < loOld { hi := (hi + 1) % HALF; }
      n := n + m;
    }

    method AddEach(m: nat)
      requires Valid()
      modifies this
      ensures Valid() && n == old(n) + m
    {
      for i := 0 to m
        invariant Valid() && n == old(n) + i
      {
        Next();
      }
    }
  }
}
