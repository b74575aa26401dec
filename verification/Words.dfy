/** Machine words as natural numbers, with the bit operations the C code uses on them.

    The operations are defined digit by digit, so their laws are proved by halving
    both operands.
 */
module Words {

  function Pow2(k: nat): (p: nat)
    ensures p > 0
  {
    if k == 0 then 1 else 2 * Pow2(k - 1)
  }

  /** The value of bit k of w. */
  predicate Bit(w: nat, k: nat) {
    if k == 0 then w % 2 == 1 else Bit(w / 2, k - 1)
  }

  /** a | b */
  function Or(a: nat, b: nat): nat {
    if a == 0 && b == 0 then 0
    else 2 * Or(a / 2, b / 2) + (if a % 2 == 1 || b % 2 == 1 then 1 else 0)
  }

  /** a & ~b */
  function AndNot(a: nat, b: nat): nat {
    if a == 0 then 0
    else 2 * AndNot(a / 2, b / 2) + (if a % 2 == 1 && b % 2 == 0 then 1 else 0)
  }

  lemma {:induction false} BitPow2(k: nat, j: nat)
    ensures Bit(Pow2(k), j) <==> j == k
  {
    if k == 0 {
      if j > 0 { BitZero(j - 1); }
    } else if j > 0 {
      BitPow2(k - 1, j - 1);
    }
  }

  lemma {:induction false} BitZero(j: nat)
    ensures !Bit(0, j)
  {
    if j > 0 { BitZero(j - 1); }
  }

  lemma {:induction false} BitOr(a: nat, b: nat, j: nat)
    ensures Bit(Or(a, b), j) <==> Bit(a, j) || Bit(b, j)
  {
    if a == 0 && b == 0 {
      BitZero(j);
    } else if j > 0 {
      BitOr(a / 2, b / 2, j - 1);
    }
  }

  lemma {:induction false} BitAndNot(a: nat, b: nat, j: nat)
    ensures Bit(AndNot(a, b), j) <==> Bit(a, j) && !Bit(b, j)
  {
    if a == 0 {
      BitZero(j);
    } else if j > 0 {
      BitAndNot(a / 2, b / 2, j - 1);
    }
  }

  lemma {:induction false} OrBound(a: nat, b: nat, k: nat)
    requires a < Pow2(k) && b < Pow2(k)
    ensures Or(a, b) < Pow2(k)
  {
    if k > 0 { OrBound(a / 2, b / 2, k - 1); }
  }

  lemma {:induction false} AndNotBound(a: nat, b: nat)
    ensures AndNot(a, b) <= a
  {
    if a > 0 { AndNotBound(a / 2, b / 2); }
  }

  /** Oring in bits below all set bits of a word is an addition. */
  lemma {:induction false} OrIsSum(q: nat, b: nat, k: nat)
    requires b < Pow2(k)
    ensures Or(q * Pow2(k), b) == q * Pow2(k) + b
  {
    if k == 0 {
      OrZero(q);
    } else {
      var p := Pow2(k - 1);
      assert q * (2 * p) == 2 * (q * p);
      OrIsSum(q, b / 2, k - 1);
    }
  }

  lemma {:induction false} OrCommutes(a: nat, b: nat)
    ensures Or(a, b) == Or(b, a)
  {
    if a > 0 || b > 0 { OrCommutes(a / 2, b / 2); }
  }

  /** A value put above a byte. */
  lemma OrAboveByte(c: nat, v: nat)
    requires c < 256
    ensures Or(c, v * 256) == c + v * 256
  {
    assert Pow2(4) == 16;
    Pow2Add(4, 4);
    OrCommutes(c, v * 256);
    OrIsSum(v, c, 8);
  }

  lemma {:induction false} OrZero(a: nat)
    ensures Or(a, 0) == a
  {
    if a > 0 { OrZero(a / 2); }
  }

  lemma {:induction false} Pow2Add(j: nat, k: nat)
    ensures Pow2(j + k) == Pow2(j) * Pow2(k)
  {
    if j > 0 { Pow2Add(j - 1, k); }
  }

  lemma {:induction false} Pow2Mono(j: nat, k: nat)
    requires j <= k
    ensures Pow2(j) <= Pow2(k)
  {
    if j < k { Pow2Mono(j, k - 1); }
  }

  /** A word below 2^k whose low k bits are all set is the all-ones word. */
  lemma {:induction false} AllOnes(w: nat, k: nat)
    requires w < Pow2(k)
    requires forall j :: 0 <= j < k ==> Bit(w, j)
    ensures w == Pow2(k) - 1
  {
    if k > 0 {
      forall j | 0 <= j < k - 1 ensures Bit(w / 2, j) { assert Bit(w, j + 1); }
      AllOnes(w / 2, k - 1);
      assert Bit(w, 0);
    }
  }

  lemma {:induction false} AllOnesBits(k: nat, j: nat)
    requires j < k
    ensures Bit(Pow2(k) - 1, j)
  {
    if j > 0 { AllOnesBits(k - 1, j - 1); }
  }
}
