/** The bit table in which the fallback sort marks the first cell of every bucket. */
module HeaderBits {
  import opened Words

  ghost predicate Words32(bh: seq<nat>) {
    forall w :: 0 <= w < |bh| ==> bh[w] < 0x1_0000_0000
  }

  /** Bit z of the table. */
  predicate Header(bh: seq<nat>, z: nat)
    requires z / 32 < |bh|
  {
    Bit(bh[z / 32], z % 32)
  }

  lemma Pow32()
    ensures Pow2(32) == 0x1_0000_0000
  {
    assert Pow2(8) == 0x100;
    Pow2Add(8, 8);
    Pow2Add(16, 16);
  }

  method SetBH(bhtab: array<nat>, zz: nat)
    requires Words32(bhtab[..]) && zz / 32 < bhtab.Length
    modifies bhtab
    ensures Words32(bhtab[..])
    ensures forall z: nat :: z / 32 < bhtab.Length ==> (Header(bhtab[..], z) <==> z == zz || Header(old(bhtab[..]), z))
  {
    ghost var s := bhtab[..];
    var w, k := zz / 32, zz % 32;
    bhtab[w] := Or(bhtab[w], Pow2(k));
    Pow32();
    Pow2Less(k);
    OrBound(s[w], Pow2(k), 32);
    forall z: nat | z / 32 < bhtab.Length
      ensures Header(bhtab[..], z) <==> z == zz || Header(s, z)
    {
      if z / 32 == w {
        BitOr(s[w], Pow2(k), z % 32);
        BitPow2(k, z % 32);
      }
    }
  }

  method ClearBH(bhtab: array<nat>, zz: nat)
    requires Words32(bhtab[..]) && zz / 32 < bhtab.Length
    modifies bhtab
    ensures Words32(bhtab[..])
    ensures forall z: nat :: z / 32 < bhtab.Length ==> (Header(bhtab[..], z) <==> z != zz && Header(old(bhtab[..]), z))
  {
    ghost var s := bhtab[..];
    var w, k := zz / 32, zz % 32;
    bhtab[w] := AndNot(bhtab[w], Pow2(k));
    AndNotBound(s[w], Pow2(k));
    forall z: nat | z / 32 < bhtab.Length
      ensures Header(bhtab[..], z) <==> z != zz && Header(s, z)
    {
      if z / 32 == w {
        BitAndNot(s[w], Pow2(k), z % 32);
        BitPow2(k, z % 32);
      }
    }
  }

  lemma Pow2Less(k: nat)
    requires k < 32
    ensures Pow2(k) < Pow2(32)
  {
    Pow2Mono(k + 1, 32);
  }

  /** The bits of an all-ones word and of an all-zeros word. */
  lemma WholeWord(bh: seq<nat>, k: nat)
    requires k % 32 == 0 && k / 32 < |bh|
    ensures bh[k / 32] == 0xffff_ffff ==> forall z :: k <= z < k + 32 ==> Header(bh, z)
    ensures bh[k / 32] == 0 ==> forall z :: k <= z < k + 32 ==> !Header(bh, z)
  {
    Pow32();
    forall z | k <= z < k + 32
      ensures bh[k / 32] == 0xffff_ffff ==> Header(bh, z)
      ensures bh[k / 32] == 0 ==> !Header(bh, z)
    {
      assert z / 32 == k / 32;
      AllOnesBits(32, z % 32);
      BitZero(z % 32);
    }
  }

  /** The first clear bit from k0 on; there is one at c. */
  method NextClear(bhtab: array<nat>, k0: nat, ghost c: nat) returns (k: nat)
    requires c / 32 < bhtab.Length && k0 <= c && !Header(bhtab[..], c)
    ensures k0 <= k <= c && !Header(bhtab[..], k)
    ensures forall z :: k0 <= z < k ==> Header(bhtab[..], z)
  {
    hide Bit;
    k := k0;
    ghost var bh := bhtab[..];
    while Bit(bhtab[k / 32], k % 32) && k % 32 != 0
      invariant k0 <= k <= c
      invariant forall z :: k0 <= z < k ==> Header(bh, z)
      decreases c - k
    {
      assert Header(bh, k);
      k := k + 1;
    }
    if Bit(bhtab[k / 32], k % 32) {
      while bhtab[k / 32] == 0xffff_ffff
        invariant k0 <= k <= c && k % 32 == 0
        invariant forall z :: k0 <= z < k ==> Header(bh, z)
        decreases c - k
      {
        WholeWord(bh, k);
        k := k + 32;
      }
      while Bit(bhtab[k / 32], k % 32)
        invariant k0 <= k <= c
        invariant forall z :: k0 <= z < k ==> Header(bh, z)
        decreases c - k
      {
        assert Header(bh, k);
        k := k + 1;
      }
    }
  }

  /** The first set bit from k0 on; there is one at c. */
  method NextSet(bhtab: array<nat>, k0: nat, ghost c: nat) returns (k: nat)
    requires c / 32 < bhtab.Length && k0 <= c && Header(bhtab[..], c)
    ensures k0 <= k <= c && Header(bhtab[..], k)
    ensures forall z :: k0 <= z < k ==> !Header(bhtab[..], z)
  {
    hide Bit;
    k := k0;
    ghost var bh := bhtab[..];
    while !Bit(bhtab[k / 32], k % 32) && k % 32 != 0
      invariant k0 <= k <= c
      invariant forall z :: k0 <= z < k ==> !Header(bh, z)
      decreases c - k
    {
      assert !Header(bh, k);
      k := k + 1;
    }
    if !Bit(bhtab[k / 32], k % 32) {
      while bhtab[k / 32] == 0
        invariant k0 <= k <= c && k % 32 == 0
        invariant forall z :: k0 <= z < k ==> !Header(bh, z)
        decreases c - k
      {
        WholeWord(bh, k);
        k := k + 32;
      }
      while !Bit(bhtab[k / 32], k % 32)
        invariant k0 <= k <= c
        invariant forall z :: k0 <= z < k ==> !Header(bh, z)
        decreases c - k
      {
        assert !Header(bh, k);
        k := k + 1;
      }
    }
  }
}
