/** The numbering of the byte values that occur in a block, on both sides. */
module SymbolMaps {

  /** The byte values in use, in order. */
  function Chars(inUse: seq<bool>): (cs: seq<int>)
    ensures |cs| <= |inUse|
  {
    if inUse == [] then []
    else Chars(inUse[..|inUse| - 1]) + if inUse[|inUse| - 1] then [|inUse| - 1] else []
  }

  /** How many byte values below c are in use: the number of c among those in use. */
  function Number(inUse: seq<bool>, c: int): nat
    requires 0 <= c <= |inUse|
  {
    |Chars(inUse[..c])|
  }

  lemma CharsNext(inUse: seq<bool>, c: int)
    requires 0 <= c < |inUse|
    ensures Chars(inUse[..c + 1]) == Chars(inUse[..c]) + if inUse[c] then [c] else []
  {
    assert inUse[..c + 1][..c] == inUse[..c];
  }

  lemma {:induction false} CharsPrefix(inUse: seq<bool>, c: int, d: int)
    requires 0 <= c <= d <= |inUse|
    ensures Chars(inUse[..c]) <= Chars(inUse[..d])
  {
    if c < d {
      CharsPrefix(inUse, c, d - 1);
      CharsNext(inUse, d - 1);
    }
  }

  /** Numbering and listing are inverse on the values in use. */
  lemma CharNumbered(inUse: seq<bool>, c: int)
    requires 0 <= c < |inUse| && inUse[c]
    ensures Number(inUse, c) < |Chars(inUse)| && Chars(inUse)[Number(inUse, c)] == c
  {
    CharsNext(inUse, c);
    CharsPrefix(inUse, c + 1, |inUse|);
    assert inUse[..|inUse|] == inUse;
  }

  /** Every listed value is a byte value in use. */
  lemma {:induction false} CharInUse(inUse: seq<bool>, k: int)
    requires 0 <= k < |Chars(inUse)|
    ensures 0 <= Chars(inUse)[k] < |inUse| && inUse[Chars(inUse)[k]]
  {
    var n := |inUse| - 1;
    if k < |Chars(inUse[..n])| { CharInUse(inUse[..n], k); }
  }

  /** The compressor's map. */
  method MakeMapsE(inUse: array<bool>, unseqToSeq: array<int>) returns (nInUse: int)
    requires inUse.Length == unseqToSeq.Length == 256
    modifies unseqToSeq
    ensures nInUse == |Chars(inUse[..])|
    ensures forall c :: 0 <= c < 256 && inUse[c] ==> unseqToSeq[c] == Number(inUse[..], c)
  {
    nInUse := 0;
    for i := 0 to 256
      invariant nInUse == |Chars(inUse[..i])|
      invariant forall c :: 0 <= c < i && inUse[c] ==> unseqToSeq[c] == Number(inUse[..], c)
    {
      CharsNext(inUse[..], i);
      assert inUse[..][..i] == inUse[..i] && inUse[..][..i + 1] == inUse[..i + 1];
      if inUse[i] {
        unseqToSeq[i] := nInUse;
        nInUse := nInUse + 1;
      }
    }
    assert inUse[..256] == inUse[..];
  }

  /** The decompressor's map. */
  method MakeMapsD(inUse: array<bool>, seqToUnseq: array<int>) returns (nInUse: int)
    requires inUse.Length == seqToUnseq.Length == 256
    modifies seqToUnseq
    ensures nInUse == |Chars(inUse[..])| && seqToUnseq[..nInUse] == Chars(inUse[..])
  {
    nInUse := 0;
    for i := 0 to 256
      invariant nInUse == |Chars(inUse[..i])| && nInUse <= i && seqToUnseq[..nInUse] == Chars(inUse[..i])
    {
      CharsNext(inUse[..], i);
      assert inUse[..][..i] == inUse[..i] && inUse[..][..i + 1] == inUse[..i + 1];
      if inUse[i] {
        seqToUnseq[nInUse] := i;
        nInUse := nInUse + 1;
      }
    }
    assert inUse[..256] == inUse[..];
  }
}
