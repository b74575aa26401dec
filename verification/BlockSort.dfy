/** Sorting the block: the main sort, or the fallback sort for short and for repetitive blocks. */
module BlockSort {
  import opened Counting
  import opened FallbackSort
  import opened HeaderBits
  import opened MainCompare
  import opened MainSort
  import opened Rotations
  import opened Sequences

  /** Sort the rotations and find the original block among them. */
  method BlockSort(ptr: array<int>, block: array<int>, eclass: array<int>, quadrant: array<int>,
                   ftab: array<int>, bhtab: array<nat>, nblock: nat, workFactor: int)
    returns (origPtr: int)
    requires 0 < nblock <= 900000 && nblock <= ptr.Length && nblock <= eclass.Length
    requires nblock + N_OVERSHOOT <= block.Length && nblock + N_OVERSHOOT <= quadrant.Length
    requires ptr != block && ptr != eclass && block != eclass && ptr != quadrant && block != quadrant
    requires ptr != ftab && block != ftab && quadrant != ftab
    requires ftab.Length == 65537 && bhtab.Length == 65537 && Words32(bhtab[..]) && Bytes(block[..nblock])
    modifies ptr, block, eclass, quadrant, ftab, bhtab
    ensures block[..nblock] == old(block[..nblock])
    ensures IsSorted(block[..nblock], ptr[..])
    ensures 0 <= origPtr < nblock && ptr[origPtr] == 0
  {
    hide IsSorted;
    ghost var b := block[..nblock];
    if nblock < 10000 {
      FallbackSort.FallbackSort(ptr, eclass, block, bhtab, nblock);
    } else {
      var wfact := if workFactor < 1 then 1 else if workFactor > 100 then 100 else workFactor;
      var budgetInit := nblock * ((wfact - 1) / 3);
      ghost var bh := bhtab[..];
      var budget := MainSort.MainSort(ptr, block, quadrant, ftab, nblock, budgetInit);
      assert bhtab[..] == bh;
      if budget < 0 {
        FallbackSort.FallbackSort(ptr, eclass, block, bhtab, nblock);
      }
    }
    origPtr := FindOriginal(ptr, nblock, b);
  }

  method FindOriginal(ptr: array<int>, nblock: nat, ghost b: seq<int>) returns (origPtr: int)
    requires 0 < nblock == |b| && IsSorted(b, ptr[..])
    ensures 0 <= origPtr < nblock && ptr[origPtr] == 0
  {
    ghost var z := Surjective(ptr[..], nblock, 0);
    origPtr := -1;
    for i := 0 to nblock
      invariant forall k :: 0 <= k < i ==> ptr[k] != 0
    {
      if ptr[i] == 0 { return i; }
    }
    assert false;
  }
}
