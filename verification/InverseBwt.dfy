/** Undoing the Burrows-Wheeler transform.

    From the last column alone: element k of the column, moved to where a stable sort of
    the column puts it, is the first character of its row. Following these links backwards
    from the row of the original block spells the block.
 */
module InverseBwt {
  import opened Counting
  import opened Rotations
  import opened Sequences
  import Words

  /** The links: `t` takes the cell of an element in the sorted column back to its place in the column. */
  ghost predicate Links(l: seq<int>, t: seq<int>) {
    && IsPermutation(t, |l|) && |t| == |l|
    && (forall k :: 0 <= k < |l| ==> StableCell(l, t[k]) == k)
  }

  lemma LinksFrom(l: seq<int>, t: seq<int>)
    requires |t| == |l| && forall i :: 0 <= i < |l| ==> t[StableCell(l, i)] == i
    ensures Links(l, t)
  {
    var n := |l|;
    var p := seq(n, i requires 0 <= i < n => StableCell(l, i));
    forall i, j | 0 <= i < j < n ensures p[i] != p[j] { CellsDistinct(l, i, j); }
    InversePermutation(p, t, n);
    forall k | 0 <= k < n ensures StableCell(l, t[k]) == k { assert p[t[k]] == k; }
  }

  /** The m characters read by following the links from cell pos. */
  function Spell(l: seq<int>, t: seq<int>, pos: int, m: nat): (r: seq<int>)
    requires |t| == |l| && (forall k :: 0 <= k < |t| ==> 0 <= t[k] < |l|) && 0 <= pos < |l|
    ensures |r| == m
    decreases m
  {
    if m == 0 then [] else [l[t[pos]]] + Spell(l, t, t[pos], m - 1)
  }

  /** The rows in the order in which the links list them. */
  ghost function Relinked(b: seq<int>, p: seq<int>, t: seq<int>): (q: seq<int>)
    requires |b| > 0 && IsPermutation(p, |b|) && |t| == |b| && forall k :: 0 <= k < |t| ==> 0 <= t[k] < |b|
    ensures |q| == |b|
  {
    seq(|b|, k requires 0 <= k < |b| => if p[t[k]] == 0 then |b| - 1 else p[t[k]] - 1)
  }

  /** Moving every row back by one character and sorting stably on the character gained
      sorts the rows again, ties or no ties. */
  lemma RelinkedSorted(b: seq<int>, p: seq<int>, t: seq<int>)
    requires |b| > 0 && IsSorted(b, p) && Links(LastColumn(b, p), t)
    ensures IsSorted(b, Relinked(b, p, t))
  {
    var n, q := |b|, Relinked(b, p, t);
    forall j, k | 0 <= j < k < n ensures q[j] != q[k] && Le(b, q[j], q[k]) {
      RelinkedPair(b, p, t, j, k);
    }
  }

  lemma RelinkedPair(b: seq<int>, p: seq<int>, t: seq<int>, j: nat, k: nat)
    requires |b| > 0 && IsSorted(b, p) && Links(LastColumn(b, p), t) && j < k < |b|
    ensures Relinked(b, p, t)[j] != Relinked(b, p, t)[k]
    ensures Le(b, Relinked(b, p, t)[j], Relinked(b, p, t)[k])
  {
    var n, l, q := |b|, LastColumn(b, p), Relinked(b, p, t);
    var x, y := t[j], t[k];
    assert p[x] != p[y];
    assert b[q[j]] == l[x] && b[q[k]] == l[y];
    LinkOrder(l, t, j, k);
    hide Links, StableCell;
    if l[x] == l[y] {
      CmpWrapped(b, q[j] + 1, q[k] + 1, n);
      assert Wrap(q[j] + 1, n) == p[x] && Wrap(q[k] + 1, n) == p[y];
      assert Le(b, p[x], p[y]);
      LeStep(b, q[j], q[k]);
    }
  }

  /** The links keep the order of equal characters. */
  lemma LinkOrder(l: seq<int>, t: seq<int>, j: nat, k: nat)
    requires Links(l, t) && j < k < |l|
    ensures l[t[j]] <= l[t[k]] && (l[t[j]] == l[t[k]] ==> t[j] < t[k])
  {
    var x, y := t[j], t[k];
    if l[x] > l[y] {
      BelowMono(l, |l|, l[y] + 1, l[x]);
    } else if l[x] == l[y] && x > y {
      CountMono(l, y, x, l[x]);
    }
  }

  lemma EqualsMeet(b: seq<int>, i: nat, j: nat, m: nat, h: nat)
    requires |b| > 0 && Cmp(b, i, j, h) == 0 && Cmp(b, i, m, h) == 0
    ensures Cmp(b, j, m, h) == 0
  {
    CmpAntisym(b, i, j, h);
    CmpAntisym(b, i, m, h);
    CmpAntisym(b, j, m, h);
    CmpTrans(b, j, i, m, h);
    CmpTrans(b, m, i, j, h);
  }

  /** A link leads from a row equal to rotation m to a row equal to rotation m + 1. */
  lemma LinkAdvances(b: seq<int>, p: seq<int>, t: seq<int>, k: nat, m: nat)
    requires |b| > 0 && IsSorted(b, p) && Links(LastColumn(b, p), t) && k < |b|
    requires Cmp(b, p[k], m, |b|) == 0
    ensures 0 <= t[k] < |b| && Cmp(b, p[t[k]], m + 1, |b|) == 0
    ensures LastColumn(b, p)[t[k]] == Ch(b, m)
  {
    var n, q := |b|, Relinked(b, p, t);
    RelinkedSorted(b, p, t);
    SameRanks(b, p, q, k);
    EqualsMeet(b, p[k], q[k], m, n);
    CmpPeriodic(b, q[k], m, n + 1);
    assert Wrap(q[k] + 1, n) == p[t[k]];
    CmpWrapped(b, q[k] + 1, m + 1, n);
    CmpWrapped(b, p[t[k]], m + 1, n);
  }

  lemma {:induction false} SpellRotation(b: seq<int>, p: seq<int>, t: seq<int>, k: nat, m: nat, len: nat)
    requires |b| > 0 && IsSorted(b, p) && Links(LastColumn(b, p), t) && k < |b|
    requires Cmp(b, p[k], m, |b|) == 0
    ensures forall i :: 0 <= i < len ==> Spell(LastColumn(b, p), t, k, len)[i] == Ch(b, m + i)
    decreases len
  {
    if len > 0 {
      LinkAdvances(b, p, t, k, m);
      SpellRotation(b, p, t, t[k], m + 1, len - 1);
      var s := Spell(LastColumn(b, p), t, k, len);
      forall i | 0 <= i < len ensures s[i] == Ch(b, m + i) {
        if i > 0 { assert s[i] == Spell(LastColumn(b, p), t, t[k], len - 1)[i - 1]; }
      }
    }
  }

  /** The inverse transform: following the links from the row of the block spells it, and
      whatever is read beyond its end is the block again. */
  lemma SpellsBlock(b: seq<int>, p: seq<int>, t: seq<int>, origPtr: nat)
    requires |b| > 0 && IsSorted(b, p) && Links(LastColumn(b, p), t)
    requires origPtr < |b| && p[origPtr] == 0
    ensures Spell(LastColumn(b, p), t, origPtr, |b|) == b
    ensures forall m: nat, i :: 0 <= i < m ==> Spell(LastColumn(b, p), t, origPtr, m)[i] == Ch(b, i)
  {
    CmpSelf(b, 0, |b|);
    SpellRotation(b, p, t, origPtr, 0, |b|);
    forall m: nat, i | 0 <= i < m ensures Spell(LastColumn(b, p), t, origPtr, m)[i] == Ch(b, i) {
      SpellRotation(b, p, t, origPtr, 0, m);
    }
  }

  /** The FAST links, packed above the characters in one word each. */
  ghost predicate Packed(l: seq<int>, w: seq<nat>, t: seq<int>) {
    && Links(l, t) && |l| <= |w| && forall k :: 0 <= k < |l| ==> w[k] == PackWord(l[k], t[k])
  }

  /** A character with a link above it, or alone where there is no link yet. */
  function PackWord(c: int, v: int): int {
    if v < 0 then c else c + v * 256
  }

  lemma PackedByte(c: int, v: int)
    requires 0 <= c < 256
    ensures PackWord(c, v) % 256 == c && (v >= 0 ==> PackWord(c, v) / 256 == v)
  {
  }

  lemma PackOr(c: nat, v: nat)
    requires c < 256
    ensures Words.Or(PackWord(c, -1), v * 256) == PackWord(c, v)
  {
    Words.OrAboveByte(c, v);
  }

  /** The first i elements threaded: t holds the links made so far, -1 where none is. */
  ghost predicate Threading(l: seq<int>, w: seq<nat>, t: seq<int>, i: nat) {
    && i <= |l| <= |w| && |t| == |l|
    && (forall k :: 0 <= k < |l| ==> -1 <= t[k] < i && w[k] == PackWord(l[k], t[k]))
    && (forall k :: 0 <= k < |l| && t[k] >= 0 ==> StableCell(l, t[k]) == k)
    && (forall k :: 0 <= k < i ==> t[StableCell(l, k)] == k)
  }

  lemma ThreadNext(l: seq<int>, w: seq<nat>, t: seq<int>, i: nat)
    requires Bytes(l) && Threading(l, w, t, i) && i < |l|
    ensures Threading(l, w[StableCell(l, i) := Words.Or(w[StableCell(l, i)], i * 256)], t[StableCell(l, i) := i], i + 1)
  {
    hide PackWord, Words.Or;
    hide StableCell;
    var k := StableCell(l, i);
    if t[k] != -1 { CellsDistinct(l, t[k], i); }
    PackOr(l[k], i);
    forall j | 0 <= j < i ensures StableCell(l, j) != k { CellsDistinct(l, j, i); }
  }

  lemma ThreadByte(l: seq<int>, w: seq<nat>, t: seq<int>, i: nat)
    requires Bytes(l) && Threading(l, w, t, i) && i < |l|
    ensures |t| == |l| <= |w| && w[i] % 256 == l[i]
  {
    PackedByte(l[i], t[i]);
  }

  /** Thread the links through the words that hold the column. */
  method ThreadFast(tt: array<nat>, cftab: array<int>, nblock: nat, ghost l: seq<int>) returns (ghost t: seq<int>)
    requires nblock == |l| <= tt.Length && Bytes(l) && cftab.Length == 257
    requires forall k :: 0 <= k < nblock ==> tt[k] == l[k]
    requires forall c :: 0 <= c <= 256 ==> cftab[c] == Below(l, nblock, c)
    modifies tt, cftab
    ensures Packed(l, tt[..], t)
  {
    hide Threading, Packed, PackWord, Words.Or, Below;
    t := seq(nblock, _ => -1);
    ThreadStart(l, tt[..], t);
    for i := 0 to nblock
      invariant forall c :: 0 <= c < 256 ==> cftab[c] == Below(l, nblock, c) + Count(l, i, c)
      invariant Threading(l, tt[..], t, i)
    {
      ghost var w := tt[..];
      ThreadByte(l, w, t, i);
      ThreadNext(l, w, t, i);
      var uc := tt[i] % 256;
      var k := cftab[uc];
      tt[k] := Words.Or(tt[k], i * 256);
      t := t[k := i];
      cftab[uc] := cftab[uc] + 1;
    }
    ThreadDone(l, tt[..], t);
  }

  lemma ThreadStart(l: seq<int>, w: seq<nat>, t: seq<int>)
    requires |t| == |l| <= |w| && (forall k :: 0 <= k < |l| ==> t[k] == -1 && w[k] == l[k] >= 0) && Bytes(l)
    ensures Threading(l, w, t, 0)
  {
  }

  lemma ThreadDone(l: seq<int>, w: seq<nat>, t: seq<int>)
    requires Threading(l, w, t, |l|)
    ensures Packed(l, w, t)
  {
    LinksFrom(l, t);
  }

  /** One character of the FAST decoder: the packed word gives it and the next position. */
  lemma PackedStep(l: seq<int>, w: seq<nat>, t: seq<int>, k: nat)
    requires Packed(l, w, t) && Bytes(l) && k < |l|
    ensures w[k] % 256 == l[k] && w[k] / 256 == t[k]
  {
    PackedByte(l[k], t[k]);
  }

  /** The 20-bit link of cell i: sixteen bits in one table and a nibble in another. */
  function GetLink(ll16: seq<nat>, ll4: seq<nat>, i: nat): nat
    requires i < |ll16| && i / 2 < |ll4|
  {
    ll16[i] + (if i % 2 == 0 then ll4[i / 2] % 16 else ll4[i / 2] / 16 % 16) * 65536
  }

  ghost predicate LinkTables(ll16: seq<nat>, ll4: seq<nat>, n: nat) {
    && n <= |ll16| && n <= 2 * |ll4|
    && (forall i :: 0 <= i < |ll16| ==> ll16[i] < 65536)
    && (forall i :: 0 <= i < |ll4| ==> ll4[i] < 256)
  }

  /** Store a 20-bit link; the neighbour that shares the byte of nibbles keeps its own. */
  method SetLink(ll16: array<nat>, ll4: array<nat>, i: nat, v: nat, n: nat)
    requires ll16 != ll4 && LinkTables(ll16[..], ll4[..], n) && i < n && v < 0x10_0000
    modifies ll16, ll4
    ensures LinkTables(ll16[..], ll4[..], n)
    ensures GetLink(ll16[..], ll4[..], i) == v
    ensures forall k :: 0 <= k < n && k != i ==> GetLink(ll16[..], ll4[..], k) == old(GetLink(ll16[..], ll4[..], k))
    ensures forall k :: 0 <= k < ll16.Length && k != i ==> ll16[k] == old(ll16[k])
  {
    ll16[i] := v % 65536;
    if i % 2 == 0 {
      ll4[i / 2] := ll4[i / 2] / 16 * 16 + v / 65536;
    } else {
      ll4[i / 2] := ll4[i / 2] % 16 + v / 65536 * 16;
    }
  }

  /** Thread the links of the SMALL decoder: each element's cell in the sorted column. */
  method ThreadSmall(ll16: array<nat>, ll4: array<nat>, cftabCopy: array<int>, nblock: nat, ghost l: seq<int>)
    requires ll16 != ll4 && nblock == |l| <= 900000 && Bytes(l) && cftabCopy.Length == 257
    requires LinkTables(ll16[..], ll4[..], nblock)
    requires forall k :: 0 <= k < nblock ==> ll16[k] == l[k]
    requires forall c :: 0 <= c <= 256 ==> cftabCopy[c] == Below(l, nblock, c)
    modifies ll16, ll4, cftabCopy
    ensures LinkTables(ll16[..], ll4[..], nblock)
    ensures forall k :: 0 <= k < nblock ==> GetLink(ll16[..], ll4[..], k) == StableCell(l, k)
  {
    for i := 0 to nblock
      invariant LinkTables(ll16[..], ll4[..], nblock)
      invariant forall c :: 0 <= c < 256 ==> cftabCopy[c] == Below(l, nblock, c) + Count(l, i, c)
      invariant forall k :: 0 <= k < i ==> GetLink(ll16[..], ll4[..], k) == StableCell(l, k)
      invariant forall k :: i <= k < nblock ==> ll16[k] == l[k]
    {
      var uc := ll16[i] % 256;
      assert cftabCopy[uc] == StableCell(l, i);
      SetLink(ll16, ll4, i, cftabCopy[uc], nblock);
      cftabCopy[uc] := cftabCopy[uc] + 1;
    }
  }

  /** The cells of one cycle of f, from its first. */
  ghost predicate Orbit(f: seq<int>, orb: seq<int>) {
    && |orb| > 0 && (forall k :: 0 <= k < |orb| ==> 0 <= orb[k] < |f|)
    && (forall k :: 0 <= k < |orb| - 1 ==> orb[k + 1] == f[orb[k]])
    && (forall j, k :: 0 <= j < k < |orb| ==> orb[j] != orb[k])
  }

  lemma OrbitShort(f: seq<int>, orb: seq<int>)
    requires Orbit(f, orb)
    ensures |orb| <= |f|
  {
    ImageSize(orb, Indices(|orb|));
    SubsetSize(Image(orb, Indices(|orb|)), Indices(|f|));
  }

  lemma OrbitGrows(f: seq<int>, orb: seq<int>)
    requires Orbit(f, orb) && IsPermutation(f, |f|) && f[orb[|orb| - 1]] != orb[0]
    ensures f[orb[|orb| - 1]] !in orb && Orbit(f, orb + [f[orb[|orb| - 1]]])
  {
    var x := f[orb[|orb| - 1]];
    forall k | 0 <= k < |orb| ensures orb[k] != x {
      if k > 0 { assert orb[k] == f[orb[k - 1]]; }
    }
  }

  /** Reverse the links of the cycle through origPtr, and of no other. */
  method ReverseCycle(ll16: array<nat>, ll4: array<nat>, origPtr: nat, nblock: nat, ghost f: seq<int>)
    returns (ghost orb: seq<int>)
    requires ll16 != ll4 && LinkTables(ll16[..], ll4[..], nblock) && origPtr < nblock == |f| <= 900000
    requires IsPermutation(f, nblock)
    requires forall k :: 0 <= k < nblock ==> GetLink(ll16[..], ll4[..], k) == f[k]
    modifies ll16, ll4
    ensures LinkTables(ll16[..], ll4[..], nblock)
    ensures Orbit(f, orb) && orb[0] == origPtr && f[orb[|orb| - 1]] == origPtr
    ensures GetLink(ll16[..], ll4[..], origPtr) == orb[|orb| - 1]
    ensures forall k :: 0 < k < |orb| ==> GetLink(ll16[..], ll4[..], orb[k]) == orb[k - 1]
    ensures forall k :: 0 <= k < nblock && k !in orb ==> GetLink(ll16[..], ll4[..], k) == f[k]
  {
    hide LinkTables, Orbit, GetLink, Reversing, IsPermutation;
    orb := [origPtr];
    var i := origPtr;
    LinkInside(ll16[..], ll4[..], nblock);
    var j := GetLink(ll16[..], ll4[..], i);
    ReversingStarts(ll16[..], ll4[..], f, origPtr);
    while true
      invariant |orb| > 0 && i == orb[|orb| - 1] && Reversing(ll16[..], ll4[..], f, orb, origPtr, j)
      decreases nblock - |orb|
    {
      ReversingFacts(ll16[..], ll4[..], f, orb, origPtr, j);
      ghost var a, b := ll16[..], ll4[..];
      LinkInside(ll16[..], ll4[..], nblock);
      var tmp := GetLink(ll16[..], ll4[..], j);
      SetLink(ll16, ll4, j, i, nblock);
      LinkInside(ll16[..], ll4[..], nblock);
      if j == origPtr {
        Reversed(a, b, ll16[..], ll4[..], f, orb, origPtr);
        break;
      }
      ReversingStep(a, b, ll16[..], ll4[..], f, orb, origPtr, j, tmp);
      i := j;
      j := tmp;
      orb := orb + [i];
    }
  }

  lemma LinkInside(ll16: seq<nat>, ll4: seq<nat>, n: nat)
    requires LinkTables(ll16, ll4, n)
    ensures n <= |ll16| && n <= 2 * |ll4|
  {
  }

  /** The links of the orbit so far are reversed, but for the first, and the others are as they were;
      j is the next on the cycle. */
  ghost predicate Reversing(ll16: seq<nat>, ll4: seq<nat>, f: seq<int>, orb: seq<int>, origPtr: nat, j: nat) {
    && LinkTables(ll16, ll4, |f|) && IsPermutation(f, |f|) && |f| <= 900000 && Orbit(f, orb) && orb[0] == origPtr < |f|
    && j == f[orb[|orb| - 1]]
    && (forall k :: 0 < k < |orb| ==> GetLink(ll16, ll4, orb[k]) == orb[k - 1])
    && (forall k :: 0 <= k < |f| && (k == origPtr || k !in orb) ==> GetLink(ll16, ll4, k) == f[k])
  }

  lemma ReversingStarts(ll16: seq<nat>, ll4: seq<nat>, f: seq<int>, origPtr: nat)
    requires LinkTables(ll16, ll4, |f|) && IsPermutation(f, |f|) && origPtr < |f| <= 900000
    requires forall k :: 0 <= k < |f| ==> GetLink(ll16, ll4, k) == f[k]
    ensures Reversing(ll16, ll4, f, [origPtr], origPtr, GetLink(ll16, ll4, origPtr))
  {
    hide GetLink;
  }

  lemma ReversingFacts(ll16: seq<nat>, ll4: seq<nat>, f: seq<int>, orb: seq<int>, origPtr: nat, j: nat)
    requires Reversing(ll16, ll4, f, orb, origPtr, j)
    ensures LinkTables(ll16, ll4, |f|) && |orb| > 0 && j < |f| && 0 <= orb[|orb| - 1] < |f| && |orb| <= |f|
    ensures j != origPtr ==> |orb| < |f| && j !in orb && Orbit(f, orb + [j])
  {
    hide GetLink;
    OrbitShort(f, orb);
    if j != origPtr {
      OrbitGrows(f, orb);
      OrbitShort(f, orb + [j]);
    }
  }

  /** One link more is reversed. */
  lemma ReversingStep(a: seq<nat>, b: seq<nat>, ll16: seq<nat>, ll4: seq<nat>, f: seq<int>, orb: seq<int>, origPtr: nat,
                      j: nat, tmp: nat)
    requires Reversing(a, b, f, orb, origPtr, j) && j != origPtr && LinkTables(ll16, ll4, |f|) && j < |f|
    requires GetLink(ll16, ll4, j) == orb[|orb| - 1] && tmp == GetLink(a, b, j)
    requires forall k :: 0 <= k < |f| && k != j ==> GetLink(ll16, ll4, k) == GetLink(a, b, k)
    ensures Reversing(ll16, ll4, f, orb + [j], origPtr, tmp)
  {
    ReversingFacts(a, b, f, orb, origPtr, j);
    hide GetLink, LinkTables;
    var o := orb + [j];
    forall k | 0 < k < |o| ensures GetLink(ll16, ll4, o[k]) == o[k - 1] {
      if k < |orb| { assert o[k] == orb[k] != j; }
    }
  }

  /** The last link is reversed. */
  lemma Reversed(a: seq<nat>, b: seq<nat>, ll16: seq<nat>, ll4: seq<nat>, f: seq<int>, orb: seq<int>, origPtr: nat)
    requires Reversing(a, b, f, orb, origPtr, origPtr) && LinkTables(ll16, ll4, |f|)
    requires GetLink(ll16, ll4, origPtr) == orb[|orb| - 1]
    requires forall k :: 0 <= k < |f| && k != origPtr ==> GetLink(ll16, ll4, k) == GetLink(a, b, k)
    ensures Orbit(f, orb) && orb[0] == origPtr && f[orb[|orb| - 1]] == origPtr
    ensures forall k :: 0 < k < |orb| ==> 0 <= orb[k] < |f| && GetLink(ll16, ll4, orb[k]) == orb[k - 1]
    ensures forall k :: 0 <= k < |f| && k !in orb ==> GetLink(ll16, ll4, k) == f[k]
  {
    hide GetLink, LinkTables;
    LinkInside(a, b, |f|);
    LinkInside(ll16, ll4, |f|);
    forall k | 0 < k < |orb| ensures GetLink(ll16, ll4, orb[k]) == orb[k - 1] { assert orb[k] != orb[0]; }
  }

  /** On the cells of the cycle the reversed links are those of the FAST decoder. */
  lemma ReversedLinks(l: seq<int>, t: seq<int>, f: seq<int>, orb: seq<int>, g: seq<int>)
    requires Links(l, t) && |f| == |l| == |g| && forall k :: 0 <= k < |l| ==> f[k] == StableCell(l, k)
    requires Orbit(f, orb) && f[orb[|orb| - 1]] == orb[0]
    requires g[orb[0]] == orb[|orb| - 1] && forall k :: 0 < k < |orb| ==> g[orb[k]] == orb[k - 1]
    ensures forall x :: x in orb ==> g[x] == t[x] && t[x] in orb
  {
    forall x | x in orb ensures g[x] == t[x] && t[x] in orb {
      var k :| 0 <= k < |orb| && orb[k] == x;
      var y := if k == 0 then orb[|orb| - 1] else orb[k - 1];
      assert f[y] == x && g[x] == y;
      LinksUnique(l, t, x, y);
    }
  }

  lemma LinksUnique(l: seq<int>, t: seq<int>, x: int, y: int)
    requires Links(l, t) && 0 <= x < |l| && 0 <= y < |l| && StableCell(l, y) == x
    ensures t[x] == y
  {
    if t[x] < y { CellsDistinct(l, t[x], y); }
    if y < t[x] { CellsDistinct(l, y, t[x]); }
  }

  /** The character whose bucket holds a cell, by binary search. */
  method IndexIntoF(indx: int, cftab: array<int>) returns (nb: int)
    requires cftab.Length == 257 && cftab[0] <= indx < cftab[256]
    ensures 0 <= nb < 256 && cftab[nb] <= indx < cftab[nb + 1]
  {
    nb := 0;
    var na := 256;
    while true
      invariant 0 <= nb < na <= 256 && cftab[nb] <= indx < cftab[na] && na - nb > 1
      decreases na - nb
    {
      var mid := (nb + na) / 2;
      if indx >= cftab[mid] { nb := mid; } else { na := mid; }
      if na - nb == 1 { break; }
    }
  }

  /** The first character of a row is the one its link leads to in the column. */
  lemma FirstCharacter(l: seq<int>, t: seq<int>, k: nat, c: int)
    requires Links(l, t) && k < |l| && Below(l, |l|, c) <= k < Below(l, |l|, c + 1)
    ensures l[t[k]] == c
  {
    BucketUnique(l, k, c, l[t[k]]);
  }
}
