/** Setting up the output of a decoded block: from its column to the tables of an expander. */
module OutputTables {
  import opened Counting
  import opened Expanders
  import opened InverseBwt
  import opened Rotations
  import opened Sequences
  import opened StreamDecoding

  lemma CountBounded(l: seq<int>, c: int)
    ensures Below(l, |l|, c + 1) == Below(l, |l|, c) + Count(l, |l|, c)
  {
    BelowNext(l, |l|, c);
  }

  /** Where each byte value starts in the sorted column. */
  method CountColumn(column: seq<int>) returns (cftab: array<int>)
    requires Rotations.Bytes(column)
    ensures fresh(cftab) && cftab.Length == 257
    ensures forall c :: 0 <= c <= 256 ==> cftab[c] == Below(column, |column|, c)
  {
    hide Below;
    var unzftab := new int[256](_ => 0);
    for i := 0 to |column|
      invariant forall c :: 0 <= c < 256 ==> unzftab[c] == Count(column, i, c)
    {
      unzftab[column[i]] := unzftab[column[i]] + 1;
    }
    cftab := new int[257];
    cftab[0] := 0;
    for i := 1 to 257
      invariant cftab[0] == 0 && forall c :: 1 <= c < i ==> cftab[c] == Count(column, |column|, c - 1)
      modifies cftab
    {
      cftab[i] := unzftab[i - 1];
    }
    BelowAll(column, |column|, 0);
    for i := 1 to 257
      invariant forall c :: 0 <= c < i ==> cftab[c] == Below(column, |column|, c)
      invariant forall c :: i <= c <= 256 ==> cftab[c] == Count(column, |column|, c - 1)
    {
      CountBounded(column, i - 1);
      cftab[i] := cftab[i] + cftab[i - 1];
    }
  }

  lemma LinksSame(l: seq<int>, t: seq<int>, u: seq<int>)
    requires Links(l, t) && Links(l, u)
    ensures t == u
  {
    forall k | 0 <= k < |l| ensures t[k] == u[k] { LinksUnique(l, t, k, u[k]); }
  }

  /** The words of the FAST decoder: a character of the column and a link above it. */
  method PrepareFast(column: seq<int>, origPtr: nat, ghost src: Source) returns (e: FastExpander)
    requires src.l == column && src.start == origPtr && Sound(src)
    ensures fresh(e) && fresh(e.tt) && e.Valid() && e.src == src && e.emitted == [] && e.stateOutLen == 0
  {
    hide Below, Bytes, Links, Packed, Text;
    SoundFacts(src);
    ColumnNats(column);
    var cftab := CountColumn(column);
    var tt := new nat[|column|];
    for i := 0 to |column|
      invariant forall k :: 0 <= k < i ==> tt[k] == column[k]
      modifies tt
    {
      tt[i] := column[i];
    }
    ghost var t := ThreadFast(tt, cftab, |column|, column);
    PackedLinks(column, tt[..], t);
    LinksSame(column, t, src.t);
    e := new FastExpander(tt, origPtr, |column|, src);
  }

  lemma ColumnNats(l: seq<int>)
    requires Rotations.Bytes(l)
    ensures forall k :: 0 <= k < |l| ==> 0 <= l[k] < 256
  {
  }

  lemma PackedLinks(l: seq<int>, w: seq<nat>, t: seq<int>)
    requires Packed(l, w, t)
    ensures Links(l, t)
  {
  }

  function Cells(l: seq<int>): (f: seq<int>)
    ensures |f| == |l|
  {
    seq(|l|, i requires 0 <= i < |l| => StableCell(l, i))
  }

  lemma CellsPermute(l: seq<int>)
    ensures IsPermutation(Cells(l), |l|)
  {
    forall i, j | 0 <= i < j < |l| ensures Cells(l)[i] != Cells(l)[j] { CellsDistinct(l, i, j); }
  }

  /** From a cell of a cycle the links stay on it. */
  lemma {:induction false} CycleClosed(src: Source, orb: seq<int>, j: nat)
    requires src.start < |src.t| && (forall k :: 0 <= k < |src.t| ==> 0 <= src.t[k] < |src.t|)
    requires src.start in orb && forall x :: x in orb ==> 0 <= x < |src.t| && src.t[x] in orb
    ensures PosAt(src.t, src.start, j) in orb
  {
    if j > 0 { CycleClosed(src, orb, j - 1); }
  }

  lemma OrbitFacts(f: seq<int>, orb: seq<int>)
    requires Orbit(f, orb)
    ensures |orb| > 0 && orb[0] in orb && forall k :: 0 <= k < |orb| ==> 0 <= orb[k] < |f|
  {
  }

  /** The links of the SMALL decoder, reversed along the cycle that will be walked. */
  method ThreadCycle(ll16: array<nat>, ll4: array<nat>, cftabCopy: array<int>, ghost src: Source, origPtr: nat,
                     nblock: nat)
    requires ll16 != ll4 && nblock == |src.l| <= 900000 && src.start == origPtr && Sound(src) && cftabCopy.Length == 257
    requires LinkTables(ll16[..], ll4[..], nblock) && forall k :: 0 <= k < nblock ==> ll16[k] == src.l[k]
    requires forall c :: 0 <= c <= 256 ==> cftabCopy[c] == Below(src.l, nblock, c)
    modifies ll16, ll4, cftabCopy
    ensures LinkTables(ll16[..], ll4[..], nblock)
    ensures src.start < |src.t| == nblock && forall k :: 0 <= k < |src.t| ==> 0 <= src.t[k] < |src.t|
    ensures forall j: nat :: GetLink(ll16[..], ll4[..], PosAt(src.t, src.start, j)) == src.t[PosAt(src.t, src.start, j)]
  {
    hide Below, Bytes, Cells, GetLink, IsPermutation, LinkTables, Links, Orbit, PosAt, StableCell, Text;
    SoundFacts(src);
    ghost var f := Cells(src.l);
    CellsPermute(src.l);
    CellsAre(src.l);
    ThreadSmall(ll16, ll4, cftabCopy, nblock, src.l);
    ghost var orb := ReverseCycle(ll16, ll4, origPtr, nblock, f);
    CycleWalked(ll16[..], ll4[..], src, f, orb);
  }

  function AllLinks(ll16: seq<nat>, ll4: seq<nat>, n: nat): (g: seq<int>)
    requires n <= |ll16| && n <= 2 * |ll4|
    ensures |g| == n && forall k :: 0 <= k < n ==> g[k] == GetLink(ll16, ll4, k)
  {
    seq(n, k requires 0 <= k < n => GetLink(ll16, ll4, k))
  }

  lemma CycleWalked(ll16: seq<nat>, ll4: seq<nat>, src: Source, f: seq<int>, orb: seq<int>)
    requires Sound(src) && LinkTables(ll16, ll4, |src.l|) && f == Cells(src.l)
    requires Orbit(f, orb) && orb[0] == src.start && f[orb[|orb| - 1]] == src.start
    requires GetLink(ll16, ll4, src.start) == orb[|orb| - 1]
    requires forall k :: 0 < k < |orb| ==> GetLink(ll16, ll4, orb[k]) == orb[k - 1]
    ensures src.start < |src.t| == |src.l| && forall k :: 0 <= k < |src.t| ==> 0 <= src.t[k] < |src.t|
    ensures forall j: nat :: GetLink(ll16, ll4, PosAt(src.t, src.start, j)) == src.t[PosAt(src.t, src.start, j)]
  {
    hide AllLinks, Below, Bytes, Cells, GetLink, LinkTables, Links, Orbit, PosAt, StableCell, Text;
    SoundFacts(src);
    TablesSize(ll16, ll4, |src.l|);
    var g := AllLinks(ll16, ll4, |src.l|);
    OrbitFacts(f, orb);
    CellsAre(src.l);
    assert g[orb[0]] == orb[|orb| - 1];
    assert forall k :: 0 < k < |orb| ==> g[orb[k]] == GetLink(ll16, ll4, orb[k]);
    ReversedLinks(src.l, src.t, f, orb, g);
    forall j: nat ensures GetLink(ll16, ll4, PosAt(src.t, src.start, j)) == src.t[PosAt(src.t, src.start, j)] {
      CycleClosed(src, orb, j);
      assert g[PosAt(src.t, src.start, j)] == src.t[PosAt(src.t, src.start, j)];
    }
  }

  lemma TablesSize(ll16: seq<nat>, ll4: seq<nat>, n: nat)
    requires LinkTables(ll16, ll4, n)
    ensures n <= |ll16| && n <= 2 * |ll4|
  {
  }

  lemma CellsAre(l: seq<int>)
    ensures forall k :: 0 <= k < |l| ==> Cells(l)[k] == StableCell(l, k)
  {
  }

  method PrepareSmall(column: seq<int>, origPtr: nat, ghost src: Source) returns (e: SmallExpander)
    requires src.l == column && src.start == origPtr && Sound(src) && |column| <= 900000
    ensures fresh(e) && fresh(e.ll16) && fresh(e.ll4) && fresh(e.cftab)
    ensures e.Valid() && e.src == src && e.emitted == [] && e.stateOutLen == 0
  {
    hide Below, Bytes, GetLink, Links, PosAt;
    ColumnNats(column);
    var n := |column|;
    var cftab := CountColumn(column);
    var ll16 := new nat[n];
    for i := 0 to n
      invariant forall k :: 0 <= k < i ==> ll16[k] == column[k]
      modifies ll16
    {
      ll16[i] := column[i];
    }
    var cftabCopy := new int[257];
    for i := 0 to 257
      invariant forall c :: 0 <= c < i ==> cftabCopy[c] == cftab[c]
      modifies cftabCopy
    {
      cftabCopy[i] := cftab[i];
    }
    var ll4 := new nat[(n + 1) / 2](_ => 0);
    ThreadCycle(ll16, ll4, cftabCopy, src, origPtr, n);
    e := new SmallExpander(ll16, ll4, cftab, origPtr, n, src);
  }
}
