/** The two resumable run expanders, over the FAST and the SMALL tables. */
module Expanders {
  import opened BlockCrc
  import opened Counting
  import opened InverseBwt
  import opened MoveToFront
  import opened Rotations
  import RunLength

  /** The cell after j links from `start`. */
  function PosAt(t: seq<int>, start: nat, j: nat): (r: nat)
    requires start < |t| && forall k :: 0 <= k < |t| ==> 0 <= t[k] < |t|
    ensures r < |t|
  {
    if j == 0 then start else t[PosAt(t, start, j - 1)]
  }

  /** The first m characters that the links spell. */
  function Fetched(l: seq<int>, t: seq<int>, start: nat, m: nat): (c: seq<int>)
    requires start < |t| == |l| && forall k :: 0 <= k < |t| ==> 0 <= t[k] < |t|
    ensures |c| == m
  {
    seq(m, j requires 0 <= j < m => l[PosAt(t, start, j + 1)])
  }

  lemma {:induction false} PosShift(t: seq<int>, start: nat, j: nat)
    requires start < |t| && forall k :: 0 <= k < |t| ==> 0 <= t[k] < |t|
    ensures PosAt(t, start, j + 1) == PosAt(t, t[start], j)
  {
    if j > 0 { PosShift(t, start, j - 1); }
  }

  lemma {:induction false} FetchedSpells(l: seq<int>, t: seq<int>, start: nat, m: nat)
    requires start < |t| == |l| && forall k :: 0 <= k < |t| ==> 0 <= t[k] < |t|
    ensures Fetched(l, t, start, m) == Spell(l, t, start, m)
    decreases m
  {
    if m > 0 {
      FetchedSpells(l, t, t[start], m - 1);
      assert PosAt(t, start, 1) == t[PosAt(t, start, 0)];
      forall j | 0 <= j < m ensures Fetched(l, t, start, m)[j] == Spell(l, t, start, m)[j] {
        if j > 0 {
          PosShift(t, start, j);
          assert Spell(l, t, start, m)[j] == Spell(l, t, t[start], m - 1)[j - 1];
        }
      }
    }
  }

  /** What is fixed while a block is output: the column, its links and the row to start from. */
  datatype Source = Source(l: seq<int>, t: seq<int>, start: nat)

  ghost predicate Sound(src: Source) {
    Links(src.l, src.t) && src.start < |src.l| && Rotations.Bytes(src.l)
  }

  /** The characters of the block, and two more as they would be read on. */
  function Text(src: Source): (c: seq<int>)
    requires src.start < |src.t| == |src.l| && forall k :: 0 <= k < |src.t| ==> 0 <= src.t[k] < |src.t|
    ensures |c| == |src.l| + 2
  {
    Fetched(src.l, src.t, src.start, |src.l| + 2)
  }

  lemma SoundFacts(src: Source)
    requires Sound(src)
    ensures src.start < |src.t| == |src.l| && forall k :: 0 <= k < |src.t| ==> 0 <= src.t[k] < |src.t|
    ensures forall k :: 0 <= k < |Text(src)| ==> 0 <= Text(src)[k] < 256
  {
  }

  /** Where output stands: `used` characters fetched, the last of them k0 (unless the block is
      over), and a run of len times ch still to be output after `emitted`. */
  ghost predicate Standing(src: Source, used: int, k0: int, ch: int, len: int, emitted: seq<int>, crc: bv32) {
    && Sound(src) && |src.t| == |src.l| && (forall k :: 0 <= k < |src.t| ==> 0 <= src.t[k] < |src.t|)
    && (forall k :: 0 <= k < |Text(src)| ==> 0 <= Text(src)[k] < 256)
    && var c, n := Text(src), |src.l|;
      && 1 <= used <= n + 2 && 0 <= len && (used <= n ==> k0 == c[used - 1])
      && emitted + (Repeat(ch, len) + RunLength.Expanded(c, n, used - 1)) == RunLength.Expanded(c, n, 0)
      && RunLength.Whole(c, n, used - 1) == RunLength.Whole(c, n, 0)
      && crc == Register(emitted)
  }

  lemma StandingStart(src: Source, k0: int, ch: int)
    requires Sound(src) && |src.l| > 0 && k0 == Text(src)[0]
    ensures Standing(src, 1, k0, ch, 0, [], 0xffff_ffff)
  {
    SoundFacts(src);
    assert [] + (Repeat(ch, 0) + RunLength.Expanded(Text(src), |src.l|, 0)) ==
      RunLength.Expanded(Text(src), |src.l|, 0);
  }

  lemma StandingEmit(src: Source, used: int, k0: int, ch: int, len: int, emitted: seq<int>, crc: bv32)
    requires Standing(src, used, k0, ch, len, emitted, crc) && len > 0
    ensures Standing(src, used, k0, ch, len - 1, emitted + [ch], Update(crc, Byte(ch)))
  {
    hide Text, RunLength.Expanded, RunLength.Whole, Register, Update;
    var rest := RunLength.Expanded(Text(src), |src.l|, used - 1);
    assert Repeat(ch, len) == [ch] + Repeat(ch, len - 1);
    assert emitted + ([ch] + Repeat(ch, len - 1) + rest) == emitted + [ch] + (Repeat(ch, len - 1) + rest);
    RegisterNext(emitted, ch);
  }

  /** The next run has been fetched. */
  lemma StandingRun(src: Source, used: int, k0: int, ch: int, emitted: seq<int>, crc: bv32, k0': int)
    requires Standing(src, used, k0, ch, 0, emitted, crc) && used <= |src.l|
    requires var r := RunLength.RunAt(Text(src), |src.l|, used - 1); r.1 < |src.l| ==> k0' == Text(src)[r.1]
    ensures var r := RunLength.RunAt(Text(src), |src.l|, used - 1);
      Standing(src, r.1 + 1, k0', k0, r.0, emitted, crc)
  {
    var c, n := Text(src), |src.l|;
    RunLength.ExpandStep(c, n, used - 1);
    var r := RunLength.RunAt(c, n, used - 1);
    var rest := RunLength.Expanded(c, n, r.1);
    assert Repeat(ch, 0) + RunLength.Expanded(c, n, used - 1) == RunLength.Expanded(c, n, used - 1);
    hide Text, Sound, RunLength.Expanded, RunLength.Whole, Register, RunLength.RunAt;
  }

  lemma StandingFacts(src: Source, used: int, k0: int, ch: int, len: int, emitted: seq<int>, crc: bv32)
    requires Standing(src, used, k0, ch, len, emitted, crc)
    ensures Sound(src) && |src.t| == |src.l| && src.start < |src.l|
    ensures (forall k :: 0 <= k < |src.t| ==> 0 <= src.t[k] < |src.t|) && 1 <= used <= |src.l| + 2 && 0 <= len
    ensures forall k :: 0 <= k < |Text(src)| ==> 0 <= Text(src)[k] < 256
    ensures used <= |src.l| ==> k0 == Text(src)[used - 1]
    ensures Characters(src)
  {
  }

  /** What a call of an expander comes to: the output goes on where it stopped; it stops only
      for lack of room or at the end of the block; corruption is found only at a last run that
      lacks its count. */
  ghost predicate Served(src: Source, used: int, len: int, emitted: seq<int>, out: seq<int>, emitted': seq<int>,
                         avail: nat, corrupt: bool) {
    && Sound(src) && |src.t| == |src.l| && (forall k :: 0 <= k < |src.t| ==> 0 <= src.t[k] < |src.t|)
    && (forall k :: 0 <= k < |Text(src)| ==> 0 <= Text(src)[k] < 256)
    && emitted' == emitted + out && |out| <= avail
    && emitted' <= RunLength.Expanded(Text(src), |src.l|, 0)
    && (corrupt ==> !RunLength.Whole(Text(src), |src.l|, 0) && emitted' == RunLength.Expanded(Text(src), |src.l|, 0))
    && (|out| < avail && !corrupt ==>
          (used == |src.l| + 1 && len == 0 && RunLength.Whole(Text(src), |src.l|, 0)
           && emitted' == RunLength.Expanded(Text(src), |src.l|, 0)))
  }

  lemma StandingPrefix(src: Source, used: int, k0: int, ch: int, len: int, emitted: seq<int>, crc: bv32)
    requires Standing(src, used, k0, ch, len, emitted, crc)
    ensures Sound(src) && |src.t| == |src.l| && (forall k :: 0 <= k < |src.t| ==> 0 <= src.t[k] < |src.t|)
    ensures forall k :: 0 <= k < |Text(src)| ==> 0 <= Text(src)[k] < 256
    ensures emitted <= RunLength.Expanded(Text(src), |src.l|, 0)
    ensures used > |src.l| + 1 ==> !RunLength.Whole(Text(src), |src.l|, 0)
    ensures used == |src.l| + 1 ==> RunLength.Whole(Text(src), |src.l|, 0)
    ensures used >= |src.l| + 1 && len == 0 ==> emitted == RunLength.Expanded(Text(src), |src.l|, 0)
  {
    hide Text;
    if used >= |src.l| + 1 {
      assert RunLength.Expanded(Text(src), |src.l|, used - 1) == [];
    }
  }

  // SMALL: cells hold their links, the characters are found by binary search.

  class SmallExpander {
    const ll16: array<nat>
    const ll4: array<nat>
    const cftab: array<int>
    var tPos: nat
    var k0: int
    var nblockUsed: int
    const saveNblock: nat
    var stateOutLen: int
    var stateOutCh: int
    var calculatedBlockCRC: bv32
    ghost const src: Source
    ghost var emitted: seq<int>

    /** The tables serve the cells of the cycle. */
    ghost predicate Tables()
      reads ll16, ll4, cftab
    {
      && |src.l| == saveNblock && Sound(src) && |src.t| == |src.l|
      && (forall k :: 0 <= k < |src.t| ==> 0 <= src.t[k] < |src.t|)
      && LinkTables(ll16[..], ll4[..], saveNblock) && cftab.Length == 257
      && (forall c :: 0 <= c <= 256 ==> cftab[c] == Counting.Below(src.l, saveNblock, c))
      && (forall j: nat :: GetLink(ll16[..], ll4[..], PosAt(src.t, src.start, j)) == src.t[PosAt(src.t, src.start, j)])
    }

    ghost predicate Valid()
      reads this, ll16, ll4, cftab
    {
      && |src.l| == saveNblock && Tables()
      && Standing(src, nblockUsed, k0, stateOutCh, stateOutLen, emitted, calculatedBlockCRC)
      && tPos == PosAt(src.t, src.start, nblockUsed)
    }

    /** The tables are ready; the first character is fetched. */
    constructor (ll16: array<nat>, ll4: array<nat>, cftab: array<int>, origPtr: nat, nblock: nat, ghost src: Source)
      requires |src.l| == nblock && src.start == origPtr && Sound(src) && LinkTables(ll16[..], ll4[..], nblock)
      requires cftab.Length == 257
      requires |src.t| == |src.l| && (forall k :: 0 <= k < |src.t| ==> 0 <= src.t[k] < |src.t|)
      requires forall c :: 0 <= c <= 256 ==> cftab[c] == Counting.Below(src.l, nblock, c)
      requires forall j: nat ::
        GetLink(ll16[..], ll4[..], PosAt(src.t, src.start, j)) == src.t[PosAt(src.t, src.start, j)]
      ensures Valid() && this.src == src && this.ll16 == ll16 && this.ll4 == ll4 && this.cftab == cftab
      ensures emitted == [] && stateOutLen == 0
    {
      hide Text, Standing;
      this.ll16 := ll16;
      this.ll4 := ll4;
      this.cftab := cftab;
      this.src := src;
      saveNblock := nblock;
      tPos := origPtr;
      nblockUsed := 0;
      stateOutLen := 0;
      stateOutCh := 0;
      calculatedBlockCRC := 0xffff_ffff;
      emitted := [];
      new;
      assert PosAt(src.t, src.start, 0) == origPtr;
      k0 := GetSmall(0);
      nblockUsed := 1;
      StandingStart(src, k0, stateOutCh);
    }

    /** Fetches one character. */
    method GetSmall(ghost used: nat) returns (c: int)
      requires Tables() && tPos == PosAt(src.t, src.start, used) && used < saveNblock + 2
      modifies this`tPos
      ensures c == Text(src)[used] && tPos == PosAt(src.t, src.start, used + 1)
    {
      CellInBuckets(src.l, tPos);
      c := IndexIntoF(tPos, cftab);
      FirstCharacter(src.l, src.t, tPos, c);
      tPos := GetLink(ll16[..], ll4[..], tPos);
    }

    /** Fetches the next run: up to three more equal characters, then a count and the start of
        the run after it. */
    method NextRun()
      requires |src.l| == saveNblock && Tables() && 1 <= nblockUsed <= saveNblock
      requires tPos == PosAt(src.t, src.start, nblockUsed)
      requires Characters(src) && k0 == Text(src)[nblockUsed - 1]
      modifies this`tPos, this`k0, this`nblockUsed, this`stateOutLen, this`stateOutCh
      ensures 1 <= nblockUsed && tPos == PosAt(src.t, src.start, nblockUsed) && stateOutCh == old(k0)
      ensures RunTaken(src, old(nblockUsed) - 1, nblockUsed, k0, stateOutLen)
    {
      hide Tables, Text, PosAt;
      ghost var p := nblockUsed - 1;
      RunCases(src, p);
      stateOutLen := 1;
      stateOutCh := k0;
      var k1 := GetSmall(p + 1);
      nblockUsed := nblockUsed + 1;
      if nblockUsed == saveNblock + 1 { return; }
      if k1 != k0 { k0 := k1; return; }
      stateOutLen := 2;
      k1 := GetSmall(p + 2);
      nblockUsed := nblockUsed + 1;
      if nblockUsed == saveNblock + 1 { return; }
      if k1 != k0 { k0 := k1; return; }
      stateOutLen := 3;
      k1 := GetSmall(p + 3);
      nblockUsed := nblockUsed + 1;
      if nblockUsed == saveNblock + 1 { return; }
      if k1 != k0 { k0 := k1; return; }
      k1 := GetSmall(p + 4);
      nblockUsed := nblockUsed + 1;
      stateOutLen := k1 + 4;
      k0 := GetSmall(p + 5);
      nblockUsed := nblockUsed + 1;
    }

    /** Outputs the pending run, as far as there is room. */
    method PutRun(availOut: nat) returns (out: seq<int>, avail: nat)
      requires Valid()
      modifies this`stateOutLen, this`calculatedBlockCRC, this`emitted
      ensures Valid() && emitted == old(emitted) + out && |out| + avail == availOut
      ensures avail > 0 ==> stateOutLen == 0
    {
      hide Tables, PosAt, Standing;
      out := [];
      avail := availOut;
      StandingFacts(src, nblockUsed, k0, stateOutCh, stateOutLen, emitted, calculatedBlockCRC);
      while true
        invariant Valid() && emitted == old(emitted) + out && |out| + avail == availOut && stateOutLen >= 0
        decreases stateOutLen
      {
        if avail == 0 { return; }
        if stateOutLen == 0 { return; }
        StandingEmit(src, nblockUsed, k0, stateOutCh, stateOutLen, emitted, calculatedBlockCRC);
        out := out + [stateOutCh];
        emitted := emitted + [stateOutCh];
        calculatedBlockCRC := Update(calculatedBlockCRC, Byte(stateOutCh));
        stateOutLen := stateOutLen - 1;
        avail := avail - 1;
        StandingFacts(src, nblockUsed, k0, stateOutCh, stateOutLen, emitted, calculatedBlockCRC);
      }
    }

    /** Outputs as much as there is room for. */
    method Expand(availOut: nat) returns (out: seq<int>, corrupt: bool)
      requires Valid()
      modifies this`tPos, this`k0, this`nblockUsed, this`stateOutLen, this`stateOutCh, this`calculatedBlockCRC
      modifies this`emitted
      ensures Valid() && Served(src, nblockUsed, stateOutLen, old(emitted), out, emitted, availOut, corrupt)
    {
      hide Tables, PosAt, Standing, Served, RunTaken;
      out := [];
      var avail := availOut;
      while true
        invariant Valid() && emitted == old(emitted) + out && |out| + avail == availOut
        decreases saveNblock + 2 - nblockUsed
      {
        ghost var u, e := nblockUsed, emitted;
        var more;
        more, avail := PutRun(avail);
        out := out + more;
        assert emitted == old(emitted) + out;
        StandingFacts(src, nblockUsed, k0, stateOutCh, stateOutLen, emitted, calculatedBlockCRC);
        if avail == 0 {
          corrupt := false;
          ServedNow(src, nblockUsed, k0, stateOutCh, stateOutLen, emitted, calculatedBlockCRC, old(emitted), out,
            availOut, false);
          return;
        }
        if nblockUsed == saveNblock + 1 {
          corrupt := false;
          ServedNow(src, nblockUsed, k0, stateOutCh, stateOutLen, emitted, calculatedBlockCRC, old(emitted), out,
            availOut, false);
          return;
        }
        if nblockUsed > saveNblock + 1 {
          corrupt := true;
          ServedNow(src, nblockUsed, k0, stateOutCh, stateOutLen, emitted, calculatedBlockCRC, old(emitted), out,
            availOut, true);
          return;
        }
        ghost var k, ch := k0, stateOutCh;
        NextRun();
        StandingNext(src, u, k, ch, emitted, calculatedBlockCRC, nblockUsed, k0, stateOutLen);
      }
    }
  }

  ghost predicate Characters(src: Source) {
    && Sound(src) && |src.t| == |src.l| && (forall k :: 0 <= k < |src.t| ==> 0 <= src.t[k] < |src.t|)
    && (forall k :: 0 <= k < |Text(src)| ==> 0 <= Text(src)[k] < 256)
  }

  /** The run at p has been fetched: its length, and the character after it. */
  ghost predicate RunTaken(src: Source, p: int, used: int, k0: int, len: int) {
    && Characters(src) && 0 <= p < |src.l|
    && var r := RunLength.RunAt(Text(src), |src.l|, p);
      used == r.1 + 1 && len == r.0 && (r.1 < |src.l| ==> k0 == Text(src)[r.1])
  }

  lemma RunCases(src: Source, p: int)
    requires Characters(src) && 0 <= p < |src.l|
    ensures |Text(src)| == |src.l| + 2
  {
  }

  lemma StandingNext(src: Source, used: int, k0: int, ch: int, emitted: seq<int>, crc: bv32, used': int, k0': int,
                     len': int)
    requires Standing(src, used, k0, ch, 0, emitted, crc) && 1 <= used <= |src.l|
    requires RunTaken(src, used - 1, used', k0', len')
    ensures Standing(src, used', k0', k0, len', emitted, crc) && used < used'
  {
    hide Standing, Text;
    StandingRun(src, used, k0, ch, emitted, crc, k0');
  }

  lemma ServedNow(src: Source, used: int, k0: int, ch: int, len: int, emitted: seq<int>, crc: bv32,
                  before: seq<int>, out: seq<int>, availOut: nat, corrupt: bool)
    requires Standing(src, used, k0, ch, len, emitted, crc) && emitted == before + out && |out| <= availOut
    requires corrupt ==> used > |src.l| + 1 && len == 0
    requires |out| < availOut && !corrupt ==> used == |src.l| + 1 && len == 0
    ensures Served(src, used, len, before, out, emitted, availOut, corrupt)
  {
    hide Standing, Text;
    StandingFacts(src, used, k0, ch, len, emitted, crc);
    StandingPrefix(src, used, k0, ch, len, emitted, crc);
  }

  lemma CellInBuckets(l: seq<int>, k: nat)
    requires Rotations.Bytes(l) && k < |l|
    ensures Counting.Below(l, |l|, 0) <= k < Counting.Below(l, |l|, 256)
  {
    BelowAll(l, |l|, 0);
    BelowAll(l, |l|, 256);
  }

  lemma PosFacts(src: Source, used: nat)
    requires Sound(src) && |src.t| == |src.l| && (forall k :: 0 <= k < |src.t| ==> 0 <= src.t[k] < |src.t|)
    requires used < |src.l| + 2
    ensures src.start < |src.t|
    ensures Text(src)[used] == src.l[PosAt(src.t, src.start, used + 1)]
    ensures PosAt(src.t, src.start, used + 2) == src.t[PosAt(src.t, src.start, used + 1)]
  {
  }

  lemma PosStart(src: Source)
    requires src.start < |src.t| && (forall k :: 0 <= k < |src.t| ==> 0 <= src.t[k] < |src.t|)
    ensures PosAt(src.t, src.start, 0) == src.start && PosAt(src.t, src.start, 1) == src.t[src.start]
  {
    assert PosAt(src.t, src.start, 1) == src.t[PosAt(src.t, src.start, 0)];
  }

  lemma PackedFacts(src: Source, w: seq<nat>)
    requires Sound(src) && Packed(src.l, w, src.t)
    ensures |src.l| <= |w| && Rotations.Bytes(src.l) && src.start < |src.l|
  {
  }

  // FAST: words hold a character and a link.

  class FastExpander {
    const tt: array<nat>
    var tPos: nat
    var k0: int
    var nblockUsed: int
    const saveNblock: nat
    var stateOutLen: int
    var stateOutCh: int
    var calculatedBlockCRC: bv32
    ghost const src: Source
    ghost var emitted: seq<int>

    ghost predicate Tables()
      reads tt
    {
      && |src.l| == saveNblock && Sound(src) && |src.t| == |src.l|
      && (forall k :: 0 <= k < |src.t| ==> 0 <= src.t[k] < |src.t|)
      && Packed(src.l, tt[..], src.t)
    }

    /** The saved state; `len` characters of the last run are still to be output. */
    ghost predicate Waiting(len: int)
      reads this, tt
    {
      && |src.l| == saveNblock && Tables()
      && Standing(src, nblockUsed, k0, stateOutCh, len, emitted, calculatedBlockCRC)
      && tPos == PosAt(src.t, src.start, nblockUsed + 1)
    }

    ghost predicate Valid()
      reads this, tt
    {
      Waiting(stateOutLen)
    }

    /** The tables are ready; the first character is fetched. */
    constructor (tt: array<nat>, origPtr: nat, nblock: nat, ghost src: Source)
      requires |src.l| == nblock && src.start == origPtr && Sound(src) && Packed(src.l, tt[..], src.t)
      requires |src.t| == |src.l| && (forall k :: 0 <= k < |src.t| ==> 0 <= src.t[k] < |src.t|)
      ensures Valid() && this.src == src && this.tt == tt && emitted == [] && stateOutLen == 0
    {
      hide Bytes, Packed, PosAt, Sound, Standing, Text;
      PackedFacts(src, tt[..]);
      PackedStep(src.l, tt[..], src.t, origPtr);
      PosStart(src);
      this.tt := tt;
      this.src := src;
      saveNblock := nblock;
      tPos := tt[origPtr] / 256;
      nblockUsed := 0;
      stateOutLen := 0;
      stateOutCh := 0;
      calculatedBlockCRC := 0xffff_ffff;
      emitted := [];
      new;
      k0 := GetFast(0);
      nblockUsed := 1;
      StandingStart(src, k0, stateOutCh);
    }

    /** Fetches one character. */
    method GetFast(ghost used: nat) returns (c: int)
      requires Tables() && tPos == PosAt(src.t, src.start, used + 1) && used < saveNblock + 2
      modifies this`tPos
      ensures c == Text(src)[used] && tPos == PosAt(src.t, src.start, used + 2)
    {
      hide Bytes, Packed, PosAt, Sound, Text;
      PosFacts(src, used);
      PackedFacts(src, tt[..]);
      PackedStep(src.l, tt[..], src.t, tPos);
      var w := tt[tPos];
      c := w % 256;
      tPos := w / 256;
    }

    /** Fetches the next run. A run of one character is reported apart, and then the length
        kept in the state is not the run's. */
    method NextRun() returns (one: bool)
      requires |src.l| == saveNblock && Tables() && 1 <= nblockUsed <= saveNblock
      requires tPos == PosAt(src.t, src.start, nblockUsed + 1)
      requires Characters(src) && k0 == Text(src)[nblockUsed - 1]
      modifies this`tPos, this`k0, this`nblockUsed, this`stateOutLen, this`stateOutCh
      ensures 1 <= nblockUsed && tPos == PosAt(src.t, src.start, nblockUsed + 1) && stateOutCh == old(k0)
      ensures RunTaken(src, old(nblockUsed) - 1, nblockUsed, k0, if one then 1 else stateOutLen)
    {
      hide Tables, Text, PosAt;
      ghost var p := nblockUsed - 1;
      RunCases(src, p);
      stateOutCh := k0;
      var k1 := GetFast(p + 1);
      nblockUsed := nblockUsed + 1;
      if k1 != k0 { k0 := k1; return true; }
      if nblockUsed == saveNblock + 1 { return true; }
      one := false;
      stateOutLen := 2;
      k1 := GetFast(p + 2);
      nblockUsed := nblockUsed + 1;
      if nblockUsed == saveNblock + 1 { return; }
      if k1 != k0 { k0 := k1; return; }
      stateOutLen := 3;
      k1 := GetFast(p + 3);
      nblockUsed := nblockUsed + 1;
      if nblockUsed == saveNblock + 1 { return; }
      if k1 != k0 { k0 := k1; return; }
      k1 := GetFast(p + 4);
      nblockUsed := nblockUsed + 1;
      stateOutLen := k1 + 4;
      k0 := GetFast(p + 5);
      nblockUsed := nblockUsed + 1;
    }

    /** Outputs one character of the pending run. */
    method PutOne(ghost len: int)
      requires Waiting(len) && len > 0
      modifies this`calculatedBlockCRC, this`emitted
      ensures Waiting(len - 1) && emitted == old(emitted) + [stateOutCh]
    {
      hide Tables, PosAt, Standing;
      StandingFacts(src, nblockUsed, k0, stateOutCh, len, emitted, calculatedBlockCRC);
      StandingEmit(src, nblockUsed, k0, stateOutCh, len, emitted, calculatedBlockCRC);
      emitted := emitted + [stateOutCh];
      calculatedBlockCRC := Update(calculatedBlockCRC, Byte(stateOutCh));
    }

    /** Outputs the pending run but for its last character. */
    method PutRun(availOut: nat) returns (out: seq<int>, avail: nat)
      requires Valid() && stateOutLen > 0
      modifies this`stateOutLen, this`calculatedBlockCRC, this`emitted
      ensures Valid() && emitted == old(emitted) + out && |out| + avail == availOut
      ensures stateOutLen > 0 && (avail > 0 ==> stateOutLen == 1)
    {
      hide Tables, PosAt, Standing;
      out := [];
      avail := availOut;
      while true
        invariant Valid() && emitted == old(emitted) + out && |out| + avail == availOut && stateOutLen > 0
        decreases stateOutLen
      {
        if avail == 0 { return; }
        if stateOutLen == 1 { return; }
        PutOne(stateOutLen);
        out := out + [stateOutCh];
        stateOutLen := stateOutLen - 1;
        avail := avail - 1;
      }
    }

    /** Outputs as much as there is room for. */
    method Expand(availOut: nat) returns (out: seq<int>, corrupt: bool)
      requires Valid() && stateOutLen >= 0
      modifies this`tPos, this`k0, this`nblockUsed, this`stateOutLen, this`stateOutCh, this`calculatedBlockCRC
      modifies this`emitted
      ensures !corrupt ==> Valid() && stateOutLen >= 0
      ensures Served(src, nblockUsed, stateOutLen, old(emitted), out, emitted, availOut, corrupt)
    {
      hide Characters, PosAt, RunLength.Expanded, RunLength.Whole, RunTaken, Served, Sound, Standing, Tables, Text;
      out := [];
      var avail := availOut;
      var one := false;
      corrupt := false;
      while true
        invariant Waiting(if one then 1 else stateOutLen) && (one || stateOutLen >= 0)
        invariant emitted == old(emitted) + out && |out| + avail == availOut && !corrupt
        decreases saveNblock + 2 - nblockUsed
      {
        ghost var e := old(emitted);
        if one || stateOutLen > 0 {
          if !one {
            var more;
            more, avail := PutRun(avail);
            out := out + more;
            assert emitted == e + out;
          }
          if avail == 0 {
            stateOutLen := if one then 1 else stateOutLen;
            ServedNow(src, nblockUsed, k0, stateOutCh, stateOutLen, emitted, calculatedBlockCRC, e, out, availOut,
              false);
            return;
          }
          PutOne(1);
          out := out + [stateOutCh];
          avail := avail - 1;
          one := false;
          assert emitted == e + out;
        }
        StandingFacts(src, nblockUsed, k0, stateOutCh, 0, emitted, calculatedBlockCRC);
        if nblockUsed > saveNblock + 1 {
          corrupt := true;
          stateOutLen := 0;
          ServedNow(src, nblockUsed, k0, stateOutCh, 0, emitted, calculatedBlockCRC, e, out, availOut, true);
          return;
        }
        if nblockUsed == saveNblock + 1 {
          stateOutLen := 0;
          ServedNow(src, nblockUsed, k0, stateOutCh, 0, emitted, calculatedBlockCRC, e, out, availOut, false);
          return;
        }
        ghost var u, k, ch := nblockUsed, k0, stateOutCh;
        one := NextRun();
        StandingNext(src, u, k, ch, emitted, calculatedBlockCRC, nblockUsed, k0, if one then 1 else stateOutLen);
        StandingFacts(src, nblockUsed, k0, stateOutCh, if one then 1 else stateOutLen, emitted, calculatedBlockCRC);
      }
    }
  }

  /** Both expanders, at the same point and given the same room, output the same. As long as room
      is left they agree on corruption, too; when it runs out just at the end of a last run that
      lacks its count, one may find this now and the other when it is called again. */
  lemma SameOutput(src: Source, before: seq<int>, avail: nat, used: int, len: int, out: seq<int>, after: seq<int>,
                   corrupt: bool,
                   used2: int, len2: int, out2: seq<int>, after2: seq<int>, corrupt2: bool)
    requires Served(src, used, len, before, out, after, avail, corrupt)
    requires Served(src, used2, len2, before, out2, after2, avail, corrupt2)
    ensures out == out2 && after == after2 && (|out| < avail ==> corrupt == corrupt2)
  {
    var all := RunLength.Expanded(Text(src), |src.l|, 0);
    assert after == all[..|after|] && after2 == all[..|after2|];
    assert after[|before|..] == out && after2[|before|..] == out2;
  }
}
