/** The compressor's front: bytes gather into runs, runs go into the block. */
module RunCoder {
  import opened BlockCrc
  import opened MoveToFront
  import opened RunLength

  /** No byte is pending. */
  const NO_CHAR: int := 256

  ghost function Held(ch: int, len: int): seq<Pair> {
    if 0 <= ch < 256 && len > 0 then [Pair(ch, len)] else []
  }

  /** The block holds the packed runs, and the check value and the marks fit them. */
  ghost predicate Filled(block: seq<int>, n: int, inUse: seq<bool>, crc: bv32, ps: seq<Pair>) {
    && 0 <= n <= |block| && |inUse| == 256 && block[..n] == Squeezed(ps) && crc == Register(Plain(ps))
    && forall c :: 0 <= c < 256 ==> (inUse[c] <==> c in block[..n])
  }

  /** The runs so far and the pending one. */
  ghost predicate Gathered(ps: seq<Pair>, ch: int, len: int) {
    && Runs(ps + Held(ch, len)) && 0 <= ch <= NO_CHAR && 0 <= len <= 255 && (ch == NO_CHAR <==> len == 0)
  }

  lemma RunsMore(ps: seq<Pair>, p: Pair)
    requires Runs(ps) && 1 <= p.len <= 255 && 0 <= p.ch < 256
    requires ps != [] && ps[|ps| - 1].ch == p.ch ==> ps[|ps| - 1].len == 255
    ensures Runs(ps + [p])
  {
  }

  lemma RunsLess(ps: seq<Pair>, p: Pair)
    requires Runs(ps + [p])
    ensures Runs(ps) && 1 <= p.len <= 255 && 0 <= p.ch < 256
    ensures ps != [] && ps[|ps| - 1].ch == p.ch ==> ps[|ps| - 1].len == 255
  {
    var qs := ps + [p];
    assert qs[|ps|] == p;
    forall i | 0 <= i < |ps| ensures qs[i] == ps[i] {
    }
    if ps != [] { assert qs[|ps| - 1] == ps[|ps| - 1]; }
  }

  /** A byte more in the pending run. */
  lemma Lengthened(ps: seq<Pair>, ch: int, len: int)
    requires Gathered(ps, ch, len) && ch < NO_CHAR && len < 255
    ensures Gathered(ps, ch, len + 1)
    ensures Plain(ps + Held(ch, len + 1)) == Plain(ps + Held(ch, len)) + [ch]
  {
    hide Runs, Plain, Squeezed, Repeat, PairBytes;
    RunsLess(ps, Pair(ch, len));
    RunsMore(ps, Pair(ch, len + 1));
    PlainMore(ps, Pair(ch, len));
    PlainMore(ps, Pair(ch, len + 1));
    RepeatMore(ch, len);
    assert Plain(ps) + (Repeat(ch, len) + [ch]) == Plain(ps) + Repeat(ch, len) + [ch];
  }

  lemma RepeatMore(ch: int, len: nat)
    ensures Repeat(ch, len + 1) == Repeat(ch, len) + [ch] && Repeat(ch, 1) == [ch]
  {
  }

  lemma PlainMore(ps: seq<Pair>, p: Pair)
    ensures Plain(ps + [p]) == Plain(ps) + Repeat(p.ch, p.len) && Squeezed(ps + [p]) == Squeezed(ps) + PairBytes(p)
  {
    assert (ps + [p])[..|ps|] == ps;
  }

  /** The pending run has gone into the block and another byte is pending. */
  lemma Replaced(ps: seq<Pair>, ch: int, len: int, c: int)
    requires Gathered(ps, ch, len) && 0 <= c < 256 && (c != ch || len == 255) && (ch == NO_CHAR ==> ps == [])
    ensures Gathered(ps + Held(ch, len), c, 1)
    ensures Plain(ps + Held(ch, len) + Held(c, 1)) == Plain(ps + Held(ch, len)) + [c]
  {
    hide Runs, Plain, Squeezed, Repeat, PairBytes;
    var qs := ps + Held(ch, len);
    assert Held(c, 1) == [Pair(c, 1)];
    if ch < NO_CHAR { assert qs[|qs| - 1] == Pair(ch, len); } else { assert qs == []; }
    RunsMore(qs, Pair(c, 1));
    PlainMore(qs, Pair(c, 1));
    RepeatMore(c, 0);
  }

  class RunCoder {
    const block: array<int>
    var nblock: int
    const inUse: array<bool>
    var stateInCh: int
    var stateInLen: int
    var blockCRC: bv32
    ghost var pairs: seq<Pair>

    ghost predicate Valid()
      reads this, block, inUse
    {
      && inUse.Length == 256 && Filled(block[..], nblock, inUse[..], blockCRC, pairs)
      && Gathered(pairs, stateInCh, stateInLen)
    }

    /** What the block and the pending run stand for. */
    ghost function Text(): seq<int>
      reads this
    {
      Plain(pairs + Held(stateInCh, stateInLen))
    }

    constructor (capacity: nat)
      ensures Valid() && Text() == [] && nblock == 0 && pairs == [] && stateInCh == NO_CHAR && block.Length == capacity
      ensures fresh(block) && fresh(inUse)
    {
      block := new int[capacity];
      inUse := new bool[256](i => false);
      nblock := 0;
      stateInCh := NO_CHAR;
      stateInLen := 0;
      blockCRC := 0xffff_ffff;
      pairs := [];
    }

    /** Starts the next block; a pending run stays pending. */
    method PrepareNewBlock()
      requires Valid()
      modifies this`nblock, this`blockCRC, this`pairs, inUse
      ensures Valid() && nblock == 0 && pairs == [] && stateInCh == old(stateInCh) && stateInLen == old(stateInLen)
      ensures Text() == Plain(Held(stateInCh, stateInLen))
    {
      hide Gathered, Filled;
      nblock := 0;
      blockCRC := 0xffff_ffff;
      assert inUse.Length == 256;
      for i := 0 to 256
        invariant forall c :: 0 <= c < i ==> !inUse[c]
        modifies inUse
      {
        inUse[i] := false;
      }
      EmptyBlock(block[..], inUse[..], pairs, stateInCh, stateInLen);
      pairs := [];
    }

    /** Puts the pending run into the block. */
    method AddPairToBlock()
      requires Valid() && stateInCh < NO_CHAR && nblock + 5 <= block.Length
      modifies this`nblock, this`blockCRC, this`pairs, block, inUse
      ensures Filled(block[..], nblock, inUse[..], blockCRC, pairs)
      ensures pairs == old(pairs) + [Pair(stateInCh, stateInLen)] && old(nblock) < nblock <= old(nblock) + 5
    {
      ghost var p := Pair(stateInCh, stateInLen);
      ghost var ps := pairs;
      HeldPair(ps, stateInCh, stateInLen);
      UpdateCheckValue(Plain(ps));
      WritePair();
      PlainMore(ps, p);
      pairs := pairs + [p];
    }

    /** Takes the pending run into the check value. */
    method UpdateCheckValue(ghost data: seq<int>)
      requires 0 <= stateInLen && blockCRC == Register(data)
      modifies this`blockCRC
      ensures blockCRC == Register(data + Repeat(stateInCh, stateInLen))
    {
      hide Register, Update, Byte;
      assert data + Repeat(stateInCh, 0) == data;
      for i := 0 to stateInLen
        invariant blockCRC == Register(data + Repeat(stateInCh, i))
      {
        RegisterNext(data + Repeat(stateInCh, i), stateInCh);
        assert data + Repeat(stateInCh, i) + [stateInCh] == data + Repeat(stateInCh, i + 1);
        blockCRC := Update(blockCRC, Byte(stateInCh));
      }
    }

    /** Writes the pending run's bytes and marks them as in use. */
    method WritePair()
      requires inUse.Length == 256 && 0 <= stateInCh < 256 && 1 <= stateInLen <= 255
      requires 0 <= nblock && nblock + 5 <= block.Length
      modifies this`nblock, block, inUse
      ensures nblock == old(nblock) + |PairBytes(Pair(stateInCh, stateInLen))| <= old(nblock) + 5
      ensures block[..nblock] == old(block[..nblock]) + PairBytes(Pair(stateInCh, stateInLen))
      ensures forall c :: 0 <= c < 256 ==>
        (inUse[c] <==> (old(inUse[c]) || c in PairBytes(Pair(stateInCh, stateInLen))))
    {
      var ch, n := stateInCh, nblock;
      inUse[ch] := true;
      if stateInLen == 1 {
        block[n] := ch;
        nblock := n + 1;
      } else if stateInLen == 2 {
        block[n], block[n + 1] := ch, ch;
        nblock := n + 2;
      } else if stateInLen == 3 {
        block[n], block[n + 1], block[n + 2] := ch, ch, ch;
        nblock := n + 3;
      } else {
        inUse[stateInLen - 4] := true;
        block[n], block[n + 1], block[n + 2], block[n + 3] := ch, ch, ch, ch;
        block[n + 4] := stateInLen - 4;
        nblock := n + 5;
      }
      PairMembers(ch, stateInLen);
    }

    /** Ends the pending run. */
    method FlushRL()
      requires Valid() && nblock + 5 <= block.Length
      modifies this`nblock, this`blockCRC, this`pairs, this`stateInCh, this`stateInLen, block, inUse
      ensures Valid() && stateInCh == NO_CHAR && Text() == old(Text()) == Plain(pairs)
      ensures old(nblock) <= nblock <= old(nblock) + 5
    {
      if stateInCh < NO_CHAR { AddPairToBlock(); }
      stateInCh := NO_CHAR;
      stateInLen := 0;
      assert pairs + Held(stateInCh, stateInLen) == pairs;
    }

    /** Takes one byte of input. */
    method AddCharToBlock(c: int)
      requires Valid() && 0 <= c < 256 && nblock + 5 <= block.Length && (stateInCh == NO_CHAR ==> pairs == [])
      modifies this`nblock, this`blockCRC, this`pairs, this`stateInCh, this`stateInLen, block, inUse
      ensures Valid() && stateInCh == c && Text() == old(Text()) + [c]
      ensures old(nblock) <= nblock <= old(nblock) + 5
    {
      hide Filled, Gathered, Runs, Plain, Held;
      ghost var ps, h, l := pairs, stateInCh, stateInLen;
      HeldFacts(ps, h, l);
      if c != stateInCh && stateInLen == 1 {
        Replaced(ps, h, l, c);
        AddPairToBlock();
        stateInCh := c;
      } else if c != stateInCh || stateInLen == 255 {
        Replaced(ps, h, l, c);
        if stateInCh < NO_CHAR { AddPairToBlock(); } else { assert ps + Held(h, l) == ps; }
        stateInCh := c;
        stateInLen := 1;
      } else {
        Lengthened(ps, h, l);
        stateInLen := stateInLen + 1;
      }
    }
  }

  lemma EmptyBlock(block: seq<int>, inUse: seq<bool>, ps: seq<Pair>, ch: int, len: int)
    requires |inUse| == 256 && (forall c :: 0 <= c < 256 ==> !inUse[c]) && Gathered(ps, ch, len)
    ensures Filled(block, 0, inUse, 0xffff_ffff, []) && Gathered([], ch, len)
    ensures Plain([] + Held(ch, len)) == Plain(Held(ch, len))
  {
    assert [] + Held(ch, len) == Held(ch, len);
    if ch < NO_CHAR { RunsLast(ps, Pair(ch, len)); }
  }

  lemma HeldFacts(ps: seq<Pair>, ch: int, len: int)
    requires Gathered(ps, ch, len)
    ensures 0 <= ch <= NO_CHAR && 0 <= len <= 255 && (ch == NO_CHAR <==> len == 0)
    ensures Held(ch, len) == if ch < NO_CHAR then [Pair(ch, len)] else []
  {
  }

  lemma HeldPair(ps: seq<Pair>, ch: int, len: int)
    requires Gathered(ps, ch, len) && ch < NO_CHAR
    ensures Held(ch, len) == [Pair(ch, len)] && 1 <= len <= 255 && 0 <= ch < 256
  {
  }

  lemma PairMembers(ch: int, len: nat)
    requires 1 <= len <= 255
    ensures forall c :: c in PairBytes(Pair(ch, len)) <==> c == ch || (len >= 4 && c == len - 4)
  {
    var w := PairBytes(Pair(ch, len));
    assert w[0] == ch && (len >= 4 ==> w[4] == len - 4);
  }

  lemma RunsLast(ps: seq<Pair>, p: Pair)
    requires Runs(ps + [p])
    ensures Runs([p])
  {
    RunsLess(ps, p);
  }
}
