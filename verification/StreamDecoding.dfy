/** Decompressing a whole stream: blocks are decoded, expanded and checked in turn. */
module StreamDecoding {
  import opened BlockCrc
  import opened CanonicalCodes
  import opened Counting
  import opened Decompressor
  import opened Expanders
  import opened InverseBwt
  import Rotations
  import RunLength
  import opened Sequences

  /** Every column has links. */
  lemma LinksExist(l: seq<int>)
    ensures exists t :: Links(l, t)
  {
    var n := |l|;
    var p := seq(n, i requires 0 <= i < n => StableCell(l, i));
    forall i, j | 0 <= i < j < n ensures p[i] != p[j] { CellsDistinct(l, i, j); }
    var t: seq<int> := [];
    while |t| < n
      invariant |t| <= n && forall x :: 0 <= x < |t| ==> 0 <= t[x] < n && p[t[x]] == x
    {
      var k := Surjective(p, n, |t|);
      t := t + [k];
    }
    assert Links(l, t);
  }

  ghost function ChosenLinks(l: seq<int>): (t: seq<int>)
    ensures Links(l, t)
  {
    LinksExist(l);
    var t :| Links(l, t);
    t
  }

  /** What a block at the point of output stands for. */
  ghost predicate Outputs(s: State) {
    s.at == Output && s.origPtr < |s.tt| && Rotations.Bytes(s.tt)
  }

  ghost function SourceOf(s: State): (src: Source)
    requires Outputs(s)
    ensures Sound(src)
  {
    Source(s.tt, ChosenLinks(s.tt), s.origPtr)
  }

  ghost function BlockText(s: State): seq<int>
    requires Outputs(s)
  {
    SoundFacts(SourceOf(s));
    RunLength.Expanded(Text(SourceOf(s)), |s.tt|, 0)
  }

  ghost predicate BlockWhole(s: State)
    requires Outputs(s)
  {
    SoundFacts(SourceOf(s));
    RunLength.Whole(Text(SourceOf(s)), |s.tt|, 0)
  }

  /** The last run of the block lacks its count. */
  ghost predicate CutShort(s: State) {
    Outputs(s) && !BlockWhole(s)
  }

  datatype Verdict = Finished | Unfinished | Damaged(status: Status) | Unsupported

  /** The bytes output and how decompression ended. */
  datatype Decoded = Decoded(data: seq<int>, verdict: Verdict)

  lemma {:induction false} DriveTakes(s: State, w: seq<bool>)
    requires Waiting(s)
    ensures Drive(s, w).Done? ==> |Drive(s, w).rest| < |w|
    decreases |w|
  {
    hide Advance, Good;
    var n := Need(s);
    if |w| >= n {
      AdvanceMoves(s, Value(w[..n]));
      match Advance(s, Value(w[..n]))
      case Return(code, s1) =>
      case Continue(s1) => DriveTakes(s1, w[n..]);
    }
  }

  function NextBlock(s: State): State {
    s.(at := BlkHdr(1))
  }

  function AsWord(c: bv32): nat {
    c as nat
  }

  /** Decompressing from a state: a block that is complete is output, its check value is
      compared with the stored one and taken into that of the stream, and the next one is
      decoded; at the end the check values of the stream are compared. */
  ghost function Decompressed(s: State, w: seq<bool>, combined: bv32): Decoded
    requires Waiting(s)
    decreases |w|, 0
  {
    DriveTakes(s, w);
    match Drive(s, w)
    case Short(s1, rest) => Decoded([], Unfinished)
    case Done(code, s1, rest) =>
      if code == StreamEnd then
        Decoded([], if AsWord(combined) == s1.storedCombinedCRC then Finished else Damaged(DataError))
      else if code != Ok || !Outputs(s1) then Decoded([], Damaged(code))
      else AfterBlock(s1, rest, combined)
  }

  /** From a complete block on. */
  ghost function AfterBlock(s: State, w: seq<bool>, combined: bv32): Decoded
    requires Outputs(s)
    decreases |w|, 1
  {
    if s.randomised then Decoded([], Unsupported)
    else
      var data := BlockText(s);
      if !BlockWhole(s) || AsWord(CheckValue(data)) != s.storedBlockCRC then Decoded(data, Damaged(DataError))
      else
        var r := Decompressed(NextBlock(s), w, Combine(combined, CheckValue(data)));
        Decoded(data + r.data, r.verdict)
  }
}
