/** The decompressor as a coroutine over bytes: it takes in bytes only when the bits at hand do
    not suffice, and hands back control when bytes run out or a stage is over.
 */
module Coroutine {
  import opened Bits
  import opened BitWriters
  import opened CanonicalCodes
  import opened Decompressor
  import opened Words

  /** The saved state and the buffer, whose low `live` bits are still to be read. */
  datatype Machine = Machine(s: State, buff: nat, live: nat)

  ghost predicate Ready(m: Machine) {
    Waiting(m.s) && m.live <= 32
  }

  function Pending(m: Machine): seq<bool> {
    Word(m.buff, m.live)
  }

  /** The next n bits: (bsBuff >> (bsLive - n)) & ((1 << n) - 1) */
  function NextBits(m: Machine, n: nat): nat
    requires n <= m.live
  {
    m.buff / Pow2(m.live - n) % Pow2(n)
  }

  /** Taking in a byte: (bsBuff << 8) | byte, in 32 bits */
  function Load(m: Machine, byte: nat): Machine {
    m.(buff := Or(m.buff * 256 % TOP, byte), live := m.live + 8)
  }

  datatype Stop = Stop(code: Status, m: Machine, rest: seq<nat>, starved: bool)

  /** Runs until bytes run out or the machine returns. */
  ghost function Run(m: Machine, bytes: seq<nat>): Stop
    requires Ready(m)
    decreases 8 * |bytes| + m.live, |bytes|
  {
    var n := Need(m.s);
    if m.live >= n then
      var v := NextBits(m, n);
      AdvanceMoves(m.s, v);
      match Advance(m.s, v)
      case Return(code, s1) => Stop(code, m.(s := s1, live := m.live - n), bytes, false)
      case Continue(s1) => Run(m.(s := s1, live := m.live - n), bytes)
    else if bytes == [] then Stop(Ok, m, [], true)
    else Run(Load(m, bytes[0]), bytes[1..])
  }

  /** Suspension is invisible: handing over the bytes in two parts gives the same return code,
      the same saved state and buffer, and leaves the same bytes, as handing them over at once. */
  lemma {:induction false} RunSplit(m: Machine, a: seq<nat>, b: seq<nat>)
    requires Ready(m)
    ensures var r := Run(m, a);
      if r.starved then r.rest == [] && Ready(r.m) && Run(m, a + b) == Run(r.m, b)
      else Run(m, a + b) == r.(rest := r.rest + b)
    decreases 8 * |a| + m.live, |a|
  {
    hide Advance, Good, Need, NextBits, Load;
    NeedSome(m.s);
    LoadLive(m);
    var n := Need(m.s);
    if m.live >= n {
      var v := NextBits(m, n);
      AdvanceMoves(m.s, v);
      match Advance(m.s, v)
      case Return(code, s1) =>
      case Continue(s1) => RunSplit(m.(s := s1, live := m.live - n), a, b);
    } else if a == [] {
      assert a + b == b;
    } else {
      assert (a + b)[0] == a[0] && (a + b)[1..] == a[1..] + b;
      RunSplit(Load(m, a[0]), a[1..], b);
    }
  }

  lemma NeedSome(s: State)
    requires Waiting(s)
    ensures 1 <= Need(s) <= 20
  {
    hide Good;
  }

  lemma LoadLive(m: Machine)
    ensures forall byte: nat :: Load(m, byte).live == m.live + 8 && Load(m, byte).s == m.s
  {
  }

  lemma NextBitsValue(m: Machine, n: nat)
    requires n <= m.live
    ensures NextBits(m, n) == Value(Pending(m)[..n])
    ensures Pending(m)[n..] == Word(m.buff, m.live - n)
  {
    hide Word, Value, Shr, Pow2;
    Pow2Positive(m.live - n);
    ShrIsDivision(m.buff, m.live - n);
    WordPrefix(m.buff, m.live, n);
    ValueOfWord(m.buff / Pow2(m.live - n), n);
    WordSuffix(m.buff, m.live, m.live - n);
  }

  lemma ByteBelow(b: nat)
    ensures b * 256 % TOP == (b % 0x100_0000) * 256
  {
  }

  lemma LoadPending(m: Machine, byte: nat)
    requires m.live <= 24 && byte < 256
    ensures Pending(Load(m, byte)) == Pending(m) + Word(byte, 8)
  {
    hide Or, Pow2, Word;
    Pow2Values();
    var q := m.buff % Pow2(24);
    ByteBelow(m.buff);
    OrIsSum(q, byte, 8);
    WordAppend(q, m.live, byte, 8);
    WordModulo(m.buff, m.live, 24);
  }

  /** What a run comes to after one step. */
  ghost function Onward(o: Outcome, x: seq<bool>): Result
    requires Moves(o)
  {
    if o.Return? then Done(o.code, o.s, x) else Drive(o.s, x)
  }

  lemma DriveNext(s: State, w: seq<bool>)
    requires Waiting(s) && |w| >= Need(s)
    ensures Moves(Advance(s, Value(w[..Need(s)])))
    ensures Drive(s, w) == Onward(Advance(s, Value(w[..Need(s)])), w[Need(s)..])
  {
    AdvanceMoves(s, Value(w[..Need(s)]));
  }

  lemma DriveShort(s: State, w: seq<bool>)
    requires Waiting(s) && |w| < Need(s)
    ensures Drive(s, w) == Short(s, w)
  {
  }

  lemma BitsOfFirst(bytes: seq<nat>)
    requires bytes != []
    ensures BitsOf(bytes) == Word(bytes[0], 8) + BitsOf(bytes[1..])
  {
    assert bytes == [bytes[0]] + bytes[1..];
    BitsOfConcat([bytes[0]], bytes[1..]);
    BitsOfNext([], bytes[0]);
    assert [] + [bytes[0]] == [bytes[0]];
  }

  /** Running on bytes is running on their bits. */
  lemma {:induction false} RunDrive(m: Machine, bytes: seq<nat>)
    requires Ready(m) && forall i :: 0 <= i < |bytes| ==> bytes[i] < 256
    ensures var r := Run(m, bytes);
      Drive(m.s, Pending(m) + BitsOf(bytes))
         == if r.starved then Short(r.m.s, Pending(r.m)) else Done(r.code, r.m.s, Pending(r.m) + BitsOf(r.rest))
    decreases 8 * |bytes| + m.live, |bytes|
  {
    hide Drive, Advance, Good, Or, BitsOf, Value, Pow2, Need, NextBits, Word;
    var n := Need(m.s);
    var w := Pending(m) + BitsOf(bytes);
    if m.live >= n {
      var v := NextBits(m, n);
      NextBitsValue(m, n);
      DriveNext(m.s, w);
      assert w[..n] == Pending(m)[..n] && w[n..] == Pending(m)[n..] + BitsOf(bytes);
      match Advance(m.s, v)
      case Return(code, s1) =>
      case Continue(s1) => RunDrive(m.(s := s1, live := m.live - n), bytes);
    } else if bytes == [] {
      NoBits();
      assert w == Pending(m);
      DriveShort(m.s, w);
    } else {
      BitsOfFirst(bytes);
      LoadPending(m, bytes[0]);
      assert w == Pending(Load(m, bytes[0])) + BitsOf(bytes[1..]);
      RunDrive(Load(m, bytes[0]), bytes[1..]);
    }
  }

  lemma NoBits()
    ensures BitsOf([]) == []
  {
  }

  lemma RunNext(m: Machine, bytes: seq<nat>)
    requires Ready(m) && m.live >= Need(m.s)
    ensures Moves(Advance(m.s, NextBits(m, Need(m.s))))
    ensures Run(m, bytes) == match Advance(m.s, NextBits(m, Need(m.s)))
      case Return(code, s1) => Stop(code, m.(s := s1, live := m.live - Need(m.s)), bytes, false)
      case Continue(s1) => Run(m.(s := s1, live := m.live - Need(m.s)), bytes)
  {
    hide Advance, Good, NextBits, Need;
    AdvanceMoves(m.s, NextBits(m, Need(m.s)));
  }

  lemma RunLoad(m: Machine, bytes: seq<nat>)
    requires Ready(m) && m.live < Need(m.s) && bytes != []
    ensures Ready(Load(m, bytes[0])) && Run(m, bytes) == Run(Load(m, bytes[0]), bytes[1..])
  {
  }

  lemma RunStarved(m: Machine)
    requires Ready(m) && m.live < Need(m.s)
    ensures Run(m, []) == Stop(Ok, m, [], true)
  {
  }
}
