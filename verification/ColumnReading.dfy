/** What the decompressor makes of any bits at the place of the coded symbols of a block. */
module ColumnReading {
  import opened Bits
  import opened BlockDecoding
  import opened CanonicalCodes
  import opened CodeTables
  import opened ColumnDecoding
  import opened Coroutine
  import opened Decompressor
  import opened HeaderReading
  import opened MoveToFront
  import opened ReadableFormat
  import opened StreamFormat
  import opened SymbolDecoding
  import opened SymbolMaps
  import SymbolReading
  import opened Words

  // One symbol.

  /** Between symbols; i have been asked for. */
  ghost predicate Before(s: State, i: nat) {
    && Tabled(s) && |s.inUse| == 256
    && (if i % G_SIZE == 0 then s.groupPos == 0 && s.groupNo == i / G_SIZE - 1
        else s.groupPos == G_SIZE - i % G_SIZE && s.groupNo == i / G_SIZE && s.gSel == s.selector[s.groupNo])
  }

  /** The state once symbol i has been asked for, with a table left for it. */
  function AskedAny(s: State, i: nat, k: int): State
    requires i / G_SIZE < |s.selector| && 0 <= s.selector[i / G_SIZE] < |s.len|
  {
    var g := s.selector[i / G_SIZE];
    s.(groupNo := i / G_SIZE, groupPos := G_SIZE - 1 - i % G_SIZE, gSel := g, zn := MinLen(s.len[g]), at := Mtf(k))
  }

  /** A symbol is asked for: it is refused exactly when no selector is left. */
  lemma AskAny(s: State, i: nat, k: int)
    requires Before(s, i) && k % 2 == 1
    ensures Moves(StartSymbol(s, k)) && Tabled(s)
    ensures if HasTable(s.selector, s.len, i)
      then StartSymbol(s, k) == Continue(AskedAny(s, i, k)) && Waiting(AskedAny(s, i, k)) &&
        Before(AskedAny(s, i, k), i + 1)
      else StartSymbol(s, k).Return? && StartSymbol(s, k).code == DataError
  {
    hide Chars, MinLen;
    StartSymbolMoves(s, k);
    NextPlace(i);
  }

  /** The first bits of a code. */
  lemma FirstAmid(s: State, i: nat, k: int, z: nat)
    requires Before(s, i) && HasTable(s.selector, s.len, i) && k % 2 == 1
    requires Waiting(AskedAny(s, i, k)) && Before(AskedAny(s, i, k), i + 1)
    requires z < Pow2(MinLen(s.len[s.selector[i / G_SIZE]]))
    ensures var l := s.len[s.selector[i / G_SIZE]]; var a := AskedAny(s, i, k);
      && Need(a) == MinLen(l) && SymbolReading.Amid(a.(zvec := z), l) && a.zn == MinLen(l)
      && Advance(a, z) == CheckCode(a.(zvec := z), k)
  {
    hide CheckCode, Chars, Pow2, Times;
    var a := AskedAny(s, i, k);
    SameInUse(s, a);
    SameInUse(s, a.(zvec := z));
    CharsFew(s.inUse);
    FirstNone(s.len[s.selector[i / G_SIZE]], MinLen(s.len[s.selector[i / G_SIZE]]));
    FirstBitsMtf(a, k, z);
  }

  lemma LongerWords(l: seq<nat>, w: seq<bool>)
    requires |w| < MinLen(l)
    ensures SymbolReading.NoneBegins(l, w)
  {
    hide MinLen, Word, First, Times, Pow2;
    MinMax(l);
    forall v | HasCode(l, v) ensures !(CodeWord(l, MinLen(l), v) <= w) {
      assert |CodeWord(l, MinLen(l), v)| == l[v];
    }
  }

  lemma BeforeAlike(s: State, s1: State, i: nat)
    requires Before(s, i) && SymbolReading.CodeOnly(s, s1)
    ensures Before(s1, i) && NInUse(s1) == NInUse(s)
  {
    hide Chars, GoodLengths;
  }

  lemma AskedAlike(s: State, i: nat, k: int, z: int, s1: State)
    requires i / G_SIZE < |s.selector| && 0 <= s.selector[i / G_SIZE] < |s.len|
    requires SymbolReading.CodeOnly(AskedAny(s, i, k).(zvec := z), s1)
    ensures Alike(s, s1)
  {
    hide MinLen;
  }

  lemma ZvecOnly(s: State, z: int)
    ensures SymbolReading.CodeOnly(s, s.(zvec := z))
  {
  }

  lemma ShorterRest(s: State, i: nat, v: int, w: seq<bool>, rest: seq<bool>)
    requires Before(s, i) && HasTable(s.selector, s.len, i) && HasCode(s.len[s.selector[i / G_SIZE]], v)
    requires var l := s.len[s.selector[i / G_SIZE]]; w == CodeWord(l, MinLen(l), v) + rest
    ensures 0 <= v && |rest| < |w|
  {
    hide MinLen, Chars, Pow2, Times, First, Word;
    var l := s.len[s.selector[i / G_SIZE]];
    assert GoodLengths(l) && l[v] >= 1;
  }

  /** The run fails, no selector being left or no code word beginning the bits, or reads a symbol. */
  lemma SymbolFound(s: State, i: nat, k: int, w: seq<bool>)
    returns (found: bool, v: int, s1: State, rest: seq<bool>)
    requires Before(s, i) && k % 2 == 1
    ensures Tabled(s) && Moves(StartSymbol(s, k))
    ensures !found ==> Fails(Onward(StartSymbol(s, k), w), DataError)
    ensures !found && HasTable(s.selector, s.len, i) ==>
      SymbolReading.NoneBegins(s.len[s.selector[i / G_SIZE]], w)
    ensures found ==> HasTable(s.selector, s.len, i)
    ensures found ==> var l := s.len[s.selector[i / G_SIZE]];
      HasCode(l, v) && w == CodeWord(l, MinLen(l), v) + rest
    ensures found ==> Alike(s, s1) && Before(s1, i + 1) && Tabled(s1) && 0 <= v < NInUse(s1) + 2
    ensures found ==> Moves(Take(s1, k, v)) && Onward(StartSymbol(s, k), w) == Onward(Take(s1, k, v), rest)
    ensures found ==> |rest| < |w|
  {
    hide Advance, Alike, AskedAny, Before, CheckCode, CodeWord, Drive, HasCode, MinLen, Moves, NInUse, Need, Onward,
      Pow2, StartSymbol, SymbolReading.Amid, SymbolReading.CodeOnly, SymbolReading.NoneBegins, Tabled, Take, Value,
      Waiting, Word;
    found, v, s1, rest := false, 0, s, [];
    AskAny(s, i, k);
    OnwardParts(StartSymbol(s, k), w);
    if HasTable(s.selector, s.len, i) {
      var a := AskedAny(s, i, k);
      var l := s.len[s.selector[i / G_SIZE]];
      FirstAmid(s, i, k, 0);
      if |w| < MinLen(l) {
        DriveShort(a, w);
        LongerWords(l, w);
      } else {
        var z := WordAhead(w, MinLen(l));
        FirstAmid(s, i, k, z);
        DriveNext(a, w);
        var b := a.(zvec := z);
        found, v, s1, rest := SymbolReading.CodeFound(b, l, k, w[MinLen(l)..]);
        ZvecOnly(a, z);
        if found {
          BeforeAlike(a, b, i + 1);
          BeforeAlike(b, s1, i + 1);
          AskedAlike(s, i, k, z, s1);
          ShorterRest(s, i, v, w, rest);
        }
      }
    }
  }

  // Runs that are too long.

  /** A pending run for which there is no room. */
  ghost predicate TooLong(s: State) {
    Tabled(s) && |s.tt| <= Capacity(s) && s.es >= 0 && s.N >= 1 && |s.tt| + s.es + 1 > Capacity(s)
  }

  /** It only gets longer, up to the limit, and is refused when it ends. */
  lemma TooLongTake(s: State, sym: int)
    requires TooLong(s) && 0 <= sym < NInUse(s) + 2
    ensures var s1 := s.(es := s.es + (if sym == RUNA then 1 else 2) * s.N, N := s.N * 2);
      if (sym == RUNA || sym == RUNB) && s.N < N_LIMIT then TooLong(s1) && Take(s, 3, sym) == StartSymbol(s1, 3)
      else Take(s, 3, sym).Return? && Take(s, 3, sym).code == DataError
  {
    hide Chars, StartSymbol, TakeSymbol, GoodLengths;
  }

  lemma FrameBefore(s: State, s1: State, i: nat)
    requires Before(s, i) && SameFrame(s, s1) && Tabled(s1)
    ensures Before(s1, i) && s1.selector == s.selector && s1.len == s.len && s1.inUse == s.inUse
    ensures NInUse(s1) == NInUse(s)
  {
    hide Chars, GoodLengths;
  }

  lemma AlikeBefore(s: State, s1: State)
    requires Alike(s, s1)
    ensures s1.selector == s.selector && s1.len == s.len && s1.inUse == s.inUse && NInUse(s1) == NInUse(s)
    ensures SameBlock(s, s1) && Capacity(s1) == Capacity(s)
  {
    hide Chars;
  }

  lemma {:induction false} RunFails(s: State, i: nat, w: seq<bool>)
    requires Before(s, i) && TooLong(s)
    ensures Moves(StartSymbol(s, 3)) && Fails(Onward(StartSymbol(s, 3), w), DataError)
    decreases |w|
  {
    hide Alike, Before, Capacity, CodeWord, Drive, HasCode, HasTable, MinLen, Moves, NInUse, Onward, StartSymbol,
      SymbolReading.NoneBegins, Tabled, Take, TooLong;
    var found, v, a, x := SymbolFound(s, i, 3, w);
    if found {
      AlikeTooLong(s, a);
      TooLongTake(a, v);
      OnwardParts(Take(a, 3, v), x);
      if (v == RUNA || v == RUNB) && a.N < N_LIMIT {
        var t := a.(es := a.es + (if v == RUNA then 1 else 2) * a.N, N := a.N * 2);
        FrameIs(a, t);
        TooLongTabled(t);
        FrameBefore(a, t, i + 1);
        RunFails(t, i + 1, x);
      }
    }
  }

  lemma AlikeTooLong(s: State, a: State)
    requires TooLong(s) && Alike(s, a) && Tabled(a)
    ensures TooLong(a)
  {
    hide Tabled;
  }

  lemma TooLongTabled(s: State)
    requires TooLong(s)
    ensures Tabled(s)
  {
  }

  lemma FrameIs(s: State, t: State)
    requires t == s.(es := t.es, N := t.N)
    ensures SameFrame(s, t)
  {
  }

  // The column.

  /** A digit too many for the room. */
  lemma DigitTooLong(s: State, u: Undoing, k: int, sym: int) returns (s1: State)
    requires Tracks(s, u, k) && Fits(u, Capacity(s)) && Tabled(s) && (sym == RUNA || sym == RUNB)
    requires |u.y| == NInUse(s) && !Fits(Undo1(u, sym), Capacity(s))
    ensures SameFrame(s, s1) && TooLong(s1) && Take(s, k, sym) == StartSymbol(s1, 3)
  {
    DigitTracks(s, u, k, sym);
    s1 := s.(es := u.run - 1 + (if sym == RUNA then 1 else 2) * u.unit, N := u.unit * 2);
    hide Chars, StartSymbol, Take, Tabled;
  }

  /** An entry when there is no room. */
  lemma EntryTooMuch(s: State, u: Undoing, k: int, sym: int)
    requires Tracks(s, u, k) && Fits(u, Capacity(s)) && Tabled(s) && 2 <= sym <= NInUse(s)
    requires k == 1 || k == 3 || k == 5
    requires |u.y| == NInUse(s) && !Fits(Undo1(u, sym), Capacity(s))
    ensures Take(s, k, sym).Return? && Take(s, k, sym).code == DataError
  {
    hide Chars, StartSymbol, Moved;
    if k == 3 { FlushTracks(s, u); }
  }

  /** The symbols read from i on bring out a column that fits and holds the pointer. */
  ghost predicate Whole(s: State, i: nat, u: Undoing, vs: seq<int>) {
    && vs != [] && u.y != [] && |u.y| == NInUse(s) && vs[|vs| - 1] == NInUse(s) + 1
    && Codes(vs[..|vs| - 1], |u.y|) && Spellable(s.selector, s.len, i, vs)
    && var r := Undo(u, vs[..|vs| - 1]);
      s.origPtr < |r.out| + r.run <= Capacity(s)
  }

  /** The state at the point of output, with that column. */
  ghost predicate ColumnRead(s: State, u: Undoing, vs: seq<int>, s1: State)
    requires vs != [] && u.y != [] && Codes(vs[..|vs| - 1], |u.y|)
  {
    && s1.at == Output && SameBlock(s, s1)
    && var out := Flush(Undo(u, vs[..|vs| - 1])).out;
      InRange(out, NInUse(s)) && s1.tt == Spelled(s.inUse, out)
  }

  lemma TracksFacts(s: State, u: Undoing, k: int)
    requires Tracks(s, u, k)
    ensures u.y != [] && |u.y| == NInUse(s)
  {
  }

  lemma WholeLast(s: State, i: nat, u: Undoing, v: int)
    requires u.y != [] && |u.y| == NInUse(s) && v == NInUse(s) + 1 && HasTable(s.selector, s.len, i)
    requires HasCode(s.len[s.selector[i / G_SIZE]], v) && s.origPtr < |u.out| + u.run <= Capacity(s)
    ensures Whole(s, i, u, [v])
  {
    hide HasCode, Chars;
    assert [v][..0] == [];
  }

  lemma WordHere(s: State, i: nat, v: int)
    requires HasTable(s.selector, s.len, i) && HasCode(s.len[s.selector[i / G_SIZE]], v)
    ensures HasWord(s.selector, s.len, i, v)
  {
  }

  lemma WholeMore(s: State, t: State, i: nat, u: Undoing, v: int, vs: seq<int>)
    requires u.y != [] && |u.y| == NInUse(s) && 0 <= v <= NInUse(s) && HasTable(s.selector, s.len, i)
    requires HasCode(s.len[s.selector[i / G_SIZE]], v)
    requires t.selector == s.selector && t.len == s.len && SameBlock(s, t) && Whole(t, i + 1, Undo1(u, v), vs)
    ensures Whole(s, i, u, [v] + vs) && Undo(u, ([v] + vs)[..|vs|]) == Undo(Undo1(u, v), vs[..|vs| - 1])
  {
    hide HasCode, Chars, Undo, Undo1, Moved;
    var all := [v] + vs;
    assert all[..|vs|] == [v] + vs[..|vs| - 1];
    UndoSize(u, v);
    UndoFirst(u, v, vs[..|vs| - 1]);
    WordHere(s, i, v);
    SpellableMore(s.selector, s.len, i, v, vs);
  }

  lemma UndoSize(u: Undoing, v: int)
    requires u.y != [] && 0 <= v <= |u.y|
    ensures |Undo1(u, v).y| == |u.y|
  {
    hide Moved;
  }

  lemma SpellableMore(selectors: seq<int>, len: seq<seq<nat>>, i: nat, v: int, vs: seq<int>)
    requires HasWord(selectors, len, i, v) && Spellable(selectors, len, i + 1, vs)
    ensures Spellable(selectors, len, i, [v] + vs)
  {
    hide HasWord;
    var all := [v] + vs;
    forall k | 0 <= k < |all| ensures HasWord(selectors, len, i + k, all[k]) {
      if k > 0 { assert all[k] == vs[k - 1] && i + k == i + 1 + (k - 1); }
    }
  }

  lemma SymbolsParts(selectors: seq<int>, len: seq<seq<nat>>, i: nat, v: int, vs: seq<int>)
    requires HasTable(selectors, len, i) && HasCode(len[selectors[i / G_SIZE]], v)
    ensures var l := len[selectors[i / G_SIZE]];
      SymbolsBits(selectors, len, i, [v] + vs) == CodeWord(l, MinLen(l), v) + SymbolsBits(selectors, len, i + 1, vs)
    ensures SymbolsBits(selectors, len, i + 1, []) == []
  {
    assert ([v] + vs)[1..] == vs;
  }

  lemma ColumnReadMore(s: State, t: State, u: Undoing, v: int, vs: seq<int>, s1: State)
    requires u.y != [] && 0 <= v <= |u.y| && SameBlock(s, t) && vs != [] && Codes(vs[..|vs| - 1], |u.y|)
    requires Codes(([v] + vs)[..|vs|], |u.y|) && Undo1(u, v).y != [] && |Undo1(u, v).y| == |u.y|
    requires Undo(u, ([v] + vs)[..|vs|]) == Undo(Undo1(u, v), vs[..|vs| - 1]) && ColumnRead(t, Undo1(u, v), vs, s1)
    ensures ColumnRead(s, u, [v] + vs, s1)
  {
    hide Chars, Undo, Undo1, Flush;
  }

  lemma WholeFacts(s: State, i: nat, u: Undoing, vs: seq<int>)
    requires Whole(s, i, u, vs)
    ensures vs != [] && u.y != [] && Codes(vs[..|vs| - 1], |u.y|)
  {
  }

  /** The end symbol. */
  lemma EndFound(s: State, a: State, u: Undoing, k: int, i: nat, x: seq<bool>) returns (s1: State)
    requires Tracks(a, u, k) && Fits(u, Capacity(a)) && Tabled(a) && (k == 1 || k == 3 || k == 5) && SameBlock(s, a)
    requires NInUse(a) == NInUse(s) && a.inUse == s.inUse
    ensures u.y != [] && Moves(Take(a, k, NInUse(a) + 1)) && Codes([NInUse(a) + 1][..0], |u.y|)
    ensures if s.origPtr < |u.out| + u.run
      then Onward(Take(a, k, NInUse(a) + 1), x) == Done(Ok, s1, x) && ColumnRead(s, u, [NInUse(a) + 1], s1)
      else Onward(Take(a, k, NInUse(a) + 1), x).Done? && Onward(Take(a, k, NInUse(a) + 1), x).code == DataError
  {
    hide Chars, Tabled, Take, Undo, Drive;
    var e := EndTracks(a, u, k);
    s1 := e.(at := Output);
    FlushedSize(u);
    NothingUndone(u, NInUse(a) + 1);
  }

  lemma NothingUndone(u: Undoing, v: int)
    requires u.y != []
    ensures [v][..0] == [] && Codes([v][..0], |u.y|) && Undo(u, [v][..0]) == u
  {
  }

  lemma FlushedSize(u: Undoing)
    requires u.y != []
    ensures |Flush(u).out| == |u.out| + u.run
  {
  }

  lemma AlikeTracks(s: State, a: State, u: Undoing, k: int)
    requires Tracks(s, u, k) && Alike(s, a) && Fits(u, Capacity(s))
    ensures Tracks(a, u, k) && Fits(u, Capacity(a)) && u.y != [] && |u.y| == NInUse(a)
  {
    hide Chars;
  }

  /** A symbol that is not the end: it is taken, or the run is bound to fail. */
  lemma TakeFound(a: State, i: nat, u: Undoing, k: int, v: int, x: seq<bool>) returns (found: bool, t: State, k1: int)
    requires Before(a, i) && Tracks(a, u, k) && Fits(u, Capacity(a)) && (k == 1 || k == 3 || k == 5)
    requires 0 <= v <= NInUse(a) && |u.y| == NInUse(a)
    ensures Tabled(a) && Moves(Take(a, k, v)) && u.y != []
    ensures found == Fits(Undo1(u, v), Capacity(a))
    ensures !found ==> Fails(Onward(Take(a, k, v), x), DataError)
    ensures found ==> (k1 == 3 || k1 == 5) && Before(t, i) && SameFrame(a, t) && Tracks(t, Undo1(u, v), k1)
    ensures found ==> Take(a, k, v) == StartSymbol(t, k1)
  {
    hide Chars, Drive, Fits, InRange, Moves, Moved, NInUse, Onward, Spelled, StartSymbol, Tabled, Take, Tracks, Undo1;
    BeforeTabled(a, i);
    TracksFacts(a, u, k);
    found, t, k1 := Fits(Undo1(u, v), Capacity(a)), a, 3;
    if found {
      t, k1 := TakeTracks(a, u, k, v);
      FrameBefore(a, t, i);
      AskAny(t, i, k1);
    } else if v == RUNA || v == RUNB {
      var d := DigitTooLong(a, u, k, v);
      TooLongTabled(d);
      FrameBefore(a, d, i);
      RunFails(d, i, x);
    } else {
      EntryTooMuch(a, u, k, v);
      ReturnMoves(Take(a, k, v), x);
    }
  }

  lemma BeforeTabled(s: State, i: nat)
    requires Before(s, i)
    ensures Tabled(s)
  {
  }

  lemma ReturnMoves(o: Outcome, x: seq<bool>)
    requires o.Return?
    ensures Moves(o) && Onward(o, x) == Done(o.code, o.s, x)
  {
  }

  /** The run fails, or reads the symbols of a whole column. */
  lemma {:induction false} DataFound(s: State, i: nat, k: int, u: Undoing, w: seq<bool>)
    returns (found: bool, vs: seq<int>, s1: State, rest: seq<bool>)
    requires Before(s, i) && Tracks(s, u, k) && Fits(u, Capacity(s)) && (k == 1 || k == 3 || k == 5)
    ensures Tabled(s) && Moves(StartSymbol(s, k))
    ensures !found ==> Fails(Onward(StartSymbol(s, k), w), DataError)
    ensures found ==> Whole(s, i, u, vs) && w == SymbolsBits(s.selector, s.len, i, vs) + rest
    ensures found ==> Onward(StartSymbol(s, k), w) == Done(Ok, s1, rest) && ColumnRead(s, u, vs, s1)
    decreases |w|
  {
    hide Alike, Before, Capacity, Chars, CodeWord, Codes, ColumnRead, Drive, Fits, HasCode, HasTable, InRange, MinLen,
      Moves, NInUse, Onward, SameBlock, SameFrame, Spellable, Spelled, StartSymbol, SymbolReading.NoneBegins,
      SymbolsBits, Tabled, Take, Tracks, Undo, Undo1, Whole;
    var v, a, x;
    vs, s1 := [], s;
    found, v, a, x := SymbolFound(s, i, k, w);
    rest := x;
    if found {
      AlikeBefore(s, a);
      AlikeTracks(s, a, u, k);
      if v == NInUse(a) + 1 {
        FitsRoom(a, u);
        s1 := EndFound(s, a, u, k, i, x);
        vs := [v];
        if s.origPtr < |u.out| + u.run {
          WholeLast(s, i, u, v);
          LastSymbol(s, i, v, w, x);
        } else {
          found := false;
        }
      } else {
        var t, k1;
        found, t, k1 := TakeFound(a, i + 1, u, k, v, x);
        if found {
          FrameSame(s, a, t);
          FitsAlike(a, t, Undo1(u, v));
          var more;
          found, more, s1, rest := DataFound(t, i + 1, k1, Undo1(u, v), x);
          if found {
            UndoSize(u, v);
            WholeFacts(t, i + 1, Undo1(u, v), more);
            WholeMore(s, t, i, u, v, more);
            WholeFacts(s, i, u, [v] + more);
            ColumnReadMore(s, t, u, v, more, s1);
            MoreSymbols(s, i, v, more, w, x, rest);
            vs := [v] + more;
          }
        }
      }
    }
  }

  lemma MoreSymbols(s: State, i: nat, v: int, vs: seq<int>, w: seq<bool>, x: seq<bool>, rest: seq<bool>)
    requires HasTable(s.selector, s.len, i) && HasCode(s.len[s.selector[i / G_SIZE]], v)
    requires var l := s.len[s.selector[i / G_SIZE]]; w == CodeWord(l, MinLen(l), v) + x
    requires x == SymbolsBits(s.selector, s.len, i + 1, vs) + rest
    ensures w == SymbolsBits(s.selector, s.len, i, [v] + vs) + rest
  {
    hide CodeWord, HasTable, MinLen, SymbolsBits;
    SymbolsParts(s.selector, s.len, i, v, vs);
  }

  lemma LastSymbol(s: State, i: nat, v: int, w: seq<bool>, x: seq<bool>)
    requires HasTable(s.selector, s.len, i) && HasCode(s.len[s.selector[i / G_SIZE]], v)
    requires var l := s.len[s.selector[i / G_SIZE]]; w == CodeWord(l, MinLen(l), v) + x
    ensures w == SymbolsBits(s.selector, s.len, i, [v]) + x
  {
    hide CodeWord, HasTable, MinLen, SymbolsBits;
    SymbolsParts(s.selector, s.len, i, v, []);
    assert [] + x == x && [v] + [] == [v];
    MoreSymbols(s, i, v, [], w, x, x);
  }

  lemma FitsRoom(s: State, u: Undoing)
    requires Fits(u, Capacity(s))
    ensures |u.out| + u.run <= Capacity(s)
  {
  }

  lemma FitsAlike(a: State, t: State, u: Undoing)
    requires SameFrame(a, t) && Fits(u, Capacity(a))
    ensures Fits(u, Capacity(t))
  {
  }

  lemma FrameSame(s: State, a: State, t: State)
    requires SameBlock(s, a) && SameFrame(a, t) && a.selector == s.selector && a.len == s.len
    ensures SameBlock(s, t) && t.selector == s.selector && t.len == s.len && NInUse(t) == NInUse(s)
  {
    hide Chars;
  }

  // Reading back.

  /** The first of the symbols, and the rest of them. */
  lemma WholeSplit(s: State, i: nat, u: Undoing, vs: seq<int>)
    requires Whole(s, i, u, vs) && 1 <= u.unit <= u.run + 1 && Capacity(s) < N_LIMIT
    ensures HasTable(s.selector, s.len, i) && HasCode(s.len[s.selector[i / G_SIZE]], vs[0]) && Fits(u, Capacity(s))
    ensures u.y != [] && |u.y| == NInUse(s)
    ensures |vs| == 1 ==> vs == [vs[0]] && vs[0] == NInUse(s) + 1 && s.origPtr < |u.out| + u.run
    ensures |vs| > 1 ==> 0 <= vs[0] <= NInUse(s) && vs == [vs[0]] + vs[1..] && Fits(Undo1(u, vs[0]), Capacity(s))
    ensures |vs| > 1 ==> Whole(s, i + 1, Undo1(u, vs[0]), vs[1..])
  {
    hide Chars, HasCode, HasTable, Moved, Undo;
    assert HasWord(s.selector, s.len, i + 0, vs[0]);
    var q := vs[..|vs| - 1];
    UndoGrows(u, q);
    if |vs| == 1 {
      assert q == [] && Undo(u, q) == u by { NothingUndone(u, vs[0]); }
    } else {
      var more := vs[1..];
      assert q == [vs[0]] + more[..|more| - 1];
      assert q[0] == vs[0];
      Undo1Unit(u, vs[0]);
      RestCodes(vs, |u.y|);
      UndoFirst(u, vs[0], more[..|more| - 1]);
      UndoGrows(Undo1(u, vs[0]), more[..|more| - 1]);
      SpellableRest(s.selector, s.len, i, vs);
    }
  }

  lemma RestCodes(vs: seq<int>, m: int)
    requires |vs| > 1 && Codes(vs[..|vs| - 1], m)
    ensures Codes(vs[1..][..|vs| - 2], m)
  {
    var r := vs[1..][..|vs| - 2];
    forall k | 0 <= k < |r| ensures 0 <= r[k] <= m { assert r[k] == vs[..|vs| - 1][k + 1]; }
  }

  lemma SpellableRest(selectors: seq<int>, len: seq<seq<nat>>, i: nat, vs: seq<int>)
    requires vs != [] && Spellable(selectors, len, i, vs)
    ensures Spellable(selectors, len, i + 1, vs[1..])
  {
    hide HasWord;
    forall k | 0 <= k < |vs[1..]| ensures HasWord(selectors, len, i + 1 + k, vs[1..][k]) {
      assert HasWord(selectors, len, i + (k + 1), vs[k + 1]);
    }
  }

  /** The state does not matter to the rest of the symbols, but for what it keeps. */
  lemma WholeKept(s: State, t: State, i: nat, u: Undoing, vs: seq<int>)
    requires Whole(s, i, u, vs) && SameBlock(s, t) && t.selector == s.selector && t.len == s.len
    ensures Whole(t, i, u, vs)
  {
    hide Chars, Undo, Spellable;
  }

  /** A symbol that is there is the one that is found. */
  lemma SymbolReads(s: State, i: nat, k: int, v: int, x: seq<bool>) returns (a: State)
    requires Before(s, i) && k % 2 == 1 && HasTable(s.selector, s.len, i)
    requires HasCode(s.len[s.selector[i / G_SIZE]], v)
    ensures var l := s.len[s.selector[i / G_SIZE]]; var w := CodeWord(l, MinLen(l), v) + x;
      && Tabled(s) && Moves(StartSymbol(s, k)) && Alike(s, a) && Before(a, i + 1) && Tabled(a) && 0 <= v < NInUse(a) + 2
      && Moves(Take(a, k, v)) && Onward(StartSymbol(s, k), w) == Onward(Take(a, k, v), x)
  {
    hide Alike, Before, CodeWord, Drive, HasCode, MinLen, Moves, NInUse, Onward, StartSymbol, Tabled, Take;
    var l := s.len[s.selector[i / G_SIZE]];
    HasCodeSymbol(l, v);
    var w := CodeWord(l, MinLen(l), v) + x;
    var found, v', x';
    found, v', a, x' := SymbolFound(s, i, k, w);
    assert CodeWord(l, MinLen(l), v) <= w;
    SymbolReading.CodesDiffer(l, if found then v' else v, v, if found then x' else x, x);
  }

  lemma HasCodeSymbol(l: seq<nat>, v: int)
    requires HasCode(l, v)
    ensures 0 <= v < |l|
  {
  }

  /** The symbols of a whole column are read. */
  lemma {:induction false} DataReads(s: State, i: nat, k: int, u: Undoing, vs: seq<int>, rest: seq<bool>)
    returns (s1: State)
    requires Before(s, i) && Tracks(s, u, k) && (k == 1 || k == 3 || k == 5)
    requires Whole(s, i, u, vs) && 1 <= u.unit <= u.run + 1 && Capacity(s) < N_LIMIT
    ensures Tabled(s) && Moves(StartSymbol(s, k)) && vs != [] && u.y != [] && Codes(vs[..|vs| - 1], |u.y|)
    ensures Onward(StartSymbol(s, k), SymbolsBits(s.selector, s.len, i, vs) + rest) == Done(Ok, s1, rest)
    ensures ColumnRead(s, u, vs, s1)
    decreases |vs|
  {
    hide Alike, Before, Capacity, Chars, CodeWord, Codes, ColumnRead, Drive, Fits, HasCode, HasTable, InRange, MinLen,
      Moves, NInUse, Onward, SameBlock, SameFrame, Spellable, Spelled, StartSymbol, SymbolReading.NoneBegins,
      SymbolsBits, Tabled, Take, Tracks, Undo, Undo1, Whole;
    WholeFacts(s, i, u, vs);
    WholeSplit(s, i, u, vs);
    var v, more := vs[0], vs[1..];
    var x := SymbolsBits(s.selector, s.len, i + 1, more) + rest;
    WordsFirst(s, i, v, more, rest);
    var a := SymbolReads(s, i, k, v, x);
    AlikeBefore(s, a);
    AlikeTracks(s, a, u, k);
    if more == [] {
      s1 := EndFound(s, a, u, k, i, x);
      SymbolsParts(s.selector, s.len, i, v, []);
      assert [v] + [] == vs && x == rest;
    } else {
      var found, t, k1 := TakeFound(a, i + 1, u, k, v, x);
      FrameSame(s, a, t);
      WholeKept(s, t, i + 1, Undo1(u, v), more);
      Undo1Unit(u, v);
      CapacityKept(s, t);
      s1 := DataReads(t, i + 1, k1, Undo1(u, v), more, rest);
      UndoSize(u, v);
      WholeFacts(t, i + 1, Undo1(u, v), more);
      WholeMore(s, t, i, u, v, more);
      ColumnReadMore(s, t, u, v, more, s1);
    }
  }

  lemma CapacityKept(s: State, t: State)
    requires SameBlock(s, t)
    ensures Capacity(t) == Capacity(s)
  {
  }

  lemma WordsFirst(s: State, i: nat, v: int, vs: seq<int>, rest: seq<bool>)
    requires HasTable(s.selector, s.len, i) && HasCode(s.len[s.selector[i / G_SIZE]], v)
    ensures var l := s.len[s.selector[i / G_SIZE]];
      SymbolsBits(s.selector, s.len, i, [v] + vs) + rest ==
        CodeWord(l, MinLen(l), v) + (SymbolsBits(s.selector, s.len, i + 1, vs) + rest)
  {
    hide CodeWord, HasTable, MinLen, SymbolsBits;
    SymbolsParts(s.selector, s.len, i, v, vs);
  }
}
