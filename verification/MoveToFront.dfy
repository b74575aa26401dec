/** Move-to-front ranks, with runs of rank 0 coded in bijective base 2.

    A column of symbols 0..m-1 becomes the ranks of its symbols in a list that each symbol
    is moved to the front of. A run of n ranks 0 becomes digits RUNA (1) and RUNB (2), least
    significant first; rank k > 0 becomes k + 1; m + 1 ends the block.
 */
module MoveToFront {

  function Identity(m: nat): seq<int> {
    seq(m, i => i)
  }

  /** The list with entry k moved to the front. */
  function Moved(y: seq<int>, k: int): (z: seq<int>)
    requires 0 <= k < |y|
    ensures |z| == |y|
  {
    [y[k]] + y[..k] + y[k + 1..]
  }

  ghost predicate Below(ks: seq<nat>, m: nat) {
    forall i :: 0 <= i < |ks| ==> ks[i] < m
  }

  ghost predicate Listed(s: seq<int>, y: seq<int>) {
    forall i :: 0 <= i < |s| ==> s[i] in y
  }

  /** The list after moving the entries at these ranks to the front in turn. */
  function After(y: seq<int>, ks: seq<nat>): (z: seq<int>)
    requires Below(ks, |y|)
    ensures |z| == |y|
  {
    if ks == [] then y else Moved(After(y, ks[..|ks| - 1]), ks[|ks| - 1])
  }

  function Rank(y: seq<int>, c: int): (k: nat)
    requires c in y
    ensures k < |y| && y[k] == c && c !in y[..k]
  {
    if y[0] == c then 0 else 1 + Rank(y[1..], c)
  }

  lemma MovedKeeps(y: seq<int>, k: int, c: int)
    requires 0 <= k < |y|
    ensures c in Moved(y, k) <==> c in y
  {
    assert y == y[..k] + [y[k]] + y[k + 1..];
  }

  lemma {:induction false} AfterKeeps(y: seq<int>, ks: seq<nat>, c: int)
    requires Below(ks, |y|)
    ensures c in After(y, ks) <==> c in y
  {
    if ks != [] {
      AfterKeeps(y, ks[..|ks| - 1], c);
      MovedKeeps(After(y, ks[..|ks| - 1]), ks[|ks| - 1], c);
    }
  }

  /** The ranks of the symbols of s in the list, which each is moved to the front of. */
  function Ranks(y: seq<int>, s: seq<int>): (ks: seq<nat>)
    requires Listed(s, y)
    ensures |ks| == |s| && Below(ks, |y|)
  {
    if s == [] then []
    else
      var ks := Ranks(y, s[..|s| - 1]);
      AfterKeeps(y, ks, s[|s| - 1]);
      ks + [Rank(After(y, ks), s[|s| - 1])]
  }

  /** The symbols at these ranks. */
  function Symbols(y: seq<int>, ks: seq<nat>): (s: seq<int>)
    requires Below(ks, |y|)
    ensures |s| == |ks|
  {
    if ks == [] then [] else Symbols(y, ks[..|ks| - 1]) + [After(y, ks[..|ks| - 1])[ks[|ks| - 1]]]
  }

  /** Symbols come from the list. */
  lemma {:induction false} SymbolsListed(y: seq<int>, ks: seq<nat>)
    requires Below(ks, |y|)
    ensures Listed(Symbols(y, ks), y)
  {
    if ks != [] {
      SymbolsListed(y, ks[..|ks| - 1]);
      AfterKeeps(y, ks[..|ks| - 1], After(y, ks[..|ks| - 1])[ks[|ks| - 1]]);
    }
  }

  lemma SymbolsNext(y: seq<int>, ks: seq<nat>, k: nat)
    requires Below(ks, |y|) && k < |y|
    ensures Below(ks + [k], |y|) && Symbols(y, ks + [k]) == Symbols(y, ks) + [After(y, ks)[k]]
    ensures After(y, ks + [k]) == Moved(After(y, ks), k)
  {
    assert (ks + [k])[..|ks|] == ks;
  }

  lemma RanksNext(y: seq<int>, s: seq<int>, c: int)
    requires Listed(s, y) && c in y
    ensures Listed(s + [c], y) && c in After(y, Ranks(y, s))
    ensures Ranks(y, s + [c]) == Ranks(y, s) + [Rank(After(y, Ranks(y, s)), c)]
  {
    assert (s + [c])[..|s|] == s;
    AfterKeeps(y, Ranks(y, s), c);
  }

  lemma NoRanks(y: seq<int>)
    ensures Ranks(y, []) == [] && Symbols(y, []) == []
  {
  }

  /** Looking up the ranks of symbols gives the symbols back. */
  lemma {:induction false} SymbolsOfRanks(y: seq<int>, s: seq<int>)
    requires Listed(s, y)
    ensures Symbols(y, Ranks(y, s)) == s
  {
    hide Ranks, Symbols, After;
    NoRanks(y);
    if s != [] {
      var n := |s| - 1;
      assert s == s[..n] + [s[n]];
      SymbolsOfRanks(y, s[..n]);
      RanksNext(y, s[..n], s[n]);
      SymbolsNext(y, Ranks(y, s[..n]), Rank(After(y, Ranks(y, s[..n])), s[n]));
    }
  }

  // Runs.

  const RUNA: int := 0
  const RUNB: int := 1

  function Digits(n: nat): seq<int> {
    if n == 0 then [] else if n % 2 == 1 then [RUNA] + Digits((n - 1) / 2) else [RUNB] + Digits((n - 2) / 2)
  }

  /** The run that digits stand for, the first of them in units of `unit`. */
  function Run(ds: seq<int>, unit: nat): nat {
    if ds == [] then 0 else (if ds[0] == RUNA then unit else 2 * unit) + Run(ds[1..], 2 * unit)
  }

  lemma {:induction false} RunDoubles(ds: seq<int>, unit: nat)
    ensures Run(ds, 2 * unit) == 2 * Run(ds, unit)
  {
    if ds != [] { RunDoubles(ds[1..], 2 * unit); }
  }

  lemma {:induction false} RunOfDigits(n: nat)
    ensures Run(Digits(n), 1) == n
  {
    if n > 0 {
      var m := if n % 2 == 1 then (n - 1) / 2 else (n - 2) / 2;
      RunOfDigits(m);
      RunFirst(if n % 2 == 1 then RUNA else RUNB, Digits(m));
      RunDoubles(Digits(m), 1);
    }
  }

  lemma RunFirst(d: int, ds: seq<int>)
    ensures Run([d] + ds, 1) == (if d == RUNA then 1 else 2) + Run(ds, 2)
  {
    assert ([d] + ds)[1..] == ds;
  }

  /** Digits are no more than what they count, and few for a run that fits a block. */
  lemma {:induction false} DigitsFew(n: nat, k: nat)
    requires n < 2 * Power(k)
    ensures |Digits(n)| <= n && |Digits(n)| <= k + 1
  {
    if n > 0 {
      if k > 0 { DigitsFew(if n % 2 == 1 then (n - 1) / 2 else (n - 2) / 2, k - 1); }
    }
  }

  function Power(k: nat): nat {
    if k == 0 then 1 else 2 * Power(k - 1)
  }

  // The symbol stream.

  /** The length of the run of zeros at the end. */
  function Pending(ks: seq<nat>): (n: nat)
    ensures n <= |ks|
  {
    if ks == [] || ks[|ks| - 1] != 0 then 0 else Pending(ks[..|ks| - 1]) + 1
  }

  /** The coded symbols for ranks up to their pending run of zeros. */
  function Emitted(ks: seq<nat>): seq<int> {
    if ks == [] then []
    else
      var r := ks[..|ks| - 1];
      var k := ks[|ks| - 1];
      if k == 0 then Emitted(r) else Emitted(r) + Digits(Pending(r)) + [k + 1]
  }

  /** The whole block: the pending run is flushed and m + 1 ends it. */
  function Coded(ks: seq<nat>, m: nat): seq<int> {
    Emitted(ks) + Digits(Pending(ks)) + [m + 1]
  }

  lemma {:induction false} DigitsShort(n: nat)
    ensures |Digits(n)| <= n
  {
    if n > 0 { DigitsShort(if n % 2 == 1 then (n - 1) / 2 else (n - 2) / 2); }
  }

  /** Coding is never longer than what is coded. */
  lemma {:induction false} EmittedShort(ks: seq<nat>)
    ensures |Emitted(ks)| + Pending(ks) <= |ks|
  {
    if ks != [] {
      var r := ks[..|ks| - 1];
      EmittedShort(r);
      DigitsShort(Pending(r));
    }
  }

  // Decoding the symbol stream.

  /** The decoder's list, pending run, the worth of the next run digit, and output. */
  datatype Undoing = Undoing(y: seq<int>, run: nat, unit: nat, out: seq<int>)

  function Repeat(c: int, n: nat): (s: seq<int>)
    ensures |s| == n && forall i :: 0 <= i < n ==> s[i] == c
  {
    seq(n, i => c)
  }

  /** Outputs the pending run. */
  function Flush(u: Undoing): Undoing
    requires u.y != []
  {
    u.(run := 0, unit := 1, out := u.out + Repeat(u.y[0], u.run))
  }

  /** Takes one symbol. */
  function Undo1(u: Undoing, v: int): Undoing
    requires u.y != [] && 0 <= v <= |u.y|
  {
    if v == RUNA then u.(run := u.run + u.unit, unit := 2 * u.unit)
    else if v == RUNB then u.(run := u.run + 2 * u.unit, unit := 2 * u.unit)
    else Flush(u).(y := Moved(u.y, v - 1), out := Flush(u).out + [u.y[v - 1]])
  }

  ghost predicate Codes(vs: seq<int>, m: int) {
    forall i :: 0 <= i < |vs| ==> 0 <= vs[i] <= m
  }

  function Undo(u: Undoing, vs: seq<int>): (r: Undoing)
    requires u.y != [] && Codes(vs, |u.y|)
    ensures |r.y| == |u.y|
  {
    if vs == [] then u else Undo1(Undo(u, vs[..|vs| - 1]), vs[|vs| - 1])
  }

  lemma UndoNext(u: Undoing, vs: seq<int>, v: int)
    requires u.y != [] && Codes(vs, |u.y|) && 0 <= v <= |u.y|
    ensures Codes(vs + [v], |u.y|) && Undo(u, vs + [v]) == Undo1(Undo(u, vs), v)
  {
    assert (vs + [v])[..|vs|] == vs;
  }

  lemma CodesConcat(vs: seq<int>, ws: seq<int>, m: int)
    requires Codes(vs, m) && Codes(ws, m)
    ensures Codes(vs + ws, m)
  {
  }

  lemma {:induction false} UndoConcat(u: Undoing, vs: seq<int>, ws: seq<int>)
    requires u.y != [] && Codes(vs, |u.y|) && Codes(ws, |u.y|)
    ensures Codes(vs + ws, |u.y|) && Undo(u, vs + ws) == Undo(Undo(u, vs), ws)
  {
    hide Undo1;
    CodesConcat(vs, ws, |u.y|);
    if ws == [] {
      assert vs + ws == vs;
    } else {
      var n := |ws| - 1;
      UndoConcat(u, vs, ws[..n]);
      assert (vs + ws)[..|vs + ws| - 1] == vs + ws[..n];
    }
  }

  lemma {:induction false} UndoDigits(u: Undoing, ds: seq<int>)
    requires u.y != [] && Codes(ds, 1)
    ensures Codes(ds, |u.y|)
    ensures var r := Undo(u, ds); r.y == u.y && r.out == u.out && r.run == u.run + Run(ds, u.unit)
    decreases |ds|
  {
    if ds != [] {
      var u1 := Undo1(u, ds[0]);
      UndoNext(u, [], ds[0]);
      assert [] + [ds[0]] == [ds[0]] && ds == [ds[0]] + ds[1..];
      UndoDigits(u1, ds[1..]);
      UndoConcat(u, [ds[0]], ds[1..]);
    }
  }

  lemma {:induction false} DigitsCodes(n: nat)
    ensures Codes(Digits(n), 1)
  {
    if n > 0 { DigitsCodes(if n % 2 == 1 then (n - 1) / 2 else (n - 2) / 2); }
  }

  lemma MovedNone(y: seq<int>)
    requires y != []
    ensures Moved(y, 0) == y
  {
  }

  /** After any ranks: what is output, together with the run still pending, is the symbols of
      the ranks, and the lists agree. */
  lemma {:induction false} UndoEmitted(y: seq<int>, ks: seq<nat>)
    requires y != [] && Below(ks, |y|)
    ensures Codes(Emitted(ks), |y|)
    ensures var r := Undo(Undoing(y, 0, 1, []), Emitted(ks));
      && r.run == 0 && r.unit == 1 && r.y == After(y, ks)
      && r.out + Repeat(r.y[0], Pending(ks)) == Symbols(y, ks)
  {
    if ks != [] {
      var n := |ks| - 1;
      var (ls, k) := (ks[..n], ks[n]);
      assert ks == ls + [k];
      UndoEmitted(y, ls);
      SymbolsNext(y, ls, k);
      if k == 0 {
        MovedNone(After(y, ls));
        RepeatMore(Undo(Undoing(y, 0, 1, []), Emitted(ls)).out, After(y, ls)[0], Pending(ls));
      } else {
        UndoEntry(y, ls, k);
      }
    }
  }

  lemma RepeatMore(out: seq<int>, c: int, n: nat)
    ensures out + Repeat(c, n + 1) == out + Repeat(c, n) + [c]
  {
  }

  lemma UndoEntry(y: seq<int>, ls: seq<nat>, k: nat)
    requires y != [] && Below(ls, |y|) && 0 < k < |y| && Codes(Emitted(ls), |y|)
    requires var r := Undo(Undoing(y, 0, 1, []), Emitted(ls));
      && r.run == 0 && r.unit == 1 && r.y == After(y, ls)
      && r.out + Repeat(r.y[0], Pending(ls)) == Symbols(y, ls)
    ensures Codes(Emitted(ls + [k]), |y|)
    ensures var r := Undo(Undoing(y, 0, 1, []), Emitted(ls + [k]));
      && r.run == 0 && r.unit == 1 && r.y == Moved(After(y, ls), k)
      && r.out == Symbols(y, ls) + [After(y, ls)[k]]
  {
    hide Undo, Emitted, Digits, Pending, After, Symbols, Run;
    var u := Undoing(y, 0, 1, []);
    var r := Undo(u, Emitted(ls));
    var ds := Digits(Pending(ls));
    EmittedEntry(ls, k);
    DigitsCodes(Pending(ls));
    UndoDigits(r, ds);
    RunOfDigits(Pending(ls));
    UndoConcat(u, Emitted(ls), ds);
    UndoNext(u, Emitted(ls) + ds, k + 1);
  }

  lemma EmittedEntry(ls: seq<nat>, k: nat)
    requires k > 0
    ensures Emitted(ls + [k]) == Emitted(ls) + Digits(Pending(ls)) + [k + 1]
  {
    hide Digits, Pending;
    assert (ls + [k])[..|ls|] == ls;
  }

  /** Decoding the coded ranks gives the symbols they stand for. */
  lemma UndoCoded(y: seq<int>, ks: seq<nat>)
    requires y != [] && Below(ks, |y|)
    ensures var vs := Emitted(ks) + Digits(Pending(ks));
      Codes(vs, |y|) && Flush(Undo(Undoing(y, 0, 1, []), vs)).out == Symbols(y, ks)
  {
    var u := Undoing(y, 0, 1, []);
    UndoEmitted(y, ks);
    DigitsCodes(Pending(ks));
    UndoDigits(Undo(u, Emitted(ks)), Digits(Pending(ks)));
    RunOfDigits(Pending(ks));
    UndoConcat(u, Emitted(ks), Digits(Pending(ks)));
  }
}
