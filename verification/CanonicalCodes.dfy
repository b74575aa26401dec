/** Codes assigned to code lengths in order, and the tables that decode them. */
module CanonicalCodes {
  import opened PrefixCost
  import opened Sums
  import opened Words

  /** The bits of v, most significant first. */
  function Word(v: nat, n: nat): (w: seq<bool>)
    ensures |w| == n
  {
    if n == 0 then [] else Word(v / 2, n - 1) + [v % 2 == 1]
  }

  function Value(w: seq<bool>): nat {
    if w == [] then 0 else 2 * Value(w[..|w| - 1]) + if w[|w| - 1] then 1 else 0
  }

  /** How many symbols have length n. */
  function Times(len: seq<nat>, n: nat): (c: nat)
    ensures c <= |len|
  {
    if len == [] then 0 else Times(len[..|len| - 1], n) + if len[|len| - 1] == n then 1 else 0
  }

  /** How many symbols are shorter than n. */
  function Shorter(len: seq<nat>, n: nat): (c: nat)
    ensures c <= |len|
  {
    if len == [] then 0 else Shorter(len[..|len| - 1], n) + if len[|len| - 1] < n then 1 else 0
  }

  /** The first code of length n, when the shortest length is lo. */
  function First(len: seq<nat>, lo: nat, n: nat): nat {
    if n <= lo then 0 else 2 * (First(len, lo, n - 1) + Times(len, n - 1))
  }

  /** The code of symbol i: codes of one length are consecutive, in symbol order. */
  function Code(len: seq<nat>, lo: nat, i: int): nat
    requires 0 <= i < |len|
  {
    First(len, lo, len[i]) + Times(len[..i], len[i])
  }

  lemma {:induction false} TimesGrows(len: seq<nat>, i: int, j: int, n: nat)
    requires 0 <= i <= j <= |len|
    ensures Times(len[..i], n) <= Times(len[..j], n)
    ensures i < j && len[i] == n ==> Times(len[..i], n) < Times(len[..j], n)
  {
    if i < j {
      assert len[..j][..j - 1] == len[..j - 1];
      TimesGrows(len, i, j - 1, n);
    }
  }

  lemma TimesNext(len: seq<nat>, j: int, n: nat)
    requires 0 <= j < |len|
    ensures Times(len[..j + 1], n) == Times(len[..j], n) + if len[j] == n then 1 else 0
    ensures Shorter(len[..j + 1], n) == Shorter(len[..j], n) + if len[j] < n then 1 else 0
  {
    assert len[..j + 1][..j] == len[..j];
  }

  lemma {:induction false} ShorterNext(len: seq<nat>, n: nat)
    ensures Shorter(len, n + 1) == Shorter(len, n) + Times(len, n)
  {
    if len != [] { ShorterNext(len[..|len| - 1], n); }
  }

  lemma RankWithin(len: seq<nat>, i: int)
    requires 0 <= i < |len|
    ensures Times(len[..i], len[i]) < Times(len, len[i])
  {
    assert len[..|len|] == len;
    TimesGrows(len, i, |len|, len[i]);
  }

  // All codes fit their lengths.

  /** The shares of symbols of length at most n. */
  function Partial(len: seq<nat>, n: nat): seq<real> {
    seq(|len|, i requires 0 <= i < |len| => if len[i] <= n then Half(len[i]) else 0.0)
  }

  lemma {:induction false} PartialNext(len: seq<nat>, n: nat)
    ensures Sum(Partial(len, n + 1)) == Sum(Partial(len, n)) + Shares(Times(len, n + 1), Half(n + 1))
  {
    if len != [] {
      var m := |len| - 1;
      PartialNext(len[..m], n);
      assert Partial(len, n + 1)[..m] == Partial(len[..m], n + 1);
      assert Partial(len, n)[..m] == Partial(len[..m], n);
    }
  }

  /** The codes of length up to n use up the shares of their symbols. */
  lemma {:induction false} CodesUsed(len: seq<nat>, lo: nat, n: nat)
    requires lo <= n && forall i :: 0 <= i < |len| ==> lo <= len[i]
    ensures Sum(Partial(len, n)) == Shares(First(len, lo, n) + Times(len, n), Half(n))
    decreases n
  {
    hide Shares, Half, Times, Sum;
    if n == lo {
      LowestUsed(len, lo);
    } else {
      CodesUsed(len, lo, n - 1);
      PartialNext(len, n - 1);
      DoubledAndMore(First(len, lo, n - 1) + Times(len, n - 1), Times(len, n), n);
    }
  }

  lemma LowestUsed(len: seq<nat>, lo: nat)
    requires forall i :: 0 <= i < |len| ==> lo <= len[i]
    ensures Sum(Partial(len, lo)) == Shares(Times(len, lo), Half(lo))
  {
    hide Shares, Half, Times, Sum;
    if lo > 0 {
      PartialNext(len, lo - 1);
      SumZeros(Partial(len, lo - 1));
    } else {
      PartialZero(len);
    }
  }

  lemma DoubledAndMore(u: nat, t: nat, n: nat)
    requires n >= 1
    ensures Shares(2 * u + t, Half(n)) == Shares(u, Half(n - 1)) + Shares(t, Half(n))
  {
    SharesDouble(u, Half(n));
    SharesAdd(2 * u, t, Half(n));
  }

  lemma {:induction false} PartialZero(len: seq<nat>)
    ensures Sum(Partial(len, 0)) == Shares(Times(len, 0), Half(0))
  {
    if len != [] {
      PartialZero(len[..|len| - 1]);
      assert Partial(len, 0)[..|len| - 1] == Partial(len[..|len| - 1], 0);
    }
  }

  /** With a Kraft sum of at most 1 the codes of n bits stay below 2^n. */
  lemma CodesFit(len: seq<nat>, lo: nat, n: nat)
    requires lo <= n && KraftSum(len) <= 1.0 && forall i :: 0 <= i < |len| ==> lo <= len[i]
    ensures First(len, lo, n) + Times(len, n) <= Pow2(n)
  {
    CodesUsed(len, lo, n);
    SumMono(Partial(len, n), Halves(len));
    var u, p := First(len, lo, n) + Times(len, n), Pow2(n);
    HalfShares(0, n);
    if u > p {
      SharesAdd(p, u - p, Half(n));
      assert false;
    }
  }

  // No code begins another.

  function Shr(c: nat, k: nat): nat {
    if k == 0 then c else Shr(c / 2, k - 1)
  }

  lemma {:induction false} WordValue(v: nat, n: nat)
    requires v < Pow2(n)
    ensures Value(Word(v, n)) == v
  {
    if n > 0 {
      WordValue(v / 2, n - 1);
      assert Word(v, n)[..n - 1] == Word(v / 2, n - 1);
    }
  }

  /** The first bits of a code are the code shifted right. */
  lemma {:induction false} WordPrefix(v: nat, n: nat, k: nat)
    requires k <= n
    ensures Word(v, n)[..k] == Word(Shr(v, n - k), k)
  {
    if k < n {
      WordPrefix(v / 2, n - 1, k);
      assert Word(v, n)[..k] == Word(v / 2, n - 1)[..k];
    }
  }

  lemma {:induction false} ShrFits(v: nat, n: nat, k: nat)
    requires k <= n && v < Pow2(n)
    ensures Shr(v, n - k) < Pow2(k)
  {
    if k < n { ShrFits(v / 2, n - 1, k); }
  }

  lemma {:induction false} ShrNext(v: nat, k: nat)
    requires k >= 1
    ensures Shr(v, k) == Shr(v, k - 1) / 2
  {
    if k > 1 { ShrNext(v / 2, k - 1); }
  }

  /** The bit of a code that its next prefix adds. */
  lemma WordBit(v: nat, n: nat, k: nat)
    requires k < n
    ensures Shr(v, n - k - 1) == 2 * Shr(v, n - k) + if Word(v, n)[k] then 1 else 0
  {
    ShrNext(v, n - k);
    WordPrefix(v, n, k + 1);
    assert Word(v, n)[k] == Word(v, n)[..k + 1][k];
  }

  /** Codes of a greater length lie above all shorter ones they might begin with. */
  lemma {:induction false} ShrAbove(len: seq<nat>, lo: nat, n: nat, m: nat, c: nat)
    requires lo <= n < m && c >= First(len, lo, m)
    ensures Shr(c, m - n) >= First(len, lo, n) + Times(len, n)
    decreases m
  {
    if m - 1 > n {
      ShrAbove(len, lo, n, m - 1, c / 2);
    } else {
      assert Shr(c, 1) == Shr(c / 2, 0);
    }
  }

  lemma CodeBounds(len: seq<nat>, lo: nat, i: int)
    requires 0 <= i < |len| && KraftSum(len) <= 1.0 && forall k :: 0 <= k < |len| ==> lo <= len[k]
    ensures First(len, lo, len[i]) <= Code(len, lo, i) < First(len, lo, len[i]) + Times(len, len[i]) <= Pow2(len[i])
  {
    RankWithin(len, i);
    CodesFit(len, lo, len[i]);
  }

  /** The code word of symbol i. */
  function CodeWord(len: seq<nat>, lo: nat, i: int): seq<bool>
    requires 0 <= i < |len|
  {
    Word(Code(len, lo, i), len[i])
  }

  /** Whenever lengths have a Kraft sum of at most 1, no code word begins another. */
  lemma PrefixFree(len: seq<nat>, lo: nat, i: int, j: int)
    requires 0 <= i < |len| && 0 <= j < |len| && i != j
    requires KraftSum(len) <= 1.0 && forall k :: 0 <= k < |len| ==> lo <= len[k]
    ensures !(CodeWord(len, lo, i) <= CodeWord(len, lo, j))
  {
    var c, d, n, m := Code(len, lo, i), Code(len, lo, j), len[i], len[j];
    CodeBounds(len, lo, i);
    CodeBounds(len, lo, j);
    if n <= m && Word(c, n) == Word(d, m)[..n] {
      WordPrefix(d, m, n);
      ShrFits(d, m, n);
      WordValue(c, n);
      WordValue(Shr(d, m - n), n);
      if n < m {
        ShrAbove(len, lo, n, m, d);
      } else if i < j {
        TimesGrows(len, i, j, n);
      } else {
        TimesGrows(len, j, i, n);
      }
      assert false;
    }
  }

  // Every prefix-free code has a Kraft sum of at most 1.

  ghost predicate NoPrefix(words: seq<seq<bool>>) {
    forall i, j :: 0 <= i < |words| && 0 <= j < |words| && i != j ==> !(words[i] <= words[j])
  }

  function Sizes(words: seq<seq<bool>>): seq<nat> {
    seq(|words|, i requires 0 <= i < |words| => |words[i]|)
  }

  /** What follows bit b in the words that begin with it. */
  function Tails(words: seq<seq<bool>>, b: bool): seq<seq<bool>> {
    if words == [] then []
    else
      var z := words[|words| - 1];
      Tails(words[..|words| - 1], b) + if z != [] && z[0] == b then [z[1..]] else []
  }

  /** The word that a tail comes from. */
  lemma {:induction false} TailFrom(words: seq<seq<bool>>, b: bool, i: int) returns (k: int)
    requires 0 <= i < |Tails(words, b)|
    ensures 0 <= k < |words| && words[k] == [b] + Tails(words, b)[i]
  {
    var n := |words| - 1;
    var t := Tails(words[..n], b);
    if i < |t| {
      k := TailFrom(words[..n], b, i);
      assert Tails(words, b)[i] == t[i];
    } else {
      k := n;
      assert Tails(words, b)[i] == words[n][1..];
    }
  }

  /** The words that two tails come from, in the same order. */
  lemma {:induction false} TailPair(words: seq<seq<bool>>, b: bool, i: int, j: int) returns (k: int, m: int)
    requires 0 <= i < j < |Tails(words, b)|
    ensures 0 <= k < m < |words| && words[k] == [b] + Tails(words, b)[i] && words[m] == [b] + Tails(words, b)[j]
  {
    var n := |words| - 1;
    var t := Tails(words[..n], b);
    assert Tails(words, b)[i] == t[i];
    if j < |t| {
      k, m := TailPair(words[..n], b, i, j);
      assert Tails(words, b)[j] == t[j];
    } else {
      k := TailFrom(words[..n], b, i);
      m := n;
      assert Tails(words, b)[j] == words[n][1..];
    }
  }

  lemma ConsPrefix(b: bool, x: seq<bool>, y: seq<bool>)
    ensures x <= y ==> [b] + x <= [b] + y
  {
  }

  lemma EmptyBegins(words: seq<seq<bool>>, i: int, j: int)
    requires 0 <= i < |words| && words[i] == [] && 0 <= j < |words|
    ensures words[i] <= words[j]
  {
  }

  lemma TailsNoPrefix(words: seq<seq<bool>>, b: bool)
    requires NoPrefix(words)
    ensures NoPrefix(Tails(words, b))
  {
    var t := Tails(words, b);
    forall i, j | 0 <= i < |t| && 0 <= j < |t| && i != j ensures !(t[i] <= t[j]) {
      TailNoPrefix(words, b, i, j);
    }
  }

  lemma TailNoPrefix(words: seq<seq<bool>>, b: bool, i: int, j: int)
    requires NoPrefix(words) && 0 <= i < |Tails(words, b)| && 0 <= j < |Tails(words, b)| && i != j
    ensures !(Tails(words, b)[i] <= Tails(words, b)[j])
  {
    hide Tails;
    var k, m;
    if i < j { k, m := TailPair(words, b, i, j); } else { m, k := TailPair(words, b, j, i); }
    ConsPrefix(b, Tails(words, b)[i], Tails(words, b)[j]);
  }

  lemma {:induction false} TailsSum(words: seq<seq<bool>>)
    requires forall i :: 0 <= i < |words| ==> words[i] != []
    ensures KraftSum(Sizes(words)) == (KraftSum(Sizes(Tails(words, false))) + KraftSum(Sizes(Tails(words, true)))) / 2.0
  {
    if words != [] {
      var n := |words| - 1;
      TailsSum(words[..n]);
      var z := words[n];
      var b := z[0];
      var t := Tails(words[..n], b);
      assert Halves(Sizes(words))[..n] == Halves(Sizes(words[..n]));
      assert Tails(words, b) == t + [z[1..]];
      assert Halves(Sizes(t + [z[1..]]))[..|t|] == Halves(Sizes(t));
      assert Tails(words, !b) == Tails(words[..n], !b);
    }
  }

  /** The Kraft inequality. So lengths that are optimal among those with a Kraft sum of at
      most 1 are optimal among the lengths of all prefix-free codes. */
  lemma {:induction false} KraftInequality(words: seq<seq<bool>>, n: nat)
    requires NoPrefix(words) && forall i :: 0 <= i < |words| ==> |words[i]| <= n
    ensures KraftSum(Sizes(words)) <= 1.0
    decreases n
  {
    if words == [] {
      assert Halves(Sizes(words)) == [];
    } else if i :| 0 <= i < |words| && words[i] == [] {
      if |words| > 1 {
        EmptyBegins(words, i, if i == 0 then 1 else 0);
        assert false;
      }
      assert Halves(Sizes(words)) == [1.0];
      assert Sum([1.0]) == Sum([]) + 1.0;
    } else {
      assert 0 < |words[0]| <= n;
      TailsSum(words);
      forall b: bool ensures KraftSum(Sizes(Tails(words, b))) <= 1.0 {
        TailsNoPrefix(words, b);
        forall i | 0 <= i < |Tails(words, b)| ensures |Tails(words, b)[i]| <= n - 1 {
          var k := TailFrom(words, b, i);
        }
        KraftInequality(Tails(words, b), n - 1);
      }
    }
  }

  // Assigning codes.

  /** The codes of all symbols shorter than n, and of those before symbol k of length n, are set. */
  ghost predicate Assigned(code: seq<int>, len: seq<nat>, lo: nat, n: nat, k: int) {
    && |len| <= |code|
    && forall i :: 0 <= i < |len| && (len[i] < n || (len[i] == n && i < k)) ==> code[i] == Code(len, lo, i)
  }

  lemma AssignedNext(code: seq<int>, code': seq<int>, len: seq<nat>, lo: nat, n: nat, k: int, vec: int)
    requires Assigned(code, len, lo, n, k) && 0 <= k < |len|
    requires vec == First(len, lo, n) + Times(len[..k], n)
    requires code' == if len[k] == n then code[k := vec] else code
    ensures Assigned(code', len, lo, n, k + 1)
    ensures vec + (if len[k] == n then 1 else 0) == First(len, lo, n) + Times(len[..k + 1], n)
  {
    TimesNext(len, k, n);
  }

  lemma AssignedTurn(code: seq<int>, len: seq<nat>, lo: nat, n: nat)
    requires Assigned(code, len, lo, n, |len|) && n >= lo
    ensures Assigned(code, len, lo, n + 1, 0)
    ensures 2 * (First(len, lo, n) + Times(len[..|len|], n)) == First(len, lo, n + 1)
  {
    assert len[..|len|] == len;
  }

  /** Numbers the codes of each length in symbol order. */
  method AssignCodes(code: array<int>, length: array<nat>, minLen: nat, maxLen: nat, alphaSize: int)
    requires 0 <= alphaSize <= code.Length && alphaSize <= length.Length
    requires minLen <= maxLen && forall i :: 0 <= i < alphaSize ==> minLen <= length[i] <= maxLen
    modifies code
    ensures forall i :: 0 <= i < alphaSize ==> code[i] == Code(length[..alphaSize], minLen, i)
  {
    hide Code, First, Times, Assigned;
    ghost var len: seq<nat> := length[..alphaSize];
    var vec := 0;
    AssignedStart(code[..], len, minLen);
    for n := minLen to maxLen + 1
      invariant vec == First(len, minLen, n)
      invariant Assigned(code[..], len, minLen, n, 0)
    {
      for i := 0 to alphaSize
        invariant vec == First(len, minLen, n) + Times(len[..i], n)
        invariant Assigned(code[..], len, minLen, n, i)
      {
        ghost var c, v := code[..], vec;
        if length[i] == n {
          code[i] := vec;
          vec := vec + 1;
        }
        AssignedNext(c, code[..], len, minLen, n, i, v);
      }
      AssignedTurn(code[..], len, minLen, n);
      vec := vec * 2;
    }
    AssignedDone(code[..], len, minLen, maxLen);
  }

  lemma AssignedStart(code: seq<int>, len: seq<nat>, lo: nat)
    requires |len| <= |code| && forall i :: 0 <= i < |len| ==> lo <= len[i]
    ensures Assigned(code, len, lo, lo, 0) && First(len, lo, lo) == 0
    ensures forall n :: Times(len[..0], n) == 0
  {
  }

  lemma AssignedDone(code: seq<int>, len: seq<nat>, lo: nat, hi: nat)
    requires Assigned(code, len, lo, hi + 1, 0) && forall i :: 0 <= i < |len| ==> len[i] <= hi
    ensures forall i :: 0 <= i < |len| ==> code[i] == Code(len, lo, i)
  {
  }

  // Decode tables.

  datatype Tables = Tables(limit: seq<int>, base: seq<int>, perm: seq<int>)

  /** Where symbol i comes in the order of lengths, then symbols. */
  function Place(len: seq<nat>, i: int): nat
    requires 0 <= i < |len|
  {
    Shorter(len, len[i]) + Times(len[..i], len[i])
  }

  /** The tables fit the lengths lo..hi: the last code of each length, what to subtract from a
      code for its place, and the symbol in each place. */
  ghost predicate TablesFor(t: Tables, len: seq<nat>, lo: nat, hi: nat) {
    && hi < |t.limit| && hi < |t.base| && |len| <= |t.perm|
    && (forall n :: lo <= n <= hi ==> t.limit[n] == First(len, lo, n) + Times(len, n) - 1)
    && (forall n :: lo <= n <= hi ==> t.base[n] == First(len, lo, n) - Shorter(len, n))
    && (forall i :: 0 <= i < |len| ==> Place(len, i) < |len| && t.perm[Place(len, i)] == i)
  }

  lemma PlaceWithin(len: seq<nat>, i: int)
    requires 0 <= i < |len|
    ensures Place(len, i) < Shorter(len, len[i] + 1) <= |len|
  {
    RankWithin(len, i);
    ShorterNext(len, len[i]);
  }

  lemma {:induction false} ShorterMono(len: seq<nat>, m: nat, n: nat)
    requires m <= n
    ensures Shorter(len, m) <= Shorter(len, n)
  {
    if m < n {
      ShorterMono(len, m, n - 1);
      ShorterNext(len, n - 1);
    }
  }

  lemma {:induction false} ShorterNone(len: seq<nat>, n: nat)
    requires forall i :: 0 <= i < |len| ==> n <= len[i]
    ensures Shorter(len, n) == 0
  {
    if len != [] { ShorterNone(len[..|len| - 1], n); }
  }

  /** All symbols shorter than n, and those before symbol k of length n, are in their places. */
  ghost predicate Placed(perm: seq<int>, len: seq<nat>, n: nat, k: int) {
    && |len| <= |perm|
    && forall i :: 0 <= i < |len| && (len[i] < n || (len[i] == n && i < k)) ==>
      Place(len, i) < |len| && perm[Place(len, i)] == i
  }

  lemma PlaceBefore(len: seq<nat>, i: int, n: nat, k: int)
    requires 0 <= i < |len| && 0 <= k <= |len| && (len[i] < n || (len[i] == n && i < k))
    ensures Place(len, i) < Shorter(len, n) + Times(len[..k], n)
  {
    if len[i] < n {
      PlaceWithin(len, i);
      ShorterMono(len, len[i] + 1, n);
    } else {
      TimesGrows(len, i, k, n);
    }
  }

  lemma PlacedNext(perm: seq<int>, perm': seq<int>, len: seq<nat>, n: nat, k: int, pp: int)
    requires Placed(perm, len, n, k) && 0 <= k < |len| && pp == Shorter(len, n) + Times(len[..k], n)
    requires len[k] == n ==> 0 <= pp < |perm|
    requires perm' == if len[k] == n then perm[pp := k] else perm
    ensures Placed(perm', len, n, k + 1)
    ensures pp + (if len[k] == n then 1 else 0) == Shorter(len, n) + Times(len[..k + 1], n)
  {
    TimesNext(len, k, n);
    forall i | 0 <= i < |len| && (len[i] < n || (len[i] == n && i < k + 1))
      ensures Place(len, i) < |len| && perm'[Place(len, i)] == i
    {
      PlaceWithin(len, i);
      if i != k || len[k] < n { PlaceBefore(len, i, n, k); }
    }
  }

  lemma PlacedTurn(perm: seq<int>, len: seq<nat>, n: nat)
    requires Placed(perm, len, n, |len|)
    ensures Placed(perm, len, n + 1, 0)
    ensures Shorter(len, n) + Times(len[..|len|], n) == Shorter(len, n + 1) + Times(len[..0], n + 1)
  {
    assert len[..|len|] == len;
    ShorterNext(len, n);
  }

  lemma PlacedStart(perm: seq<int>, len: seq<nat>, lo: nat)
    requires |len| <= |perm| && forall i :: 0 <= i < |len| ==> lo <= len[i]
    ensures Placed(perm, len, lo, 0) && Shorter(len, lo) + Times(len[..0], lo) == 0
  {
    ShorterNone(len, lo);
  }

  /** Lists the symbols by length, then number. */
  method FillPerm(perm: array<int>, length: array<nat>, minLen: nat, maxLen: nat, alphaSize: int, ghost len: seq<nat>)
    requires 0 <= alphaSize <= perm.Length && alphaSize <= length.Length && len == length[..alphaSize]
    requires minLen <= maxLen && forall i :: 0 <= i < alphaSize ==> minLen <= len[i] <= maxLen
    modifies perm
    ensures Placed(perm[..], len, maxLen + 1, 0)
  {
    hide Placed, Shorter, Times, Place;
    var pp := 0;
    PlacedStart(perm[..], len, minLen);
    for n := minLen to maxLen + 1
      invariant pp == Shorter(len, n) + Times(len[..0], n) && Placed(perm[..], len, n, 0)
    {
      for j := 0 to alphaSize
        invariant pp == Shorter(len, n) + Times(len[..j], n) && Placed(perm[..], len, n, j)
      {
        ghost var p, at := perm[..], pp;
        assert length[j] == len[j];
        if length[j] == n {
          PlaceWithin(len, j);
          PlaceAt(len, j);
          perm[pp] := j;
          pp := pp + 1;
        }
        PlacedNext(p, perm[..], len, n, j, at);
      }
      PlacedTurn(perm[..], len, n);
    }
  }

  lemma PlaceAt(len: seq<nat>, j: int)
    requires 0 <= j < |len|
    ensures Place(len, j) == Shorter(len, len[j]) + Times(len[..j], len[j])
  {
  }

  const MAX_CODE_LEN: int := 23

  /** Counts the symbols of each length in the cell after it, then adds up the counts. */
  method CountBases(base: array<int>, length: array<nat>, alphaSize: int, ghost len: seq<nat>)
    requires 0 <= alphaSize <= length.Length && len == length[..alphaSize] && base.Length >= MAX_CODE_LEN
    requires forall i :: 0 <= i < alphaSize ==> len[i] + 1 < MAX_CODE_LEN
    modifies base
    ensures forall n :: 0 <= n < MAX_CODE_LEN ==> base[n] == Shorter(len, n)
  {
    for i := 0 to MAX_CODE_LEN
      invariant forall n :: 0 <= n < i ==> base[n] == 0
    {
      base[i] := 0;
    }
    for i := 0 to alphaSize
      invariant base[0] == 0 && forall n :: 1 <= n < MAX_CODE_LEN ==> base[n] == Times(len[..i], n - 1)
    {
      forall n: nat ensures Times(len[..i + 1], n) == Times(len[..i], n) + if length[i] == n then 1 else 0 {
        TimesNext(len, i, n);
      }
      base[length[i] + 1] := base[length[i] + 1] + 1;
    }
    assert len[..alphaSize] == len;
    ShorterNone(len, 0);
    for i := 1 to MAX_CODE_LEN
      invariant forall n :: 0 <= n < i ==> base[n] == Shorter(len, n)
      invariant forall n :: i <= n < MAX_CODE_LEN ==> base[n] == Times(len, n - 1)
    {
      ShorterNext(len, i - 1);
      base[i] := base[i] + base[i - 1];
    }
  }

  /** Sets the last code of each length. */
  method FillLimits(limit: array<int>, base: array<int>, minLen: nat, maxLen: nat, ghost len: seq<nat>)
    requires limit != base && limit.Length >= MAX_CODE_LEN && base.Length >= MAX_CODE_LEN
    requires minLen <= maxLen && maxLen + 1 < MAX_CODE_LEN
    requires forall n :: 0 <= n < MAX_CODE_LEN ==> base[n] == Shorter(len, n)
    modifies limit
    ensures forall n :: minLen <= n <= maxLen ==> limit[n] == First(len, minLen, n) + Times(len, n) - 1
    ensures forall n :: 0 <= n < MAX_CODE_LEN && !(minLen <= n <= maxLen) ==> limit[n] == 0
  {
    hide Shorter, Times, First;
    for i := 0 to MAX_CODE_LEN
      invariant forall n :: 0 <= n < i ==> limit[n] == 0
    {
      limit[i] := 0;
    }
    var vec := 0;
    FirstNone(len, minLen);
    for i := minLen to maxLen + 1
      invariant vec == First(len, minLen, i)
      invariant forall n :: 0 <= n < MAX_CODE_LEN && !(minLen <= n < i) ==> limit[n] == 0
      invariant forall n :: minLen <= n < i ==> limit[n] == First(len, minLen, n) + Times(len, n) - 1
    {
      ShorterNext(len, i);
      FirstNext(len, minLen, i);
      vec := vec + (base[i + 1] - base[i]);
      limit[i] := vec - 1;
      vec := vec * 2;
    }
  }

  /** Turns the counts into what is to be subtracted from codes. */
  method FinishBases(limit: array<int>, base: array<int>, minLen: nat, maxLen: nat, ghost len: seq<nat>)
    requires limit != base && limit.Length >= MAX_CODE_LEN && base.Length >= MAX_CODE_LEN
    requires minLen <= maxLen && maxLen + 1 < MAX_CODE_LEN
    requires forall n :: 0 <= n < MAX_CODE_LEN ==> base[n] == Shorter(len, n)
    requires Shorter(len, minLen) == 0
    requires forall n :: minLen <= n <= maxLen ==> limit[n] == First(len, minLen, n) + Times(len, n) - 1
    modifies base
    ensures forall n :: minLen <= n <= maxLen ==> base[n] == First(len, minLen, n) - Shorter(len, n)
    ensures forall n :: 0 <= n < MAX_CODE_LEN && !(minLen <= n <= maxLen) ==> base[n] == Shorter(len, n)
  {
    hide First, Shorter, Times;
    FirstNone(len, minLen);
    for i := minLen + 1 to maxLen + 1
      invariant forall n :: minLen <= n < i ==> base[n] == First(len, minLen, n) - Shorter(len, n)
      invariant forall n :: 0 <= n < MAX_CODE_LEN && !(minLen <= n < i) ==> base[n] == Shorter(len, n)
    {
      FirstNext(len, minLen, i - 1);
      assert limit[i - 1] == First(len, minLen, i - 1) + Times(len, i - 1) - 1;
      base[i] := (limit[i - 1] + 1) * 2 - base[i];
    }
  }

  lemma FirstNone(len: seq<nat>, lo: nat)
    ensures First(len, lo, lo) == 0
  {
  }

  lemma FirstNext(len: seq<nat>, lo: nat, n: nat)
    requires lo <= n
    ensures First(len, lo, n + 1) == 2 * (First(len, lo, n) + Times(len, n))
  {
  }

  /** Builds the tables that decode the canonical code of the given lengths. */
  method CreateDecodeTables(limit: array<int>, base: array<int>, perm: array<int>, length: array<nat>,
                            minLen: nat, maxLen: nat, alphaSize: int)
    requires limit != base && limit != perm && base != perm
    requires limit.Length >= MAX_CODE_LEN && base.Length >= MAX_CODE_LEN
    requires 0 <= alphaSize <= perm.Length && alphaSize <= length.Length
    requires minLen <= maxLen && maxLen + 1 < MAX_CODE_LEN
    requires forall i :: 0 <= i < alphaSize ==> minLen <= length[i] <= maxLen
    modifies limit, base, perm
    ensures TablesFor(Tables(limit[..], base[..], perm[..]), length[..alphaSize], minLen, maxLen)
    ensures forall n :: 0 <= n < MAX_CODE_LEN && !(minLen <= n <= maxLen) ==>
      limit[n] == 0 && base[n] == Shorter(length[..alphaSize], n)
  {
    hide *;
    ghost var len: seq<nat> := length[..alphaSize];
    CodeLengthLimit();
    PlacedStart(perm[..], len, minLen);
    FillPerm(perm, length, minLen, maxLen, alphaSize, len);
    CountBases(base, length, alphaSize, len);
    FillLimits(limit, base, minLen, maxLen, len);
    ShorterNone(len, minLen);
    FinishBases(limit, base, minLen, maxLen, len);
    TablesDone(limit[..], base[..], perm[..], len, minLen, maxLen);
  }

  lemma CodeLengthLimit()
    ensures MAX_CODE_LEN == 23
  {
  }

  lemma TablesDone(limit: seq<int>, base: seq<int>, perm: seq<int>, len: seq<nat>, lo: nat, hi: nat)
    requires hi < |limit| && hi < |base| && Placed(perm, len, hi + 1, 0)
    requires forall i :: 0 <= i < |len| ==> len[i] <= hi
    requires forall n :: lo <= n <= hi ==> limit[n] == First(len, lo, n) + Times(len, n) - 1
    requires forall n :: lo <= n <= hi ==> base[n] == First(len, lo, n) - Shorter(len, n)
    ensures TablesFor(Tables(limit, base, perm), len, lo, hi)
  {
  }

  // Decoding.

  datatype Symbol = Symbol(value: int, rest: seq<bool>) | NoSymbol

  const LONGEST: int := 20
  const TABLE_SIZE: int := 258

  /** Reads on from the code prefix zvec of zn bits until it is a code. */
  function ReadSymbol(t: Tables, zn: nat, zvec: int, bits: seq<bool>): Symbol
    decreases |bits|
  {
    if zn > LONGEST || zn >= |t.limit| || zn >= |t.base| then NoSymbol
    else if zvec <= t.limit[zn] then
      var k := zvec - t.base[zn];
      if 0 <= k < TABLE_SIZE && k < |t.perm| then Symbol(t.perm[k], bits) else NoSymbol
    else if bits == [] then NoSymbol
    else ReadSymbol(t, zn + 1, 2 * zvec + (if bits[0] then 1 else 0), bits[1..])
  }

  /** Reads one symbol, starting with as many bits as the shortest code has. */
  function Decode(t: Tables, lo: nat, bits: seq<bool>): Symbol {
    if |bits| < lo then NoSymbol else ReadSymbol(t, lo, Value(bits[..lo]), bits[lo..])
  }

  ghost predicate Decodable(len: seq<nat>, lo: nat, hi: nat) {
    && lo <= hi <= LONGEST && |len| <= TABLE_SIZE && KraftSum(len) <= 1.0
    && forall i :: 0 <= i < |len| ==> lo <= len[i] <= hi
  }

  lemma ReadHit(t: Tables, len: seq<nat>, lo: nat, hi: nat, i: int, more: seq<bool>)
    requires TablesFor(t, len, lo, hi) && Decodable(len, lo, hi) && 0 <= i < |len|
    ensures ReadSymbol(t, len[i], Code(len, lo, i), more) == Symbol(i, more)
  {
    hide First, Times, Shorter;
    CodeBounds(len, lo, i);
    PlaceWithin(len, i);
    assert Code(len, lo, i) - t.base[len[i]] == Place(len, i);
  }

  lemma ReadMiss(t: Tables, len: seq<nat>, lo: nat, hi: nat, n: nat, z: nat, bits: seq<bool>)
    requires TablesFor(t, len, lo, hi) && Decodable(len, lo, hi) && lo <= n <= hi && bits != []
    requires z >= First(len, lo, n) + Times(len, n)
    ensures ReadSymbol(t, n, z, bits) == ReadSymbol(t, n + 1, 2 * z + (if bits[0] then 1 else 0), bits[1..])
  {
    hide First, Times, Shorter;
  }

  lemma {:induction false} ReadOn(t: Tables, len: seq<nat>, lo: nat, hi: nat, i: int, n: nat, w: seq<bool>,
                                  more: seq<bool>)
    requires TablesFor(t, len, lo, hi) && Decodable(len, lo, hi) && 0 <= i < |len| && lo <= n <= len[i] <= hi
    requires w == CodeWord(len, lo, i) && |w| == len[i] && Code(len, lo, i) >= First(len, lo, len[i])
    ensures ReadSymbol(t, n, Shr(Code(len, lo, i), len[i] - n), w[n..] + more) == Symbol(i, more)
    decreases len[i] - n
  {
    hide *;
    var c, m := Code(len, lo, i), len[i];
    if n == m {
      assert w[n..] + more == more;
      ReadHit(t, len, lo, hi, i, more);
      ShrNone(c);
    } else {
      ShrAbove(len, lo, n, m, c);
      CodeWordBit(len, lo, i, n);
      var bits := w[n..] + more;
      assert bits[0] == w[n] && bits[1..] == w[n + 1..] + more;
      ReadMiss(t, len, lo, hi, n, Shr(c, m - n), bits);
      ReadOn(t, len, lo, hi, i, n + 1, w, more);
    }
  }

  lemma ShrNone(c: nat)
    ensures Shr(c, 0) == c
  {
  }

  lemma CodeWordBit(len: seq<nat>, lo: nat, i: int, k: nat)
    requires 0 <= i < |len| && k < len[i]
    ensures |CodeWord(len, lo, i)| == len[i]
    ensures Shr(Code(len, lo, i), len[i] - (k + 1))
         == 2 * Shr(Code(len, lo, i), len[i] - k) + if CodeWord(len, lo, i)[k] then 1 else 0
  {
    WordBit(Code(len, lo, i), len[i], k);
  }

  lemma CodeWordStart(len: seq<nat>, lo: nat, hi: nat, i: int)
    requires Decodable(len, lo, hi) && 0 <= i < |len|
    ensures lo <= len[i] <= hi && |CodeWord(len, lo, i)| == len[i] && Code(len, lo, i) >= First(len, lo, len[i])
    ensures Value(CodeWord(len, lo, i)[..lo]) == Shr(Code(len, lo, i), len[i] - lo)
  {
    var c, m := Code(len, lo, i), len[i];
    CodeBounds(len, lo, i);
    WordPrefix(c, m, lo);
    ShrFits(c, m, lo);
    WordValue(Shr(c, m - lo), lo);
  }

  /** A code word followed by anything decodes to its symbol and leaves exactly what follows. */
  lemma DecodeCode(t: Tables, len: seq<nat>, lo: nat, hi: nat, i: int, more: seq<bool>)
    requires TablesFor(t, len, lo, hi) && Decodable(len, lo, hi) && 0 <= i < |len|
    ensures Decode(t, lo, CodeWord(len, lo, i) + more) == Symbol(i, more)
  {
    hide Code, CodeWord, Decodable, First, ReadSymbol, Shr, TablesFor, Value;
    var w := CodeWord(len, lo, i);
    CodeWordStart(len, lo, hi, i);
    assert (w + more)[..lo] == w[..lo] && (w + more)[lo..] == w[lo..] + more;
    ReadOn(t, len, lo, hi, i, lo, w, more);
  }
}
