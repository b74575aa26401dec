/** The decode tables as functions of the code lengths. */
module CodeTables {
  import opened CanonicalCodes
  import Counting
  import Sequences

  /** The symbols of length n, in order. */
  function OfLength(len: seq<nat>, n: nat): (p: seq<int>)
    ensures |p| == Times(len, n)
  {
    if len == [] then []
    else OfLength(len[..|len| - 1], n) + if len[|len| - 1] == n then [|len| - 1] else []
  }

  /** The symbols shorter than n, by length and then in order. */
  function Ordered(len: seq<nat>, n: nat): seq<int> {
    if n == 0 then [] else Ordered(len, n - 1) + OfLength(len, n - 1)
  }

  lemma {:induction false} OrderedSize(len: seq<nat>, n: nat)
    ensures |Ordered(len, n)| == Shorter(len, n)
  {
    if n == 0 {
      ShorterNone(len, 0);
    } else {
      OrderedSize(len, n - 1);
      ShorterNext(len, n - 1);
    }
  }

  lemma OrderedNext(len: seq<nat>, n: nat)
    ensures Ordered(len, n + 1) == Ordered(len, n) + OfLength(len, n)
  {
  }

  lemma {:induction false} OfLengthAt(len: seq<nat>, n: nat, i: int)
    requires 0 <= i < |len| && len[i] == n
    ensures Times(len[..i], n) < Times(len, n) && OfLength(len, n)[Times(len[..i], n)] == i
  {
    RankWithin(len, i);
    var m := |len| - 1;
    if i < m {
      assert len[..m][..i] == len[..i];
      OfLengthAt(len[..m], n, i);
    }
  }

  lemma {:induction false} OrderedPrefix(len: seq<nat>, n: nat, m: nat)
    requires n <= m
    ensures Ordered(len, n) <= Ordered(len, m)
  {
    hide OfLength;
    if n < m { OrderedPrefix(len, n, m - 1); }
  }

  /** Symbol i is in its place. */
  lemma OrderedAt(len: seq<nat>, i: int, hi: nat)
    requires 0 <= i < |len| && len[i] <= hi
    ensures Place(len, i) < |Ordered(len, hi + 1)| && Ordered(len, hi + 1)[Place(len, i)] == i
  {
    hide *;
    var n := len[i];
    OfLengthAt(len, n, i);
    OrderedPrefix(len, n + 1, hi + 1);
    OrderedNext(len, n);
    OrderedSize(len, n);
    PlaceAt(len, i);
    OfLengthSize(len, n);
  }

  lemma OfLengthSize(len: seq<nat>, n: nat)
    ensures |OfLength(len, n)| == Times(len, n)
  {
  }

  /** The symbols listed are symbols. */
  lemma {:induction false} OfLengthRange(len: seq<nat>, n: nat)
    ensures forall k :: 0 <= k < |OfLength(len, n)| ==> 0 <= OfLength(len, n)[k] < |len|
  {
    if len != [] { OfLengthRange(len[..|len| - 1], n); }
  }

  lemma {:induction false} OrderedRange(len: seq<nat>, n: nat)
    ensures forall k :: 0 <= k < |Ordered(len, n)| ==> 0 <= Ordered(len, n)[k] < |len|
  {
    if n > 0 {
      OrderedRange(len, n - 1);
      OfLengthRange(len, n - 1);
    }
  }

  lemma {:induction false} AllShorter(len: seq<nat>, n: nat)
    requires forall i :: 0 <= i < |len| ==> len[i] < n
    ensures Shorter(len, n) == |len|
  {
    if len != [] { AllShorter(len[..|len| - 1], n); }
  }

  function MinLen(len: seq<nat>): nat {
    if len == [] then 32
    else
      var m := MinLen(len[..|len| - 1]);
      if len[|len| - 1] < m then len[|len| - 1] else m
  }

  function MaxLen(len: seq<nat>): nat {
    if len == [] then 0
    else
      var m := MaxLen(len[..|len| - 1]);
      if len[|len| - 1] > m then len[|len| - 1] else m
  }

  lemma {:induction false} MinMax(len: seq<nat>)
    ensures forall i :: 0 <= i < |len| ==> MinLen(len) <= len[i] <= MaxLen(len)
    ensures len != [] ==> MinLen(len) <= MaxLen(len)
  {
    if len != [] { MinMax(len[..|len| - 1]); }
  }

  lemma {:induction false} MinMaxWithin(len: seq<nat>, lo: nat, hi: nat)
    requires lo <= 32 && forall i :: 0 <= i < |len| ==> lo <= len[i] <= hi
    ensures lo <= MinLen(len) && MaxLen(len) <= hi
  {
    if len != [] { MinMaxWithin(len[..|len| - 1], lo, hi); }
  }

  function LimitAt(len: seq<nat>, lo: nat, hi: nat, n: nat): int {
    if lo <= n <= hi then First(len, lo, n) + Times(len, n) - 1 else 0
  }

  function BaseAt(len: seq<nat>, lo: nat, hi: nat, n: nat): int {
    if lo <= n <= hi then First(len, lo, n) - Shorter(len, n) else Shorter(len, n)
  }

  /** What the decompressor builds for code lengths of at most 20. */
  function TablesOf(len: seq<nat>): Tables {
    var lo, hi := MinLen(len), MaxLen(len);
    Tables(seq(MAX_CODE_LEN, n requires 0 <= n => LimitAt(len, lo, hi, n)),
           seq(MAX_CODE_LEN, n requires 0 <= n => BaseAt(len, lo, hi, n)),
           Ordered(len, hi + 1))
  }

  lemma PlacesFit(len: seq<nat>, hi: nat)
    requires forall i :: 0 <= i < |len| ==> len[i] <= hi
    ensures |Ordered(len, hi + 1)| == |len|
    ensures forall i :: 0 <= i < |len| ==> Place(len, i) < |len| && Ordered(len, hi + 1)[Place(len, i)] == i
  {
    hide *;
    AllShorter(len, hi + 1);
    OrderedSize(len, hi + 1);
    forall i | 0 <= i < |len| ensures Place(len, i) < |len| && Ordered(len, hi + 1)[Place(len, i)] == i {
      OrderedAt(len, i, hi);
    }
  }

  lemma TablesOfFit(len: seq<nat>)
    requires len != [] && forall i :: 0 <= i < |len| ==> len[i] <= LONGEST
    ensures TablesFor(TablesOf(len), len, MinLen(len), MaxLen(len)) && |TablesOf(len).perm| == |len|
  {
    hide First, Times, Shorter, Place, Ordered, MinLen, MaxLen;
    MinMax(len);
    MinMaxWithin(len, 0, LONGEST);
    PlacesFit(len, MaxLen(len));
  }

  // The tables as they are built in arrays.

  /** The order of the symbols is the only one that the places allow. */
  lemma OrderedUnique(perm: seq<int>, len: seq<nat>, hi: nat)
    requires |len| <= |perm| && forall i :: 0 <= i < |len| ==> len[i] <= hi
    requires forall i :: 0 <= i < |len| ==> Place(len, i) < |len| && perm[Place(len, i)] == i
    ensures perm[..|len|] == Ordered(len, hi + 1)
  {
    hide Place, Ordered;
    PlacesFit(len, hi);
    var n, o := |len|, Ordered(len, hi + 1);
    var p := seq(n, i requires 0 <= i < n => Place(len, i) as int);
    forall i, j | 0 <= i < j < n ensures p[i] != p[j] {
      assert o[Place(len, i)] == i && o[Place(len, j)] == j;
    }
    forall k | 0 <= k < n ensures perm[k] == o[k] {
      var i := Counting.Surjective(p, n, k);
      assert Place(len, i) == k;
    }
  }

  /** Tables in larger arrays agree with those of the lengths on every cell that can be read. */
  ghost predicate Agree(t: Tables, len: seq<nat>) {
    && MAX_CODE_LEN <= |t.limit| && MAX_CODE_LEN <= |t.base| && |len| <= |t.perm|
    && t.limit[..MAX_CODE_LEN] == TablesOf(len).limit && t.base[..MAX_CODE_LEN] == TablesOf(len).base
    && t.perm[..|len|] == TablesOf(len).perm
  }

  lemma TablesCells(len: seq<nat>, n: int)
    requires 0 <= n < MAX_CODE_LEN
    ensures |TablesOf(len).limit| == |TablesOf(len).base| == MAX_CODE_LEN
    ensures TablesOf(len).limit[n] == LimitAt(len, MinLen(len), MaxLen(len), n)
    ensures TablesOf(len).base[n] == BaseAt(len, MinLen(len), MaxLen(len), n)
    ensures TablesOf(len).perm == Ordered(len, MaxLen(len) + 1)
  {
    hide LimitAt, BaseAt, MinLen, MaxLen, Ordered;
  }

  lemma BuiltCell(t: Tables, len: seq<nat>, n: int)
    requires MAX_CODE_LEN <= |t.limit| && MAX_CODE_LEN <= |t.base| && 0 <= n < MAX_CODE_LEN
    requires TablesFor(t, len, MinLen(len), MaxLen(len))
    requires !(MinLen(len) <= n <= MaxLen(len)) ==> t.limit[n] == 0 && t.base[n] == Shorter(len, n)
    ensures t.limit[n] == LimitAt(len, MinLen(len), MaxLen(len), n)
    ensures t.base[n] == BaseAt(len, MinLen(len), MaxLen(len), n)
  {
    hide First, Times, Shorter, Place, MinLen, MaxLen;
  }

  /** What is built agrees. */
  lemma BuiltAgree(t: Tables, len: seq<nat>)
    requires len != [] && forall i :: 0 <= i < |len| ==> len[i] <= LONGEST
    requires MAX_CODE_LEN <= |t.limit| && MAX_CODE_LEN <= |t.base|
    requires TablesFor(t, len, MinLen(len), MaxLen(len))
    requires forall n :: 0 <= n < MAX_CODE_LEN && !(MinLen(len) <= n <= MaxLen(len)) ==>
      t.limit[n] == 0 && t.base[n] == Shorter(len, n)
    ensures Agree(t, len)
  {
    hide First, Times, Shorter, Place, Ordered, MinLen, MaxLen, LimitAt, BaseAt, TablesOf;
    MinMax(len);
    MinMaxWithin(len, 0, LONGEST);
    OrderedUnique(t.perm, len, MaxLen(len));
    TablesCells(len, 0);
    forall n | 0 <= n < MAX_CODE_LEN
      ensures t.limit[n] == TablesOf(len).limit[n] && t.base[n] == TablesOf(len).base[n]
    {
      TablesCells(len, n);
      BuiltCell(t, len, n);
    }
  }

  /** Reading on from the shortest length, a code that is at most the last one of its length has a
      place among the symbols; none is found beyond the longest length. */
  lemma HitInside(len: seq<nat>, n: nat, z: int)
    requires len != [] && MinLen(len) <= n && 0 <= z <= LimitAt(len, MinLen(len), MaxLen(len), n)
    requires n > MinLen(len) ==> z >= 2 * (LimitAt(len, MinLen(len), MaxLen(len), n - 1) + 1)
    ensures 0 <= z - BaseAt(len, MinLen(len), MaxLen(len), n) < |len|
  {
    hide Times, Shorter, First, MinLen, MaxLen;
    var lo, hi := MinLen(len), MaxLen(len);
    MinMax(len);
    LongestUsed(len);
    if n > lo { FirstNext(len, lo, n - 1); } else { FirstNone(len, lo); }
    ShorterNext(len, n);
  }

  lemma {:induction false} MaxLenUsed(len: seq<nat>)
    requires len != []
    ensures exists i :: 0 <= i < |len| && len[i] == MaxLen(len)
  {
    var n := |len| - 1;
    if n > 0 && len[n] <= MaxLen(len[..n]) {
      MaxLenUsed(len[..n]);
      var i :| 0 <= i < n && len[..n][i] == MaxLen(len[..n]);
      assert len[i] == MaxLen(len);
    } else {
      assert len[n] == MaxLen(len);
    }
  }

  lemma LongestUsed(len: seq<nat>)
    requires len != []
    ensures Times(len, MaxLen(len)) >= 1
  {
    MaxLenUsed(len);
    var i :| 0 <= i < |len| && len[i] == MaxLen(len);
    RankWithin(len, i);
  }
}
