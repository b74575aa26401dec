/** Finite sums, of integers and of reals. */
module Sums {

  function Total(s: seq<int>): int {
    if s == [] then 0 else Total(s[..|s| - 1]) + s[|s| - 1]
  }

  function Sum(s: seq<real>): real {
    if s == [] then 0.0 else Sum(s[..|s| - 1]) + s[|s| - 1]
  }

  lemma {:induction false} TotalUpdate(s: seq<int>, k: int, x: int)
    requires 0 <= k < |s|
    ensures Total(s[k := x]) == Total(s) - s[k] + x
  {
    var n := |s| - 1;
    if k < n {
      assert s[k := x][..n] == s[..n][k := x];
      TotalUpdate(s[..n], k, x);
    } else {
      assert s[k := x][..n] == s[..n];
    }
  }

  lemma {:induction false} SumUpdate(s: seq<real>, k: int, x: real)
    requires 0 <= k < |s|
    ensures Sum(s[k := x]) == Sum(s) - s[k] + x
  {
    var n := |s| - 1;
    if k < n {
      assert s[k := x][..n] == s[..n][k := x];
      SumUpdate(s[..n], k, x);
    } else {
      assert s[k := x][..n] == s[..n];
    }
  }

  lemma {:induction false} TotalMono(s: seq<int>, t: seq<int>)
    requires |s| == |t| && forall k :: 0 <= k < |s| ==> s[k] <= t[k]
    ensures Total(s) <= Total(t)
    ensures (exists k :: 0 <= k < |s| && s[k] < t[k]) ==> Total(s) < Total(t)
  {
    if |s| > 0 { TotalMono(s[..|s| - 1], t[..|s| - 1]); }
  }

  lemma {:induction false} SumMono(s: seq<real>, t: seq<real>)
    requires |s| == |t| && forall k :: 0 <= k < |s| ==> s[k] <= t[k]
    ensures Sum(s) <= Sum(t)
  {
    if |s| > 0 { SumMono(s[..|s| - 1], t[..|s| - 1]); }
  }

  /** A sum of termwise sums. */
  lemma {:induction false} TotalAdd(s: seq<int>, t: seq<int>, u: seq<int>)
    requires |s| == |t| == |u| && forall k :: 0 <= k < |s| ==> u[k] == s[k] + t[k]
    ensures Total(u) == Total(s) + Total(t)
  {
    if |s| > 0 { TotalAdd(s[..|s| - 1], t[..|s| - 1], u[..|s| - 1]); }
  }

  /** A sum of termwise means. */
  lemma {:induction false} SumMean(s: seq<real>, t: seq<real>, u: seq<real>)
    requires |s| == |t| == |u| && forall k :: 0 <= k < |s| ==> u[k] == (s[k] + t[k]) / 2.0
    ensures Sum(u) == (Sum(s) + Sum(t)) / 2.0
  {
    if |s| > 0 { SumMean(s[..|s| - 1], t[..|s| - 1], u[..|s| - 1]); }
  }

  lemma {:induction false} TotalConcat(s: seq<int>, t: seq<int>)
    ensures Total(s + t) == Total(s) + Total(t)
  {
    if t == [] {
      assert s + t == s;
    } else {
      assert (s + t)[..|s + t| - 1] == s + t[..|t| - 1];
      TotalConcat(s, t[..|t| - 1]);
    }
  }

  lemma {:induction false} SumConcat(s: seq<real>, t: seq<real>)
    ensures Sum(s + t) == Sum(s) + Sum(t)
  {
    if t == [] {
      assert s + t == s;
    } else {
      assert (s + t)[..|s + t| - 1] == s + t[..|t| - 1];
      SumConcat(s, t[..|t| - 1]);
    }
  }

  lemma {:induction false} TotalZeros(s: seq<int>)
    requires forall k :: 0 <= k < |s| ==> s[k] == 0
    ensures Total(s) == 0
  {
    if s != [] { TotalZeros(s[..|s| - 1]); }
  }

  lemma {:induction false} SumZeros(s: seq<real>)
    requires forall k :: 0 <= k < |s| ==> s[k] == 0.0
    ensures Sum(s) == 0.0
  {
    if s != [] { SumZeros(s[..|s| - 1]); }
  }

  /** A term of a sum of non-negative terms, or two of them. */
  lemma TwoTerms(s: seq<real>, j: int, k: int)
    requires 0 <= j < |s| && 0 <= k < |s| && j != k && forall i :: 0 <= i < |s| ==> s[i] >= 0.0
    ensures s[j] + s[k] <= Sum(s)
  {
    var t := s[j := 0.0][k := 0.0];
    SumUpdate(s, j, 0.0);
    SumUpdate(s[j := 0.0], k, 0.0);
    var z := seq(|s|, i => 0.0);
    SumZeros(z);
    SumMono(z, t);
  }

  lemma TotalPadded(s: seq<int>, z: seq<int>)
    requires forall k :: 0 <= k < |z| ==> z[k] == 0
    ensures Total([0] + s + z) == Total(s)
  {
    TotalConcat([0] + s, z);
    TotalConcat([0], s);
    TotalZeros([0]);
    TotalZeros(z);
  }

  lemma SumPadded(s: seq<real>, z: seq<real>)
    requires forall k :: 0 <= k < |z| ==> z[k] == 0.0
    ensures Sum([0.0] + s + z) == Sum(s)
  {
    SumConcat([0.0] + s, z);
    SumConcat([0.0], s);
    SumZeros([0.0]);
    SumZeros(z);
  }
}
