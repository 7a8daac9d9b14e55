/** Sums over sequences of integers, one entry per thread. */
module Sums {

  function Sum(xs: seq<int>): int {
    if xs == [] then 0 else xs[0] + Sum(xs[1..])
  }

  lemma {:induction false} SumUpdate(xs: seq<int>, i: nat, v: int)
    requires i < |xs|
    ensures Sum(xs[i := v]) == Sum(xs) - xs[i] + v
  {
    if i == 0 {
      assert xs[0 := v][1..] == xs[1..];
    } else {
      assert xs[i := v][1..] == xs[1..][i - 1 := v];
      SumUpdate(xs[1..], i - 1, v);
    }
  }

  lemma {:induction false} SumAtMost(xs: seq<int>, ys: seq<int>, b: int)
    requires |xs| == |ys| && forall i :: 0 <= i < |xs| ==> ys[i] <= xs[i] + b
    ensures Sum(ys) <= Sum(xs) + b * |xs|
  {
    if xs != [] {
      SumAtMost(xs[1..], ys[1..], b);
      assert b * |xs| == b + b * |xs[1..]|;
    }
  }

  /** One entry is known exactly and every other entry grows by at most `b`. */
  lemma SumAtMostBut(xs: seq<int>, ys: seq<int>, t: nat, b: int)
    requires t < |xs| == |ys|
    requires forall i :: 0 <= i < |xs| && i != t ==> ys[i] <= xs[i] + b
    ensures Sum(ys) <= Sum(xs) + (ys[t] - xs[t]) + b * (|xs| - 1)
  {
    SumAtMost(xs, ys[t := xs[t] + b], b);
    SumUpdate(ys, t, xs[t] + b);
    OneFactorLess(b, |xs|);
  }

  lemma OneFactorLess(b: int, n: int)
    ensures b * n == b + b * (n - 1)
  {
  }

  lemma {:induction false} SumConstant(xs: seq<int>, v: int)
    requires forall i :: 0 <= i < |xs| ==> xs[i] == v
    ensures Sum(xs) == |xs| * v
  {
    if xs != [] {
      SumConstant(xs[1..], v);
      assert |xs| * v == v + |xs[1..]| * v;
    }
  }

  lemma {:induction false} SumBounds(xs: seq<int>, lo: int, hi: int)
    requires forall i :: 0 <= i < |xs| ==> lo <= xs[i] <= hi
    ensures |xs| * lo <= Sum(xs) <= |xs| * hi
  {
    if xs != [] {
      SumBounds(xs[1..], lo, hi);
      assert |xs| * lo == lo + |xs[1..]| * lo;
      assert |xs| * hi == hi + |xs[1..]| * hi;
    }
  }
}
