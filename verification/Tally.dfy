/** Sums over a list of threads, and what one thread's step does to them. */
module Tally {

  function Sum<T>(s: seq<T>, w: T -> int): int {
    if s == [] then 0 else Sum(s[..|s| - 1], w) + w(s[|s| - 1])
  }

  lemma {:induction false} SumUpdate<T>(s: seq<T>, i: nat, x: T, w: T -> int)
    requires i < |s|
    ensures Sum(s[i := x], w) == Sum(s, w) - w(s[i]) + w(x)
    decreases |s|
  {
    var n := |s| - 1;
    if i < n {
      assert s[i := x][..n] == s[..n][i := x];
      SumUpdate(s[..n], i, x, w);
    } else {
      assert s[i := x][..n] == s[..n];
    }
  }

  lemma {:induction false} SumAtLeast<T>(s: seq<T>, i: nat, w: T -> int)
    requires i < |s| && forall x :: x in s ==> w(x) >= 0
    ensures Sum(s, w) >= w(s[i])
    decreases |s|
  {
    var n := |s| - 1;
    SumNonNegative(s[..n], w);
    if i < n {
      SumAtLeast(s[..n], i, w);
    }
  }

  lemma {:induction false} SumNonNegative<T>(s: seq<T>, w: T -> int)
    requires forall x :: x in s ==> w(x) >= 0
    ensures Sum(s, w) >= 0
    decreases |s|
  {
    if s != [] {
      SumNonNegative(s[..|s| - 1], w);
    }
  }

  lemma {:induction false} SumAtMost<T>(s: seq<T>, w: T -> int, b: int)
    requires forall x :: x in s ==> w(x) <= b
    ensures Sum(s, w) <= b * |s|
    decreases |s|
  {
    if s != [] {
      SumAtMost(s[..|s| - 1], w, b);
      assert b * |s| == b * (|s| - 1) + b;
    }
  }

  /** A positive sum of non-negative weights has a positive member. */
  lemma {:induction false} SumPositive<T>(s: seq<T>, w: T -> int) returns (i: nat)
    requires Sum(s, w) > 0
    ensures i < |s| && w(s[i]) > 0
    decreases |s|
  {
    var n := |s| - 1;
    if w(s[n]) > 0 {
      i := n;
    } else {
      i := SumPositive(s[..n], w);
    }
  }
}
