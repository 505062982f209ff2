/** Sequences of distinct numbers. */
module Seqs {
  ghost predicate Distinct(xs: seq<nat>) {
    forall i, j :: 0 <= i < j < |xs| ==> xs[i] != xs[j]
  }

  function First(xs: seq<nat>): nat { if xs == [] then 0 else xs[0] }

  lemma {:induction false} DistinctFits(xs: seq<nat>, n: nat)
    requires Distinct(xs) && forall i :: 0 <= i < |xs| ==> xs[i] < n
    ensures |xs| <= n
    decreases n
  {
    if n > 0 {
      if n - 1 in xs {
        var i :| 0 <= i < |xs| && xs[i] == n - 1;
        var ys := xs[..i] + xs[i + 1..];
        forall j | 0 <= j < |ys| ensures ys[j] < n - 1 { assert ys[j] == xs[if j < i then j else j + 1]; }
        DistinctFits(ys, n - 1);
      } else {
        forall j | 0 <= j < |xs| ensures xs[j] < n - 1 { assert xs[j] in xs; }
        DistinctFits(xs, n - 1);
      }
    } else {
      assert First(xs) >= 0;
    }
  }

  /** n distinct numbers below n are all of them. */
  lemma DistinctCovers(xs: seq<nat>, n: nat, k: nat)
    requires Distinct(xs) && |xs| == n && k < n && forall i :: 0 <= i < |xs| ==> xs[i] < n
    ensures k in xs
  {
    if k !in xs {
      DistinctFits(xs + [k], n);
    }
  }
}
