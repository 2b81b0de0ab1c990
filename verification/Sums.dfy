/** Sums of tables of counters. */
module Sums {

  function Sum(ns: seq<nat>): nat {
    if ns == [] then 0 else ns[0] + Sum(ns[1..])
  }

  lemma {:induction false} SumAt(ns: seq<nat>, i: nat, x: nat)
    requires i < |ns|
    ensures Sum(ns[i := x]) == Sum(ns) - ns[i] + x
  {
    if i == 0 {
      assert ns[i := x][1..] == ns[1..];
    } else {
      SumAt(ns[1..], i - 1, x);
      assert ns[i := x][1..] == ns[1..][i - 1 := x];
    }
  }

  lemma {:induction false} SumZero(n: nat)
    ensures Sum(seq(n, _ => 0)) == 0
  {
    if n > 0 {
      SumZero(n - 1);
      assert seq(n, _ => 0)[1..] == seq(n - 1, _ => 0);
    }
  }
}
