/** Sums of counts. */
module Tally {

  function Sum(y: seq<nat>): nat {
    if y == [] then 0 else y[0] + Sum(y[1..])
  }

  lemma {:induction false} SumOfUpdate(y: seq<nat>, i: nat)
    requires i < |y|
    ensures Sum(y[i := y[i] + 1]) == Sum(y) + 1
  {
    if i > 0 {
      assert y[i := y[i] + 1][1..] == y[1..][i - 1 := y[i] + 1];
      SumOfUpdate(y[1..], i - 1);
    } else {
      assert y[i := y[i] + 1][1..] == y[1..];
    }
  }

  lemma {:induction false} SumOfZeros(n: nat)
    ensures Sum(seq(n, _ => 0)) == 0
  {
    if n > 0 {
      assert seq(n, _ => 0)[1..] == seq(n - 1, _ => 0);
      SumOfZeros(n - 1);
    }
  }
}
