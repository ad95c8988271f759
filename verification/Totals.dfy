/** Weights summed over a sequence, for the step-bound measures of the protocol models. */
module Totals {

  function Total<T>(w: T -> nat, xs: seq<T>): nat {
    if xs == [] then 0 else w(xs[0]) + Total(w, xs[1..])
  }

  lemma {:induction false} TotalUpdate<T>(w: T -> nat, xs: seq<T>, i: nat, x: T)
    requires i < |xs|
    ensures Total(w, xs[i := x]) + w(xs[i]) == Total(w, xs) + w(x)
  {
    if i == 0 {
      assert xs[0 := x][1..] == xs[1..];
    } else {
      assert xs[i := x][1..] == xs[1..][i - 1 := x];
      TotalUpdate(w, xs[1..], i - 1, x);
    }
  }

  lemma {:induction false} TotalAppend<T>(w: T -> nat, xs: seq<T>, x: T)
    ensures Total(w, xs + [x]) == Total(w, xs) + w(x)
  {
    if xs == [] {
      assert xs + [x] == [x];
    } else {
      assert (xs + [x])[1..] == xs[1..] + [x];
      TotalAppend(w, xs[1..], x);
    }
  }
}
