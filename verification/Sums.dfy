/** Sums over a list whose entries change one at a time. */
module Sums {
  function Sum<X>(f: X -> nat, xs: seq<X>): nat {
    if xs == [] then 0 else f(xs[0]) + Sum(f, xs[1..])
  }

  lemma {:induction false} SumUpdate<X>(f: X -> nat, xs: seq<X>, k: nat, x: X)
    requires k < |xs|
    ensures Sum(f, xs[k := x]) + f(xs[k]) == Sum(f, xs) + f(x)
  {
    if k == 0 {
      assert xs[k := x][1..] == xs[1..];
    } else {
      assert xs[k := x][1..] == xs[1..][k - 1 := x];
      SumUpdate(f, xs[1..], k - 1, x);
    }
  }

  lemma {:induction false} SumAppend<X>(f: X -> nat, xs: seq<X>, ys: seq<X>)
    ensures Sum(f, xs + ys) == Sum(f, xs) + Sum(f, ys)
  {
    if xs == [] {
      assert xs + ys == ys;
    } else {
      assert (xs + ys)[1..] == xs[1..] + ys;
      SumAppend(f, xs[1..], ys);
    }
  }

  lemma SumPush<X>(f: X -> nat, xs: seq<X>, x: X)
    ensures Sum(f, xs + [x]) == Sum(f, xs) + f(x)
  {
    SumAppend(f, xs, [x]);
    assert Sum(f, [x]) == f(x) + Sum(f, []);
  }
}
