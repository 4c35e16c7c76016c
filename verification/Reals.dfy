/** Sums, means and rounding over the reals. */
module Reals {

  function Sum(xs: seq<real>): real {
    if xs == [] then 0.0 else xs[0] + Sum(xs[1..])
  }

  lemma {:induction false} SumAppend(xs: seq<real>, ys: seq<real>)
    ensures Sum(xs + ys) == Sum(xs) + Sum(ys)
  {
    if xs == [] {
      assert xs + ys == ys;
    } else {
      SumAppend(xs[1..], ys);
      assert (xs + ys)[1..] == xs[1..] + ys;
    }
  }

  function Mean(xs: seq<real>): real
    requires xs != []
  {
    Sum(xs) / (|xs| as real)
  }

  lemma SumOne(x: real)
    ensures Sum([x]) == x
  {
    assert [x][1..] == [];
  }

  lemma MeanTimes(xs: seq<real>)
    requires xs != []
    ensures Mean(xs) * |xs| as real == Sum(xs)
  {
    Divided(Sum(xs), |xs| as real);
  }

  lemma Divided(s: real, n: real)
    requires n != 0.0
    ensures s / n * n == s
  {
  }

  function Squared(x: real): (r: real)
    ensures r >= 0.0
  {
    x * x
  }

  /** An integer within one half of `x`; every way of rounding to nearest gives one. */
  predicate NearestTo(r: int, x: real) {
    x - 0.5 <= r as real <= x + 0.5
  }

  /** Python's `round`: to nearest, halves to even. */
  function Round(x: real): (r: int)
    ensures NearestTo(r, x)
    ensures x == x.Floor as real ==> r == x.Floor
    ensures x == x.Floor as real + 0.5 ==> r % 2 == 0
  {
    var f := x.Floor;
    var d := x - f as real;
    if d < 0.5 then f else if d > 0.5 then f + 1 else if f % 2 == 0 then f else f + 1
  }

  /** Python's `int` of a float: towards zero. */
  function Truncate(x: real): (n: int)
    ensures if x >= 0.0 then n as real <= x < n as real + 1.0 else n as real - 1.0 < x <= n as real
  {
    if x >= 0.0 then x.Floor else -((-x).Floor)
  }
}
