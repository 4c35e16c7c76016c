/** Reconciling a reported mean and standard deviation with the per-seed values, in exact arithmetic. */
module AggregateCheck {
  import opened Options
  import opened Reals

  datatype Verdict = Accepted | EmptyValues | MeanMismatch | StdMismatch

  /** The square root, given by its defining equation. */
  ghost predicate IsSqrt(sqrt: real -> real) {
    forall x :: x >= 0.0 ==> sqrt(x) >= 0.0 && sqrt(x) * sqrt(x) == x
  }

  function Abs(x: real): real {
    if x < 0.0 then -x else x
  }

  /** The sum of squared deviations from `m`. */
  function Deviations(xs: seq<real>, m: real): (r: real)
    ensures r >= 0.0
  {
    if xs == [] then 0.0 else Squared(xs[0] - m) + Deviations(xs[1..], m)
  }

  function SampleStd(sqrt: real -> real, xs: seq<real>): real
    requires |xs| > 1
  {
    sqrt(Deviations(xs, Mean(xs)) / ((|xs| - 1) as real))
  }

  function PopStd(sqrt: real -> real, xs: seq<real>): real
    requires xs != []
  {
    sqrt(Deviations(xs, Mean(xs)) / (|xs| as real))
  }

  /** Any `ddof` but 0 and 1 asks for either deviation, as None does; one value has its std unchecked. */
  function Validate(sqrt: real -> real, xs: seq<real>, mean: real, std: real, tolerance: real, ddof: Option<int>)
    : Verdict
  {
    if xs == [] then EmptyValues
    else if Abs(Mean(xs) - mean) > tolerance then MeanMismatch
    else if |xs| == 1 then Accepted
    else
      var sampleOff := Abs(SampleStd(sqrt, xs) - std) > tolerance;
      var popOff := Abs(PopStd(sqrt, xs) - std) > tolerance;
      if ddof == Some(1) then (if sampleOff then StdMismatch else Accepted)
      else if ddof == Some(0) then (if popOff then StdMismatch else Accepted)
      else if sampleOff && popOff then StdMismatch else Accepted
  }

  // ----- order of the seeds

  lemma {:induction false} SumWithout(xs: seq<real>, i: nat, m: real)
    requires i < |xs|
    ensures Sum(xs) == xs[i] + Sum(xs[..i] + xs[i + 1..])
    ensures Deviations(xs, m) == Squared(xs[i] - m) + Deviations(xs[..i] + xs[i + 1..], m)
  {
    if i == 0 {
      assert xs[..0] + xs[1..] == xs[1..];
    } else {
      SumWithout(xs[1..], i - 1, m);
      assert xs[1..][..i - 1] + xs[1..][i..] == (xs[..i] + xs[i + 1..])[1..];
    }
  }

  lemma MultisetWithout(xs: seq<real>, i: nat)
    requires i < |xs|
    ensures multiset(xs[..i] + xs[i + 1..]) == multiset(xs) - multiset{xs[i]}
  {
    assert xs == xs[..i] + [xs[i]] + xs[i + 1..];
  }

  lemma MultisetTail(xs: seq<real>)
    requires xs != []
    ensures multiset(xs[1..]) == multiset(xs) - multiset{xs[0]}
  {
    assert xs == [xs[0]] + xs[1..];
  }

  /** The head of one order, found in the other. */
  lemma PermutedHead(xs: seq<real>, ys: seq<real>) returns (i: nat)
    requires multiset(xs) == multiset(ys) && xs != []
    ensures i < |ys| && ys[i] == xs[0] && multiset(xs[1..]) == multiset(ys[..i] + ys[i + 1..])
  {
    i := Found(xs[0], ys) by {
      assert xs[0] in multiset(xs);
    }
    MultisetTail(xs);
    MultisetWithout(ys, i);
  }

  lemma Found(x: real, ys: seq<real>) returns (i: nat)
    requires x in multiset(ys)
    ensures i < |ys| && ys[i] == x
  {
    i :| i < |ys| && ys[i] == x;
  }

  lemma {:induction false} SumPermuted(xs: seq<real>, ys: seq<real>, m: real)
    requires multiset(xs) == multiset(ys)
    ensures Sum(xs) == Sum(ys) && Deviations(xs, m) == Deviations(ys, m)
    decreases |xs|
  {
    if xs == [] {
      PermutedSize(xs, ys);
    } else {
      var i := PermutedHead(xs, ys);
      SumPermuted(xs[1..], ys[..i] + ys[i + 1..], m);
      SumWithout(ys, i, m);
    }
  }

  lemma PermutedSize(xs: seq<real>, ys: seq<real>)
    requires multiset(xs) == multiset(ys)
    ensures |xs| == |ys|
  {
    assert |multiset(xs)| == |xs| && |multiset(ys)| == |ys|;
  }

  /** The verdict does not depend on the order of the seeds. */
  lemma VerdictPermuted(sqrt: real -> real, xs: seq<real>, ys: seq<real>, mean: real, std: real, tolerance: real,
                        ddof: Option<int>)
    requires multiset(xs) == multiset(ys)
    ensures Validate(sqrt, xs, mean, std, tolerance, ddof) == Validate(sqrt, ys, mean, std, tolerance, ddof)
  {
    PermutedSize(xs, ys);
    SumPermuted(xs, ys, 0.0);
    if xs != [] {
      SumPermuted(xs, ys, Mean(xs));
    }
  }

  // ----- the two deviations

  lemma ProductOrder(a: real, b: real, c: real)
    requires a > b && c > 0.0
    ensures c * a > c * b
  {
  }

  lemma ProductsOrder(a: real, b: real, c: real, d: real)
    requires a > b >= 0.0 && c > d >= 0.0
    ensures a * c > b * d
  {
    ProductOrder(a, b, c);
    assert c * b >= b * d by {
      if b > 0.0 {
        ProductOrder(c, d, b);
      }
    }
  }

  lemma SquareOrder(a: real, b: real)
    requires a >= 0.0 && b >= 0.0 && a * a <= b * b
    ensures a <= b
  {
    if a > b {
      ProductsOrder(a, b, a, b);
      assert false;
    }
  }

  lemma Times(d: real, n: real)
    requires n != 0.0
    ensures n * (d / n) == d
  {
  }

  lemma Quotients(d: real, n: real)
    requires d >= 0.0 && n > 1.0
    ensures 0.0 <= d / n <= d / (n - 1.0)
    ensures n * (d / n) == d && (n - 1.0) * (d / (n - 1.0)) == d
  {
    Times(d, n);
    Times(d, n - 1.0);
    var p, q := d / n, d / (n - 1.0);
    assert q >= 0.0;
    assert n * q == (n - 1.0) * q + q;
    if p > q {
      ProductOrder(p, q, n);
    }
  }

  function SquaredDeviations(xs: seq<real>, m: real): (r: seq<real>)
    ensures |r| == |xs| && forall k :: 0 <= k < |r| ==> r[k] == (xs[k] - m) * (xs[k] - m)
  {
    seq(|xs|, k requires 0 <= k < |xs| => Squared(xs[k] - m))
  }

  lemma {:induction false} DeviationsAreSum(xs: seq<real>, m: real)
    ensures Deviations(xs, m) == Sum(SquaredDeviations(xs, m))
  {
    if xs != [] {
      DeviationsAreSum(xs[1..], m);
      assert SquaredDeviations(xs, m)[1..] == SquaredDeviations(xs[1..], m);
    }
  }

  /** Each deviation is the root of its share of the squared differences from the mean. */
  lemma DeviationsAre(sqrt: real -> real, xs: seq<real>, d: real, n: real)
    requires |xs| > 1 && n == |xs| as real && d == Sum(SquaredDeviations(xs, Mean(xs)))
    ensures PopStd(sqrt, xs) == sqrt(d / n) && SampleStd(sqrt, xs) == sqrt(d / (n - 1.0))
  {
    DeviationsAreSum(xs, Mean(xs));
    assert (|xs| - 1) as real == n - 1.0;
  }

  /** `n * pop^2 == (n - 1) * sample^2`, so the population deviation is the smaller one. */
  lemma DeviationsRelated(sqrt: real -> real, xs: seq<real>)
    requires IsSqrt(sqrt) && |xs| > 1
    ensures var (p, s, n) := (PopStd(sqrt, xs), SampleStd(sqrt, xs), |xs| as real);
            n * (p * p) == (n - 1.0) * (s * s) && 0.0 <= p <= s
  {
    var d, n := Deviations(xs, Mean(xs)), |xs| as real;
    assert (|xs| - 1) as real == n - 1.0;
    Quotients(d, n);
    assert PopStd(sqrt, xs) * PopStd(sqrt, xs) == d / n;
    assert SampleStd(sqrt, xs) * SampleStd(sqrt, xs) == d / (n - 1.0);
    SquareOrder(PopStd(sqrt, xs), SampleStd(sqrt, xs));
  }

  // ----- acceptance

  /** Remark: exact figures pass under every tolerance that is not negative: the mean with either deviation when
      `ddof` is left open, with its own deviation when it is given. */
  lemma ExactAccepted(sqrt: real -> real, xs: seq<real>, std: real, tolerance: real, ddof: Option<int>)
    requires xs != [] && tolerance >= 0.0
    requires |xs| > 1 ==>
               (ddof != Some(0) && std == SampleStd(sqrt, xs)) || (ddof != Some(1) && std == PopStd(sqrt, xs))
    ensures Validate(sqrt, xs, Mean(xs), std, tolerance, ddof) == Accepted
  {
  }

  predicate Within(a: real, b: real, tolerance: real) {
    b - tolerance <= a <= b + tolerance
  }

  /** What is accepted: a mean within the tolerance and, with more than one seed, a deviation within the tolerance of
      the one asked for, or of either when none is. */
  lemma AcceptedExactly(sqrt: real -> real, xs: seq<real>, mean: real, std: real, tolerance: real, ddof: Option<int>)
    ensures Validate(sqrt, xs, mean, std, tolerance, ddof) == Accepted <==>
              && xs != [] && Within(mean, Mean(xs), tolerance)
              && (|xs| > 1 ==>
                    || (ddof != Some(0) && Within(std, SampleStd(sqrt, xs), tolerance))
                    || (ddof != Some(1) && Within(std, PopStd(sqrt, xs), tolerance)))
    ensures Validate(sqrt, xs, mean, std, tolerance, ddof) == MeanMismatch <==>
            xs != [] && !Within(mean, Mean(xs), tolerance)
    ensures Validate(sqrt, xs, mean, std, tolerance, ddof) == EmptyValues <==> xs == []
  {
  }

  /** A deviation strictly between the two, farther than the tolerance from both, is refused whatever `ddof` is. */
  lemma BetweenRefused(sqrt: real -> real, xs: seq<real>, std: real, tolerance: real, ddof: Option<int>)
    requires |xs| > 1 && PopStd(sqrt, xs) + tolerance < std < SampleStd(sqrt, xs) - tolerance && tolerance >= 0.0
    ensures Validate(sqrt, xs, Mean(xs), std, tolerance, ddof) == StdMismatch
  {
    AcceptedExactly(sqrt, xs, Mean(xs), std, tolerance, ddof);
  }

  /** With `ddof` left open, acceptance bounds what was reported by the two deviations, widened by the tolerance. */
  lemma AcceptedBounds(sqrt: real -> real, xs: seq<real>, mean: real, std: real, tolerance: real)
    requires IsSqrt(sqrt) && |xs| > 1 && Validate(sqrt, xs, mean, std, tolerance, None) == Accepted
    ensures Mean(xs) - tolerance <= mean <= Mean(xs) + tolerance
    ensures PopStd(sqrt, xs) - tolerance <= std <= SampleStd(sqrt, xs) + tolerance
  {
    DeviationsRelated(sqrt, xs);
  }

  /** Remark: a single seed is accepted on its mean alone, whatever standard deviation is reported with it. */
  lemma SingleSeedUnchecked(sqrt: real -> real, x: real, mean: real, std: real, tolerance: real, ddof: Option<int>)
    ensures Validate(sqrt, [x], mean, std, tolerance, ddof) ==
            if Abs(x - mean) > tolerance then MeanMismatch else Accepted
  {
    assert Sum([x]) == x;
    assert Mean([x]) == x / 1.0 == x;
  }

  // ----- hashing a file in chunks

  /** Reads `content` chunk by chunk until an empty read; `absorbed` is what the running digest has been given,
      the whole file in order whatever the chunk size. */
  method AbsorbFile(content: seq<int>, chunk: nat) returns (absorbed: seq<int>)
    requires chunk > 0
    ensures absorbed == content
  {
    absorbed := [];
    var position := 0;
    var next := if |content| < chunk then content else content[..chunk];
    while next != []
      invariant 0 <= position <= |content| && absorbed == content[..position]
      invariant next == content[position..if position + chunk <= |content| then position + chunk else |content|]
      decreases |content| - position
    {
      absorbed := absorbed + next;
      position := position + |next|;
      next := content[position..if position + chunk <= |content| then position + chunk else |content|];
    }
  }
}
