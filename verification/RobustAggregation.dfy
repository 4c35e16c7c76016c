/** Coordinate-wise robust aggregation: what a minority of arbitrary client updates can do to one coordinate. */
module RobustAggregation {
  import opened Reals
  import opened Sorting

  datatype Aggregate = Value(value: real) | InvalidConfiguration | NoDeltas

  /** `int(n * beta)` */
  function TrimCount(n: nat, beta: real): int {
    Truncate(n as real * beta)
  }

  /** A coordinate's sorted values without the k lowest and the k highest.  A negative k makes the slice start
      so many from the end, and keeps the highest values only. */
  function Kept(xs: seq<real>, k: int): (r: seq<real>)
    requires xs != [] && 2 * k < |xs|
    ensures r != []
  {
    SortedFacts(xs);
    if k == 0 then xs
    else if k > 0 then Sorted(xs)[k..|xs| - k]
    else if -k <= |xs| then Sorted(xs)[|xs| + k..]
    else Sorted(xs)
  }

  /** The mean of what trimming by `int(n * beta)` keeps. */
  function TrimmedMean(xs: seq<real>, beta: real): Aggregate {
    var k := TrimCount(|xs|, beta);
    if xs == [] then NoDeltas else if 2 * k >= |xs| then InvalidConfiguration else Value(Mean(Kept(xs, k)))
  }

  /** The lower median. */
  function Median(xs: seq<real>): Aggregate {
    if xs == [] then NoDeltas
    else
      SortedFacts(xs);
      Value(Sorted(xs)[(|xs| - 1) / 2])
  }

  function Count(flags: seq<bool>): nat {
    if flags == [] then 0 else (if flags[0] then 1 else 0) + Count(flags[1..])
  }

  /** The honest values lie between lo and hi; the flagged ones are arbitrary. */
  ghost predicate HonestWithin(xs: seq<real>, byzantine: seq<bool>, lo: real, hi: real) {
    |byzantine| == |xs| && forall i :: 0 <= i < |xs| && !byzantine[i] ==> lo <= xs[i] <= hi
  }

  lemma {:induction false} FewBelow(xs: seq<real>, byzantine: seq<bool>, v: real)
    requires |byzantine| == |xs| && forall i :: 0 <= i < |xs| && xs[i] <= v ==> byzantine[i]
    ensures CountBelow(xs, v) <= Count(byzantine)
  {
    if xs != [] {
      FewBelow(xs[1..], byzantine[1..], v);
    }
  }

  lemma {:induction false} FewAbove(xs: seq<real>, byzantine: seq<bool>, v: real)
    requires |byzantine| == |xs| && forall i :: 0 <= i < |xs| && xs[i] >= v ==> byzantine[i]
    ensures CountAbove(xs, v) <= Count(byzantine)
  {
    if xs != [] {
      FewAbove(xs[1..], byzantine[1..], v);
    }
  }

  /** An order statistic with at least as many values on either side as there are arbitrary ones is honest-bounded. */
  lemma RankBounded(xs: seq<real>, byzantine: seq<bool>, lo: real, hi: real, r: nat)
    requires HonestWithin(xs, byzantine, lo, hi) && Count(byzantine) <= r < |xs| - Count(byzantine)
    ensures |Sorted(xs)| == |xs| && lo <= Sorted(xs)[r] <= hi
  {
    SortedFacts(xs);
    var v := Sorted(xs)[r];
    CountFromRank(Sorted(xs), r);
    CountSorted(xs, v);
    if v < lo {
      FewBelow(xs, byzantine, v);
    }
    if v > hi {
      FewAbove(xs, byzantine, v);
    }
  }

  lemma {:induction false} SumWithin(xs: seq<real>, lo: real, hi: real)
    requires forall i :: 0 <= i < |xs| ==> lo <= xs[i] <= hi
    ensures lo * |xs| as real <= Sum(xs) <= hi * |xs| as real
  {
    if xs != [] {
      SumWithin(xs[1..], lo, hi);
      assert |xs| as real == |xs[1..]| as real + 1.0;
      OneMore(lo, |xs[1..]| as real);
      OneMore(hi, |xs[1..]| as real);
    }
  }

  lemma OneMore(b: real, n: real)
    ensures b * (n + 1.0) == b * n + b
  {
  }

  lemma QuotientWithin(s: real, lo: real, hi: real, n: real)
    requires n > 0.0 && lo * n <= s <= hi * n
    ensures lo <= s / n <= hi
  {
    var q := s / n;
    assert q * n == s;
    if q < lo {
      ScaledOrder(q, lo, n);
    }
    if hi < q {
      ScaledOrder(hi, q, n);
    }
  }

  lemma ScaledOrder(a: real, b: real, n: real)
    requires a < b && n > 0.0
    ensures a * n < b * n
  {
  }

  lemma MeanWithin(xs: seq<real>, lo: real, hi: real)
    requires xs != [] && forall i :: 0 <= i < |xs| ==> lo <= xs[i] <= hi
    ensures lo <= Mean(xs) <= hi
  {
    SumWithin(xs, lo, hi);
    QuotientWithin(Sum(xs), lo, hi, |xs| as real);
  }

  /** Refused exactly when trimming would leave nothing, which no fraction below one half can do. */
  lemma TrimmedMeanRefused(xs: seq<real>, beta: real)
    requires xs != []
    ensures TrimmedMean(xs, beta).InvalidConfiguration? <==> 2 * (|xs| as real * beta).Floor >= |xs|
    ensures beta < 0.5 ==> TrimmedMean(xs, beta).Value?
  {
    if beta < 0.5 {
      TrimsBelowHalf(|xs|, beta);
    }
  }

  lemma BelowHalf(n: real, beta: real)
    requires n > 0.0 && beta < 0.5
    ensures n * beta < 0.5 * n
  {
    ScaledOrder(beta, 0.5, n);
  }

  lemma TrimsBelowHalf(n: nat, beta: real)
    requires n > 0 && beta < 0.5
    ensures 2 * TrimCount(n, beta) < n
  {
    var m := n as real;
    BelowHalf(m, beta);
    var x := m * beta;
    TruncatedBelowHalf(x, n);
  }

  lemma TruncatedBelowHalf(x: real, n: nat)
    requires x < 0.5 * n as real
    ensures n > 0 ==> 2 * Truncate(x) < n
  {
    if x >= 0.0 {
      assert 2.0 * Truncate(x) as real < n as real;
    }
  }

  /** As long as the arbitrary clients are no larger a fraction than `beta`, the trimmed mean stays within the range
      of the honest values, whatever the arbitrary ones send. */
  lemma TrimmedMeanRobust(xs: seq<real>, beta: real, byzantine: seq<bool>, lo: real, hi: real)
    requires HonestWithin(xs, byzantine, lo, hi) && Count(byzantine) as real <= |xs| as real * beta
    ensures TrimmedMean(xs, beta).Value? ==> lo <= TrimmedMean(xs, beta).value <= hi
  {
    var k := TrimCount(|xs|, beta);
    CountTruncated(Count(byzantine), |xs| as real * beta);
    if xs != [] && 2 * k < |xs| {
      KeptWithin(xs, k, byzantine, lo, hi);
    }
  }

  lemma CountTruncated(c: nat, x: real)
    requires c as real <= x
    ensures c <= Truncate(x)
  {
  }

  lemma KeptWithin(xs: seq<real>, k: nat, byzantine: seq<bool>, lo: real, hi: real)
    requires HonestWithin(xs, byzantine, lo, hi) && Count(byzantine) <= k && 2 * k < |xs|
    ensures lo <= Mean(Kept(xs, k)) <= hi
  {
    var kept := Kept(xs, k);
    forall i: nat | i < |kept| ensures lo <= kept[i] <= hi {
      if k == 0 {
        NoneFlagged(byzantine);
      } else {
        KeptAt(xs, k, i);
        RankBounded(xs, byzantine, lo, hi, k + i);
      }
    }
    MeanWithin(kept, lo, hi);
  }

  lemma KeptAt(xs: seq<real>, k: nat, i: nat)
    requires 0 < k && 2 * k < |xs| && i < |Kept(xs, k)|
    ensures |Sorted(xs)| == |xs| && k + i < |xs| - k && Kept(xs, k)[i] == Sorted(xs)[k + i]
  {
    SortedFacts(xs);
  }

  lemma {:induction false} NoneFlagged(flags: seq<bool>)
    requires Count(flags) == 0
    ensures forall i :: 0 <= i < |flags| ==> !flags[i]
  {
    if flags != [] {
      NoneFlagged(flags[1..]);
      assert forall i :: 1 <= i < |flags| ==> flags[i] == flags[1..][i - 1];
    }
  }

  /** The median stays within the honest range as long as fewer than half of the clients are arbitrary. */
  lemma MedianRobust(xs: seq<real>, byzantine: seq<bool>, lo: real, hi: real)
    requires HonestWithin(xs, byzantine, lo, hi) && 2 * Count(byzantine) < |xs|
    ensures Median(xs).Value? && lo <= Median(xs).value <= hi
  {
    RankBounded(xs, byzantine, lo, hi, (|xs| - 1) / 2);
  }

  // ----- what is computed, for any way of sorting

  /** What is averaged: all values if k is zero, otherwise the values in ascending order without k at either end, and
      the highest only if k is negative. */
  lemma TrimmedMeanExactly(xs: seq<real>, beta: real, s: seq<real>, k: int) returns (kept: seq<real>)
    requires Ascending(s) && multiset(s) == multiset(xs) && k == TrimCount(|xs|, beta) && xs != [] && 2 * k < |xs|
    ensures kept != [] && TrimmedMean(xs, beta) == Value(Mean(kept)) && KeptOf(xs, s, k, kept)
  {
    TrimmedMeanIs(xs, beta, k);
    kept := KeptIn(xs, s, k);
  }

  ghost predicate KeptOf(xs: seq<real>, s: seq<real>, k: int, kept: seq<real>) {
    && |s| == |xs| && 2 * k < |xs|
    && (k == 0 ==> kept == xs)
    && (k > 0 ==> kept == s[k..|xs| - k])
    && (-|xs| <= k < 0 ==> kept == s[|xs| + k..])
    && (k < -|xs| ==> kept == s)
  }

  lemma KeptIn(xs: seq<real>, s: seq<real>, k: int) returns (kept: seq<real>)
    requires Ascending(s) && multiset(s) == multiset(xs) && xs != [] && 2 * k < |xs|
    ensures kept == Kept(xs, k) && KeptOf(xs, s, k, kept)
  {
    SortedUnique(xs, s);
    KeptExactly(xs, k);
    kept := Kept(xs, k);
  }

  lemma KeptExactly(xs: seq<real>, k: int)
    requires xs != [] && 2 * k < |xs|
    ensures |Sorted(xs)| == |xs|
    ensures k == 0 ==> Kept(xs, k) == xs
    ensures k > 0 ==> Kept(xs, k) == Sorted(xs)[k..|xs| - k]
    ensures -|xs| <= k < 0 ==> Kept(xs, k) == Sorted(xs)[|xs| + k..]
    ensures k < -|xs| ==> Kept(xs, k) == Sorted(xs)
  {
    SortedFacts(xs);
  }

  /** The median is one of the values, with at least half of all at or below it and more than half at or above. */
  lemma MedianSplits(xs: seq<real>)
    requires xs != []
    ensures Median(xs).Value? && Median(xs).value in xs
    ensures 2 * CountBelow(xs, Median(xs).value) >= |xs| && 2 * CountAbove(xs, Median(xs).value) > |xs|
  {
    SortedFacts(xs);
    var r := (|xs| - 1) / 2;
    var v := Sorted(xs)[r];
    assert v in multiset(Sorted(xs));
    CountFromRank(Sorted(xs), r);
    CountSorted(xs, v);
  }

  // ----- one more arbitrary client is one too many

  function Repeated(x: real, n: nat): (r: seq<real>)
    ensures |r| == n
  {
    seq(n, _ => x)
  }

  lemma RepeatedOneMore(x: real, n: nat)
    ensures Repeated(x, n + 1) == [x] + Repeated(x, n)
  {
  }

  /** A bound on the size of values, and at least `b`. */
  function Largest(xs: seq<real>, b: real): (c: real)
    requires b >= 0.0
    ensures c >= b && forall i :: 0 <= i < |xs| ==> -c <= xs[i] <= c
  {
    if xs == [] then b
    else
      var c := Largest(xs[1..], b);
      if xs[0] > c then xs[0] else if -xs[0] > c then -xs[0] else c
  }

  lemma {:induction false} InsertBefore(x: real, s: seq<real>, t: seq<real>)
    requires t == [] || x <= t[0]
    ensures Insert(x, s + t) == Insert(x, s) + t
  {
    if s == [] {
      assert s + t == t;
    } else if x > s[0] {
      InsertBefore(x, s[1..], t);
      assert (s + t)[1..] == s[1..] + t;
    }
  }

  lemma {:induction false} SortedRepeated(v: real, f: nat)
    ensures Sorted(Repeated(v, f)) == Repeated(v, f)
  {
    if f > 0 {
      SortedRepeated(v, f - 1);
      RepeatedOneMore(v, f - 1);
    }
  }

  /** A value no smaller than any other, sent by several, is sorted behind all of them. */
  lemma {:induction false} SortedHigh(xs: seq<real>, v: real, f: nat)
    requires forall i :: 0 <= i < |xs| ==> xs[i] <= v
    ensures Sorted(xs + Repeated(v, f)) == Sorted(xs) + Repeated(v, f)
  {
    if xs == [] {
      assert xs + Repeated(v, f) == Repeated(v, f);
      SortedRepeated(v, f);
    } else {
      SortedHigh(xs[1..], v, f);
      assert (xs + Repeated(v, f))[1..] == xs[1..] + Repeated(v, f);
      InsertBefore(xs[0], Sorted(xs[1..]), Repeated(v, f));
    }
  }

  lemma {:induction false} SortedLow(xs: seq<real>, v: real, f: nat)
    requires forall i :: 0 <= i < |xs| ==> v <= xs[i]
    ensures Sorted(Repeated(v, f) + xs) == Repeated(v, f) + Sorted(xs)
  {
    if f == 0 {
      assert Repeated(v, f) + xs == xs && Repeated(v, f) + Sorted(xs) == Sorted(xs);
    } else {
      SortedLow(xs, v, f - 1);
      RepeatedMore(v, f - 1, xs);
      RepeatedMore(v, f - 1, Sorted(xs));
      FirstOfSorted(xs, v);
      SortedCons(v, Repeated(v, f - 1) + xs);
    }
  }

  lemma RepeatedMore(v: real, n: nat, xs: seq<real>)
    ensures Repeated(v, n + 1) + xs == [v] + (Repeated(v, n) + xs)
  {
    RepeatedOneMore(v, n);
  }

  lemma SortedCons(v: real, s: seq<real>)
    requires Sorted(s) == [] || v <= Sorted(s)[0]
    ensures Sorted([v] + s) == [v] + Sorted(s)
  {
    assert ([v] + s)[1..] == s;
  }

  lemma FirstOfSorted(xs: seq<real>, v: real)
    requires forall i :: 0 <= i < |xs| ==> v <= xs[i]
    ensures Sorted(xs) != [] ==> v <= Sorted(xs)[0]
  {
    SortedFacts(xs);
    if Sorted(xs) != [] {
      assert Sorted(xs)[0] in multiset(Sorted(xs));
      assert Sorted(xs)[0] in xs;
    }
  }

  /** How many arbitrary clients are one too many for a trim count. */
  function TooMany(k: int): nat {
    if k < 0 then 1 else k + 1
  }

  /** What trimming keeps of honest values and too many equal ones that are no smaller: one of the latter,
      behind some of the former. */
  lemma KeptOfFlood(honest: seq<real>, v: real, k: int) returns (others: seq<real>)
    requires 2 * k < |honest| + TooMany(k) && forall i :: 0 <= i < |honest| ==> honest[i] <= v
    ensures Kept(honest + Repeated(v, TooMany(k)), k) == others + [v]
    ensures |others| <= |honest| && forall x :: x in others ==> x in honest
  {
    SortedHigh(honest, v, TooMany(k));
    SortedFacts(honest);
    if k == 0 {
      others := honest;
      assert Repeated(v, 1) == [v];
    } else if k > 0 {
      others := Sorted(honest)[k..];
      FloodTrimmed(Sorted(honest), v, k);
    } else {
      assert Repeated(v, 1) == [v];
      if -k <= |honest| + 1 {
        others := Sorted(honest)[|honest| + 1 + k..];
        FloodFromEnd(Sorted(honest), v, -k);
      } else {
        others := Sorted(honest);
      }
    }
    forall x | x in others ensures x in honest {
      assert x in multiset(Sorted(honest));
    }
  }

  lemma FloodTrimmed(s: seq<real>, v: real, k: nat)
    requires 0 < k < |s| + 1
    ensures (s + Repeated(v, k + 1))[k..|s| + 1] == s[k..] + [v]
  {
  }

  lemma FloodFromEnd(s: seq<real>, v: real, j: nat)
    requires 0 < j <= |s| + 1
    ensures (s + [v])[|s| + 1 - j..] == s[|s| + 1 - j..] + [v]
  {
  }

  /** A single value can lift the mean of bounded others beyond the bound. */
  lemma MeanLifted(others: seq<real>, n: nat, c: real, v: real)
    requires c >= 0.0 && |others| < n && v > 2.0 * c * n as real
    requires forall i :: 0 <= i < |others| ==> -c <= others[i] <= c
    ensures Mean(others + [v]) > c
  {
    var m := |others| as real;
    SumWithin(others, -c, c);
    SumAppend(others, [v]);
    assert Sum([v]) == v;
    assert |others + [v]| as real == m + 1.0;
    Lifted(Sum(others), m, n as real, c, v);
    QuotientAbove(Sum(others + [v]), c, m + 1.0);
  }

  lemma Lifted(s: real, m: real, n: real, c: real, v: real)
    requires c >= 0.0 && 0.0 <= m <= n - 1.0 && s >= -c * m && v > 2.0 * c * n
    ensures s + v > c * (m + 1.0)
  {
    ProductOrder(c, m + 1.0, n);
    Nonnegative(c, n);
  }

  lemma ProductOrder(c: real, a: real, b: real)
    requires c >= 0.0 && a <= b
    ensures c * a <= c * b
  {
  }

  lemma Nonnegative(a: real, b: real)
    requires a >= 0.0 && b >= 0.0
    ensures a * b >= 0.0
  {
  }

  lemma QuotientAbove(s: real, b: real, n: real)
    requires n > 0.0 && s > b * n
    ensures s / n > b
  {
    var q := s / n;
    assert q * n == s;
    if q < b {
      ScaledOrder(q, b, n);
    }
  }

  /** The bound on the arbitrary clients is the best possible.  With one more, among any number of clients that
      trimming accepts and against any honest values, they take the trimmed mean beyond any bound.  A fraction so
      far below zero that the count is negative tolerates no arbitrary client at all. */
  lemma TrimmedMeanBreaks(honest: seq<real>, n: nat, beta: real, bound: real) returns (arbitrary: seq<real>)
    requires 2 * TrimCount(n, beta) < n && n == |honest| + TooMany(TrimCount(n, beta))
    ensures |honest + arbitrary| == n && |arbitrary| == TooMany(TrimCount(n, beta))
    ensures TrimmedMean(honest + arbitrary, beta).Value? && TrimmedMean(honest + arbitrary, beta).value > bound
  {
    var k := TrimCount(n, beta);
    var c := Largest(honest, if bound > 0.0 then bound else 0.0);
    arbitrary := Repeated(High(c, n), TooMany(k));
    KeptLifted(honest, k, c);
    TrimmedMeanIs(honest + arbitrary, beta, k);
  }

  lemma TrimmedMeanIs(xs: seq<real>, beta: real, k: int)
    requires xs != [] && k == TrimCount(|xs|, beta) && 2 * k < |xs|
    ensures TrimmedMean(xs, beta) == Value(Mean(Kept(xs, k)))
  {
  }

  /** A value high enough to lift the mean of n values of size at most c beyond c. */
  function High(c: real, n: nat): real {
    2.0 * c * n as real + 1.0
  }

  lemma KeptLifted(honest: seq<real>, k: int, c: real)
    requires 2 * k < |honest| + TooMany(k) && c >= 0.0
    requires forall i :: 0 <= i < |honest| ==> -c <= honest[i] <= c
    ensures Mean(Kept(honest + Repeated(High(c, |honest| + TooMany(k)), TooMany(k)), k)) > c
  {
    var n := |honest| + TooMany(k);
    var v := High(c, n);
    VeryHigh(c, n as real);
    var others := KeptOfFlood(honest, v, k);
    forall i | 0 <= i < |others| ensures -c <= others[i] <= c {
      assert others[i] in others;
    }
    MeanLifted(others, n, c, v);
  }

  lemma VeryHigh(c: real, n: real)
    requires c >= 0.0 && n >= 1.0
    ensures 2.0 * c * n + 1.0 >= c
  {
    ProductOrder(c, 1.0, n);
  }

  /** Nor can the median bear more: as soon as the arbitrary clients are half of all, they take it below any bound,
      whatever the honest ones send. */
  lemma MedianBreaks(honest: seq<real>, f: nat, bound: real) returns (arbitrary: seq<real>)
    requires |honest| <= f && f > 0
    ensures |arbitrary| == f && Median(arbitrary + honest).Value? && Median(arbitrary + honest).value < bound
  {
    var c := Largest(honest, if bound < 0.0 then -bound else 0.0);
    var v := -c - 1.0;
    arbitrary := Repeated(v, f);
    SortedLow(honest, v, f);
    SortedFacts(honest);
  }
}
