/** The figures reported at the end of a stream run: latency percentiles and tallies of decisions. */
module LatencyReport {
  import opened Reals
  import opened Sorting
  import opened StreamProtocol

  /** `int(p * n)` */
  function Position(p: real, n: nat): int {
    (p * (n as real)).Floor
  }

  /** The index `min(int(p * n), n - 1)`. */
  function Rank(p: real, n: nat): (k: nat)
    requires p >= 0.0 && n > 0
    ensures k < n
  {
    PositionMonotone(0.0, p, n);
    if Position(p, n) < n - 1 then Position(p, n) else n - 1
  }

  lemma PositionMonotone(p: real, q: real, n: nat)
    requires p <= q
    ensures Position(p, n) <= Position(q, n)
    ensures p == 0.0 ==> Position(p, n) == 0
  {
    ScaleMonotone(p, q, n as real);
    FloorMonotone(p * (n as real), q * (n as real));
  }

  lemma ScaleMonotone(p: real, q: real, x: real)
    requires p <= q && x >= 0.0
    ensures p * x <= q * x
  {
  }

  lemma FloorMonotone(a: real, b: real)
    requires a <= b
    ensures a.Floor <= b.Floor
  {
    assert a.Floor as real <= a && b < b.Floor as real + 1.0;
  }

  /** `round(x, 2)` */
  function TwoDigits(x: real): real {
    Round(x * 100.0) as real / 100.0
  }

  /** The latencies as the decisions record them. */
  function Recorded(measured: seq<real>): (r: seq<real>)
    ensures |r| == |measured|
  {
    seq(|measured|, i requires 0 <= i < |measured| => TwoDigits(measured[i]))
  }

  /** `pct` over the recorded latencies: sorted, indexed and rounded once more. */
  function Percentile(measured: seq<real>, p: real): real
    requires p >= 0.0 && measured != []
  {
    TwoDigits(OfRank(Recorded(measured), Rank(p, |measured|)))
  }

  function OfRank(latencies: seq<real>, k: nat): real
    requires k < |latencies|
  {
    SortedFacts(latencies);
    Sorted(latencies)[k]
  }

  /** To the nearest hundredth, halves to the even one. */
  lemma TwoDigitsNear(x: real)
    ensures TwoDigits(x) - 0.005 <= x <= TwoDigits(x) + 0.005
    ensures var c := (TwoDigits(x) * 100.0).Floor;
            TwoDigits(x) == c as real / 100.0 && (x * 100.0 == (x * 100.0).Floor as real + 0.5 ==> c % 2 == 0)
  {
    var r := Round(x * 100.0);
    assert TwoDigits(x) * 100.0 == r as real && (r as real).Floor == r;
  }

  lemma TwoDigitsTwice(x: real)
    ensures TwoDigits(TwoDigits(x)) == TwoDigits(x)
  {
    assert TwoDigits(x) * 100.0 == Round(x * 100.0) as real;
  }

  /** The second rounding changes nothing. */
  lemma RoundedOnce(measured: seq<real>, p: real)
    requires p >= 0.0 && measured != []
    ensures Percentile(measured, p) == OfRank(Recorded(measured), Rank(p, |measured|))
  {
    var s := Recorded(measured);
    SortedFacts(s);
    var v := OfRank(s, Rank(p, |measured|));
    assert v in multiset(Sorted(s));
    assert v in s;
    var i :| 0 <= i < |s| && s[i] == v;
    TwoDigitsTwice(measured[i]);
  }

  /** More than x values, or all of them, are at or below v, and all but x at or above it. */
  ghost predicate Splits(s: seq<real>, v: real, x: real) {
    && (CountBelow(s, v) as real > x || CountBelow(s, v) == |s|)
    && CountAbove(s, v) as real >= |s| as real - x
  }

  /** A reported percentile is one of the recorded latencies, and splits them at the fraction p, which makes x of n. */
  lemma PercentileSplits(measured: seq<real>, p: real, x: real)
    requires p >= 0.0 && measured != [] && x == p * |measured| as real
    ensures Percentile(measured, p) in Recorded(measured) && Splits(Recorded(measured), Percentile(measured, p), x)
  {
    PercentileRank(measured, p);
    RankPosition(p, |measured|, x);
    var v := Percentile(measured, p);
    RankSplits(Recorded(measured), v, x, Rank(p, |measured|));
  }

  lemma RankPosition(p: real, n: nat, x: real)
    requires p >= 0.0 && n > 0 && x == p * n as real
    ensures x >= 0.0 && Rank(p, n) == if x.Floor < n - 1 then x.Floor else n - 1
  {
    ScaleMonotone(0.0, p, n as real);
  }

  lemma RankSplits(s: seq<real>, v: real, x: real, k: nat)
    requires s != [] && x >= 0.0 && k == (if x.Floor < |s| - 1 then x.Floor else |s| - 1)
    requires CountBelow(s, v) >= k + 1 && CountAbove(s, v) >= |s| - k
    ensures Splits(s, v, x)
  {
    CountAtMost(s, v);
  }

  lemma {:induction false} CountAtMost(s: seq<real>, v: real)
    ensures CountBelow(s, v) <= |s|
  {
    if s != [] {
      CountAtMost(s[1..], v);
    }
  }

  lemma PercentileRank(measured: seq<real>, p: real)
    requires p >= 0.0 && measured != []
    ensures var (v, k, s) := (Percentile(measured, p), Rank(p, |measured|), Recorded(measured));
            v in s && CountBelow(s, v) >= k + 1 && CountAbove(s, v) >= |s| - k
  {
    RoundedOnce(measured, p);
    var s, k := Recorded(measured), Rank(p, |measured|);
    SortedFacts(s);
    var v := OfRank(s, k);
    assert v in multiset(Sorted(s));
    CountFromRank(Sorted(s), k);
    CountSorted(s, v);
  }

  lemma PercentileMonotone(measured: seq<real>, p: real, q: real)
    requires 0.0 <= p <= q && measured != []
    ensures Percentile(measured, p) <= Percentile(measured, q)
  {
    RoundedOnce(measured, p);
    RoundedOnce(measured, q);
    SortedFacts(Recorded(measured));
    PositionMonotone(p, q, |measured|);
  }

  /** What is reported as "min" and "max" bounds every recorded latency. */
  lemma PercentileExtremes(measured: seq<real>, x: real)
    requires x in Recorded(measured)
    ensures Percentile(measured, 0.0) <= x <= Percentile(measured, 1.0)
  {
    var s := Recorded(measured);
    RoundedOnce(measured, 0.0);
    RoundedOnce(measured, 1.0);
    SortedFacts(s);
    assert x in multiset(s);
    assert x in Sorted(s);
    assert 1.0 * (|s| as real) == |s| as real;
  }

  // ----- tallies

  function Occurrences(keys: seq<string>, k: string): nat {
    if keys == [] then 0
    else (if keys[|keys| - 1] == k then 1 else 0) + Occurrences(keys[..|keys| - 1], k)
  }

  ghost function Total(m: map<string, nat>): nat
    decreases |m|
  {
    if m.Keys == {} then 0 else
      var k :| k in m.Keys;
      m[k] + Total(m - {k})
  }

  lemma {:induction false} TotalWithout(m: map<string, nat>, k: string)
    requires k in m
    ensures Total(m) == m[k] + Total(m - {k})
    decreases |m|
  {
    var j :| j in m.Keys && Total(m) == m[j] + Total(m - {j});
    if j != k {
      TotalWithout(m - {j}, k);
      TotalWithout(m - {k}, j);
      assert m - {j} - {k} == m - {k} - {j};
    }
  }

  /** `m.get(k, 0)` */
  function Get(m: map<string, nat>, k: string): nat {
    if k in m then m[k] else 0
  }

  lemma TotalIncrement(m: map<string, nat>, k: string)
    ensures Total(m[k := Get(m, k) + 1]) == Total(m) + 1
  {
    var t := m[k := Get(m, k) + 1];
    TotalWithout(t, k);
    assert t - {k} == m - {k};
    if k in m {
      TotalWithout(m, k);
    } else {
      assert m - {k} == m;
    }
  }

  /** The places at which a key stands. */
  function Places(keys: seq<string>, k: string): set<nat> {
    set i: nat | i < |keys| && keys[i] == k
  }

  lemma {:induction false} OccurrencesArePlaces(keys: seq<string>, k: string)
    ensures Occurrences(keys, k) == |Places(keys, k)|
  {
    if keys == [] {
      assert Places(keys, k) == {};
    } else {
      var n := |keys| - 1;
      OccurrencesArePlaces(keys[..n], k);
      var before := Places(keys[..n], k);
      assert Places(keys, k) == if keys[n] == k then before + {n} else before;
    }
  }

  ghost predicate IsTally(m: map<string, nat>, keys: seq<string>) {
    (forall k :: Get(m, k) == Occurrences(keys, k)) && Total(m) == |keys|
  }

  function DecisionLabels(ds: seq<Decision>): seq<string> {
    seq(|ds|, i requires 0 <= i < |ds| => ds[i].decision)
  }

  function RiskLabels(ds: seq<Decision>): seq<string> {
    seq(|ds|, i requires 0 <= i < |ds| => ds[i].riskLevel)
  }

  method CountDecisions(ds: seq<Decision>) returns (dcnt: map<string, nat>, rcnt: map<string, nat>)
    ensures forall k :: Get(dcnt, k) == |set i: nat | i < |ds| && ds[i].decision == k|
    ensures forall k :: Get(rcnt, k) == |set i: nat | i < |ds| && ds[i].riskLevel == k|
    ensures Total(dcnt) == Total(rcnt) == |ds|
  {
    dcnt, rcnt := map[], map[];
    ghost var dl, rl := DecisionLabels(ds), RiskLabels(ds);
    for i := 0 to |ds|
      invariant IsTally(dcnt, dl[..i]) && IsTally(rcnt, rl[..i])
    {
      assert dl[..i + 1][..i] == dl[..i] && rl[..i + 1][..i] == rl[..i];
      TotalIncrement(dcnt, ds[i].decision);
      TotalIncrement(rcnt, ds[i].riskLevel);
      dcnt := dcnt[ds[i].decision := Get(dcnt, ds[i].decision) + 1];
      rcnt := rcnt[ds[i].riskLevel := Get(rcnt, ds[i].riskLevel) + 1];
    }
    assert dl[..|ds|] == dl && rl[..|ds|] == rl;
    TalliedDecisions(ds, dcnt);
    TalliedRisks(ds, rcnt);
  }

  lemma TalliedDecisions(ds: seq<Decision>, m: map<string, nat>)
    requires IsTally(m, DecisionLabels(ds))
    ensures forall k :: Get(m, k) == |set i: nat | i < |ds| && ds[i].decision == k|
  {
    forall k ensures Get(m, k) == |set i: nat | i < |ds| && ds[i].decision == k| {
      OccurrencesArePlaces(DecisionLabels(ds), k);
      assert Places(DecisionLabels(ds), k) == set i: nat | i < |ds| && ds[i].decision == k;
    }
  }

  lemma TalliedRisks(ds: seq<Decision>, m: map<string, nat>)
    requires IsTally(m, RiskLabels(ds))
    ensures forall k :: Get(m, k) == |set i: nat | i < |ds| && ds[i].riskLevel == k|
  {
    forall k ensures Get(m, k) == |set i: nat | i < |ds| && ds[i].riskLevel == k| {
      OccurrencesArePlaces(RiskLabels(ds), k);
      assert Places(RiskLabels(ds), k) == set i: nat | i < |ds| && ds[i].riskLevel == k;
    }
  }
}
