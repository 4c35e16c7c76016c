/** Krum: the update with the closest neighbours is selected, and it lies near an honest one. */
module Krum {
  import opened Reals
  import opened RobustAggregation
  import opened Sorting

  datatype Selection = Selected(index: nat) | NoUpdates | SizesDiffer | Infeasible

  function SquaredDistance(u: seq<real>, v: seq<real>): (d: real)
    requires |u| == |v|
    ensures d >= 0.0
  {
    if u == [] then 0.0 else Squared(u[0] - v[0]) + SquaredDistance(u[1..], v[1..])
  }

  ghost predicate SameSizes(deltas: seq<seq<real>>) {
    forall i, j :: 0 <= i < |deltas| && 0 <= j < |deltas| ==> |deltas[i]| == |deltas[j]|
  }

  /** A square matrix of distances. */
  ghost predicate Square(dists: seq<seq<real>>) {
    forall i :: 0 <= i < |dists| ==> |dists[i]| == |dists|
  }

  ghost predicate Nonnegative(row: seq<real>) {
    forall k :: 0 <= k < |row| ==> row[k] >= 0.0
  }

  /** The pairwise squared distances. */
  function Distances(deltas: seq<seq<real>>): (dists: seq<seq<real>>)
    requires SameSizes(deltas)
    ensures |dists| == |deltas| && Square(dists)
    ensures forall i :: 0 <= i < |dists| ==> Nonnegative(dists[i])
  {
    seq(|deltas|, i requires 0 <= i < |deltas| =>
      seq(|deltas|, j requires 0 <= j < |deltas| => SquaredDistance(deltas[i], deltas[j])))
  }

  function Others<T>(s: seq<T>, i: nat): (r: seq<T>)
    requires i < |s|
    ensures |r| == |s| - 1
  {
    s[..i] + s[i + 1..]
  }

  /** `max(1, n - f - 2)` */
  function Neighbours(n: nat, f: int): nat {
    if n - f - 2 > 1 then n - f - 2 else 1
  }

  /** A slice that goes no further than there are elements. */
  function Take(s: seq<real>, m: nat): seq<real> {
    if m <= |s| then s[..m] else s
  }

  /** The sum of the m smallest distances to other updates. */
  function Score(row: seq<real>, i: nat, m: nat): real
    requires i < |row|
  {
    Sum(Take(Sorted(Others(row, i)), m))
  }

  function Scores(dists: seq<seq<real>>, f: int): (s: seq<real>)
    requires Square(dists)
    ensures |s| == |dists|
  {
    seq(|dists|, i requires 0 <= i < |dists| => Score(dists[i], i, Neighbours(|dists|, f)))
  }

  /** The first index of the smallest score. */
  function Best(scores: seq<real>): (k: nat)
    requires scores != []
    ensures k < |scores|
    ensures forall j :: 0 <= j < |scores| ==> scores[k] <= scores[j] && (j < k ==> scores[k] < scores[j])
  {
    if |scores| == 1 then 0
    else
      var k := Best(scores[..|scores| - 1]);
      if scores[|scores| - 1] < scores[k] then |scores| - 1 else k
  }

  ghost function Select(deltas: seq<seq<real>>, f: int): Selection {
    if deltas == [] then NoUpdates
    else if |deltas| < 2 * f + 3 then Infeasible
    else if !SameSizes(deltas) then SizesDiffer
    else Selected(Best(Scores(Distances(deltas), f)))
  }

  method KrumScores(deltas: seq<seq<real>>, f: int) returns (scores: seq<real>)
    requires SameSizes(deltas)
    ensures scores == Scores(Distances(deltas), f)
  {
    var dists := Distances(deltas);
    scores := [];
    for i := 0 to |dists|
      invariant |scores| == i && forall j :: 0 <= j < i ==> scores[j] == Scores(dists, f)[j]
    {
      var others := Others(dists[i], i);
      scores := scores + [Sum(Take(Sorted(others), Neighbours(|dists|, f)))];
    }
  }

  // ----- one row

  lemma {:induction false} CountOthers(flags: seq<bool>, i: nat)
    requires i < |flags|
    ensures Count(flags) == Count(Others(flags, i)) + if flags[i] then 1 else 0
  {
    if i == 0 {
      assert Others(flags, 0) == flags[1..];
    } else {
      CountOthers(flags[1..], i - 1);
      assert Others(flags, i)[1..] == Others(flags[1..], i - 1) && Others(flags, i)[0] == flags[0];
    }
  }

  /** Where the k-th of the others stands. */
  function Place(k: nat, i: nat): nat {
    if k < i then k else k + 1
  }

  lemma OthersAt<T>(s: seq<T>, i: nat, k: nat)
    requires i < |s| && k < |s| - 1
    ensures Others(s, i)[k] == s[Place(k, i)] && Place(k, i) != i
  {
  }

  lemma NonnegativeSum(s: seq<real>)
    requires forall k :: 0 <= k < |s| ==> s[k] >= 0.0
    ensures Sum(s) >= 0.0
  {
  }

  lemma LastInSum(s: seq<real>)
    requires s != [] && forall k :: 0 <= k < |s| ==> s[k] >= 0.0
    ensures s[|s| - 1] <= Sum(s)
  {
    var front, last := s[..|s| - 1], s[|s| - 1];
    NonnegativeSum(front);
    SumAppend(front, [last]);
    assert s == front + [last] && Sum([last]) == last;
  }

  lemma SortedNonnegative(s: seq<real>)
    requires forall k :: 0 <= k < |s| ==> s[k] >= 0.0
    ensures |Sorted(s)| == |s| && forall k :: 0 <= k < |s| ==> Sorted(s)[k] >= 0.0
  {
    SortedFacts(s);
    forall k | 0 <= k < |s| ensures Sorted(s)[k] >= 0.0 {
      assert Sorted(s)[k] in multiset(Sorted(s));
      assert Sorted(s)[k] in s;
    }
  }

  /** Among more neighbours than there are arbitrary clients one is honest, and it is no farther than the score. */
  lemma HonestNeighbour(row: seq<real>, i: nat, byzantine: seq<bool>, m: nat) returns (j: nat)
    requires i < |row| == |byzantine| && Count(byzantine) < m < |row| && Nonnegative(row)
    ensures j < |row| && j != i && !byzantine[j] && row[j] <= Score(row, i, m)
  {
    var others, flags := Others(row, i), Others(byzantine, i);
    CountOthers(byzantine, i);
    SortedNonnegative(others);
    var t := Sorted(others)[m - 1];
    LastInSum(Sorted(others)[..m]);
    SortedFacts(others);
    CountFromRank(Sorted(others), m - 1);
    CountSorted(others, t);
    var k := UnflaggedBelow(others, flags, t);
    OthersAt(row, i, k);
    OthersAt(byzantine, i, k);
    j := Place(k, i);
  }

  lemma UnflaggedBelow(xs: seq<real>, flags: seq<bool>, t: real) returns (k: nat)
    requires |xs| == |flags| && CountBelow(xs, t) > Count(flags)
    ensures k < |xs| && xs[k] <= t && !flags[k]
  {
    if forall i :: 0 <= i < |xs| && xs[i] <= t ==> flags[i] {
      FewBelow(xs, flags, t);
      assert false;
    }
    k :| k < |xs| && xs[k] <= t && !flags[k];
  }

  /** The m nearest neighbours of an honest update are as near as honest updates are. */
  lemma HonestRanks(row: seq<real>, i: nat, byzantine: seq<bool>, m: nat, d: real)
    requires i < |row| == |byzantine| && !byzantine[i] && m + Count(byzantine) < |row|
    requires forall k :: 0 <= k < |row| ==> row[k] >= 0.0 && (byzantine[k] || row[k] <= d)
    ensures |Sorted(Others(row, i))| == |row| - 1
    ensures forall r :: 0 <= r < m ==> 0.0 <= Sorted(Others(row, i))[r] <= d
  {
    var others, flags := Others(row, i), Others(byzantine, i);
    CountOthers(byzantine, i);
    SortedNonnegative(others);
    forall k: nat | k < |others| ensures flags[k] || others[k] <= d {
      OthersAt(row, i, k);
      OthersAt(byzantine, i, k);
    }
    forall r: nat | r < m ensures Sorted(others)[r] <= d {
      NearRank(others, flags, d, r);
    }
  }

  /** The score of an honest update is at most m times the largest squared distance among honest ones. */
  lemma HonestScore(row: seq<real>, i: nat, byzantine: seq<bool>, m: nat, d: real)
    requires i < |row| == |byzantine| && !byzantine[i] && m + Count(byzantine) < |row|
    requires forall k :: 0 <= k < |row| ==> row[k] >= 0.0 && (byzantine[k] || row[k] <= d)
    ensures Score(row, i, m) <= Times(m, d)
  {
    HonestRanks(row, i, byzantine, m, d);
    SumAtMost(Sorted(Others(row, i))[..m], m, d);
  }

  /** m times d, without a product, which the solver would take apart in every proof about scores. */
  function Times(m: nat, d: real): real {
    if m == 0 then 0.0 else d + Times(m - 1, d)
  }

  lemma {:induction false} TimesIs(m: nat, d: real)
    ensures Times(m, d) == d * m as real
  {
    if m > 0 {
      TimesIs(m - 1, d);
      OneMore(d, (m - 1) as real);
    }
  }

  lemma {:induction false} SumAtMost(s: seq<real>, m: nat, d: real)
    requires |s| == m && forall r :: 0 <= r < m ==> 0.0 <= s[r] <= d
    ensures Sum(s) <= Times(m, d)
  {
    if m > 0 {
      SumAtMost(s[1..], m - 1, d);
    }
  }

  lemma NearRank(xs: seq<real>, flags: seq<bool>, d: real, r: nat)
    requires |xs| == |flags| && r + Count(flags) < |xs| && forall k :: 0 <= k < |xs| ==> flags[k] || xs[k] <= d
    ensures |Sorted(xs)| == |xs| && Sorted(xs)[r] <= d
  {
    SortedFacts(xs);
    var v := Sorted(xs)[r];
    if v > d {
      CountFromRank(Sorted(xs), r);
      CountSorted(xs, v);
      FewAbove(xs, flags, v);
    }
  }

  // ----- the selected update

  /** With at most f arbitrary clients among n >= 2f + 3, some honest update other than the best is no farther from
      it than the best score says. */
  lemma BestNearHonest(dists: seq<seq<real>>, f: nat, byzantine: seq<bool>) returns (j: nat)
    requires Square(dists) && forall i :: 0 <= i < |dists| ==> Nonnegative(dists[i])
    requires |byzantine| == |dists| >= 2 * f + 3 && Count(byzantine) <= f
    ensures var b := Best(Scores(dists, f));
            j < |dists| && j != b && !byzantine[j] && dists[b][j] <= Scores(dists, f)[b]
  {
    var b := Best(Scores(dists, f));
    j := HonestNeighbour(dists[b], b, byzantine, Neighbours(|dists|, f));
  }

  /** The honest updates are within squared distance d of each other. */
  ghost predicate HonestClose(dists: seq<seq<real>>, byzantine: seq<bool>, d: real)
    requires Square(dists) && |byzantine| == |dists|
  {
    forall i, k :: 0 <= i < |dists| && 0 <= k < |dists| && !byzantine[i] && !byzantine[k] ==> dists[i][k] <= d
  }

  lemma HonestScoreOf(dists: seq<seq<real>>, f: nat, byzantine: seq<bool>, d: real, i: nat)
    requires Square(dists) && |byzantine| == |dists| >= 2 * f + 3 && Count(byzantine) <= f
    requires HonestClose(dists, byzantine, d) && i < |dists| && !byzantine[i] && Nonnegative(dists[i])
    ensures Scores(dists, f)[i] <= Times(Neighbours(|dists|, f), d)
  {
    HonestScore(dists[i], i, byzantine, Neighbours(|dists|, f), d);
  }

  lemma BestRobust(dists: seq<seq<real>>, f: nat, byzantine: seq<bool>, d: real) returns (j: nat)
    requires Square(dists) && forall i :: 0 <= i < |dists| ==> Nonnegative(dists[i])
    requires |byzantine| == |dists| >= 2 * f + 3 && Count(byzantine) <= f && HonestClose(dists, byzantine, d)
    ensures var b := Best(Scores(dists, f));
            && j < |dists| && j != b && !byzantine[j]
            && (forall i :: 0 <= i < |dists| ==> dists[b][j] <= Scores(dists, f)[i])
            && dists[b][j] <= Times(Neighbours(|dists|, f), d)
  {
    j := BestNearHonest(dists, f, byzantine);
    HonestScoreOf(dists, f, byzantine, d, j);
  }

  /** Whatever the arbitrary clients send: the selected update is no farther from some other honest one than any
      honest score, and when all honest updates are within squared distance d of each other, no farther than
      n - f - 2 times d. */
  lemma KrumRobust(deltas: seq<seq<real>>, f: nat, byzantine: seq<bool>, d: real) returns (j: nat)
    requires SameSizes(deltas) && |byzantine| == |deltas| >= 2 * f + 3 && Count(byzantine) <= f
    requires forall i, k :: 0 <= i < |deltas| && 0 <= k < |deltas| && !byzantine[i] && !byzantine[k] ==>
               SquaredDistance(deltas[i], deltas[k]) <= d
    ensures Select(deltas, f).Selected?
    ensures var b := Select(deltas, f).index;
            && b < |deltas| && j < |deltas| && j != b && !byzantine[j]
            && (forall i :: 0 <= i < |deltas| ==>
                  SquaredDistance(deltas[b], deltas[j]) <= Scores(Distances(deltas), f)[i])
            && SquaredDistance(deltas[b], deltas[j]) <= Times(Neighbours(|deltas|, f), d)
  {
    j := BestRobust(Distances(deltas), f, byzantine, d);
  }
}
