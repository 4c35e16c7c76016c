/** What a Krum score is: the least sum of distances to as many other updates as there are neighbours. */
module KrumScores {
  import opened Krum
  import opened Reals
  import opened Sorting

  // ----- the distance

  function Squares(u: seq<real>, v: seq<real>): (r: seq<real>)
    requires |u| == |v|
    ensures |r| == |u| && forall k :: 0 <= k < |r| ==> r[k] == (u[k] - v[k]) * (u[k] - v[k])
  {
    seq(|u|, k requires 0 <= k < |u| => Squared(u[k] - v[k]))
  }

  /** The distance is the sum of the squared differences of the coordinates. */
  lemma {:induction false} DistanceIsSum(u: seq<real>, v: seq<real>)
    requires |u| == |v|
    ensures SquaredDistance(u, v) == Sum(Squares(u, v)) && SquaredDistance(v, u) == SquaredDistance(u, v)
  {
    if u != [] {
      DistanceIsSum(u[1..], v[1..]);
      assert Squares(u, v)[1..] == Squares(u[1..], v[1..]);
      SquaredSign(u[0], v[0]);
    }
  }

  lemma SquaredSign(x: real, y: real)
    ensures Squared(x - y) == Squared(y - x)
  {
  }

  // ----- sums over sets of indices

  /** The sum of the values at the given indices. */
  function SumOver(row: seq<real>, at: set<nat>): real {
    if row == [] then 0.0
    else
      var n := |row| - 1;
      SumOver(row[..n], at) + if n in at then row[n] else 0.0
  }

  function CountBefore(n: nat, at: set<nat>): nat {
    if n == 0 then 0 else CountBefore(n - 1, at) + if n - 1 in at then 1 else 0
  }

  lemma {:induction false} CountIsSize(n: nat, at: set<nat>)
    requires forall k :: k in at ==> k < n
    ensures CountBefore(n, at) == |at|
  {
    if n == 0 {
      assert at == {};
    } else {
      var less := at - {n - 1};
      CountIsSize(n - 1, less);
      CountSame(n - 1, at, less);
      assert n - 1 in at ==> at == less + {n - 1};
      assert n - 1 !in at ==> at == less;
    }
  }

  lemma {:induction false} CountSame(n: nat, a: set<nat>, b: set<nat>)
    requires forall k: nat :: k < n ==> (k in a <==> k in b)
    ensures CountBefore(n, a) == CountBefore(n, b)
  {
    if n > 0 {
      CountSame(n - 1, a, b);
    }
  }

  // ----- no other choice is smaller

  /** What lies below t, as a sum of shortfalls, which are never positive. */
  function Shortfall(x: real, t: real): (r: real)
    ensures r <= 0.0 && r <= x - t
  {
    if x < t then x - t else 0.0
  }

  function Shortfalls(s: seq<real>, t: real): real {
    if s == [] then 0.0 else Shortfall(s[0], t) + Shortfalls(s[1..], t)
  }

  lemma {:induction false} ShortfallsAppend(a: seq<real>, b: seq<real>, t: real)
    ensures Shortfalls(a + b, t) == Shortfalls(a, t) + Shortfalls(b, t)
  {
    if a == [] {
      assert a + b == b;
    } else {
      ShortfallsAppend(a[1..], b, t);
      assert (a + b)[1..] == a[1..] + b;
    }
  }

  lemma {:induction false} ShortfallsInsert(x: real, s: seq<real>, t: real)
    ensures Shortfalls(Insert(x, s), t) == Shortfall(x, t) + Shortfalls(s, t)
  {
    if s == [] || x <= s[0] {
      assert ([x] + s)[1..] == s;
    } else {
      ShortfallsInsert(x, s[1..], t);
      assert ([s[0]] + Insert(x, s[1..]))[1..] == Insert(x, s[1..]);
    }
  }

  lemma {:induction false} ShortfallsSorted(s: seq<real>, t: real)
    ensures Shortfalls(Sorted(s), t) == Shortfalls(s, t)
  {
    if s != [] {
      ShortfallsSorted(s[1..], t);
      ShortfallsInsert(s[0], Sorted(s[1..]), t);
    }
  }

  lemma {:induction false} ShortfallsBelow(s: seq<real>, t: real)
    requires forall k :: 0 <= k < |s| ==> s[k] <= t
    ensures Shortfalls(s, t) == Sum(s) - Times(|s|, t)
  {
    if s != [] {
      ShortfallsBelow(s[1..], t);
    }
  }

  lemma {:induction false} ShortfallsAbove(s: seq<real>, t: real)
    requires forall k :: 0 <= k < |s| ==> s[k] >= t
    ensures Shortfalls(s, t) == 0.0
  {
    if s != [] {
      ShortfallsAbove(s[1..], t);
    }
  }

  /** The sum of the m smallest, as what lies below the m-th. */
  lemma SmallestSum(s: seq<real>, m: nat)
    requires 0 < m <= |s|
    ensures |Sorted(s)| == |s| && Sum(Sorted(s)[..m]) == Shortfalls(s, Sorted(s)[m - 1]) + Times(m, Sorted(s)[m - 1])
  {
    SortedFacts(s);
    var low, high, t := Sorted(s)[..m], Sorted(s)[m..], Sorted(s)[m - 1];
    assert Sorted(s) == low + high;
    ShortfallsBelow(low, t);
    ShortfallsAbove(high, t);
    ShortfallsAppend(low, high, t);
    ShortfallsSorted(s, t);
  }

  /** Any chosen values sum to at least the shortfalls of all. */
  lemma {:induction false} ChosenAtLeast(row: seq<real>, at: set<nat>, t: real)
    ensures SumOver(row, at) >= Shortfalls(row, t) + Times(CountBefore(|row|, at), t)
  {
    if row != [] {
      var n := |row| - 1;
      ChosenAtLeast(row[..n], at, t);
      assert row == row[..n] + [row[n]];
      ShortfallsAppend(row[..n], [row[n]], t);
      assert [row[n]][1..] == [];
    }
  }

  /** The same without an index that is not chosen. */
  lemma {:induction false} ChosenOfOthers(row: seq<real>, i: nat, at: set<nat>, t: real)
    requires i < |row| && i !in at
    ensures SumOver(row, at) >= Shortfalls(Others(row, i), t) + Times(CountBefore(|row|, at), t)
  {
    var n := |row| - 1;
    if i == n {
      ChosenAtLeast(row[..n], at, t);
      assert Others(row, i) == row[..n];
    } else {
      ChosenOfOthers(row[..n], i, at, t);
      assert Others(row, i) == Others(row[..n], i) + [row[n]];
      ShortfallsAppend(Others(row[..n], i), [row[n]], t);
      assert [row[n]][1..] == [];
    }
  }

  lemma NoSmallerChoice(row: seq<real>, i: nat, m: nat, at: set<nat>)
    requires i < |row| && 0 < m < |row| && i !in at && |at| == m && forall k :: k in at ==> k < |row|
    ensures Score(row, i, m) <= SumOver(row, at)
  {
    SmallestSum(Others(row, i), m);
    ChosenOfOthers(row, i, at, Sorted(Others(row, i))[m - 1]);
    CountIsSize(|row|, at);
  }

  // ----- some choice attains it

  function At(row: seq<real>, js: seq<nat>): (r: seq<real>)
    requires forall k :: 0 <= k < |js| ==> js[k] < |row|
    ensures |r| == |js|
  {
    seq(|js|, k requires 0 <= k < |js| => row[js[k]])
  }

  ghost predicate Distinct(js: seq<nat>) {
    forall k, l :: 0 <= k < l < |js| ==> js[k] != js[l]
  }

  lemma {:induction false} InsertAt(x: real, s: seq<real>) returns (j: nat)
    ensures j <= |s| && Insert(x, s) == s[..j] + [x] + s[j..]
  {
    if s == [] || x <= s[0] {
      j := 0;
    } else {
      j := InsertAt(x, s[1..]);
      assert [s[0]] + (s[1..][..j] + [x] + s[1..][j..]) == s[..j + 1] + [x] + s[j + 1..];
      j := j + 1;
    }
  }

  /** The indices in the order of their values. */
  lemma {:induction false} SortedIndices(s: seq<real>) returns (js: seq<nat>)
    ensures |js| == |s| && Distinct(js) && forall k :: 0 <= k < |js| ==> js[k] < |s|
    ensures Sorted(s) == At(s, js)
  {
    if s == [] {
      js := [];
    } else {
      var tail := SortedIndices(s[1..]);
      var j := InsertAt(s[0], Sorted(s[1..]));
      js := Inserted(s, tail, j);
    }
  }

  /** The head put in at place j among the indices of the tail. */
  lemma Inserted(s: seq<real>, tail: seq<nat>, j: nat) returns (js: seq<nat>)
    requires s != [] && j <= |tail| && Distinct(tail) && forall k :: 0 <= k < |tail| ==> tail[k] < |s| - 1
    ensures |js| == |tail| + 1 && Distinct(js) && forall k :: 0 <= k < |js| ==> js[k] < |s|
    ensures At(s, js) == At(s[1..], tail)[..j] + [s[0]] + At(s[1..], tail)[j..]
  {
    js := seq(|tail| + 1, k requires 0 <= k <= |tail| =>
      if k < j then tail[k] + 1 else if k == j then 0 else tail[k - 1] + 1);
    forall k, l | 0 <= k < l < |js| ensures js[k] != js[l] {
      if k < j && l < j {
        assert tail[k] != tail[l];
      } else if k < j && l > j {
        assert k < l - 1 ==> tail[k] != tail[l - 1];
      } else if k > j {
        assert tail[k - 1] != tail[l - 1];
      }
    }
    var values := At(s[1..], tail);
    forall k | 0 <= k < |js| ensures At(s, js)[k] == (values[..j] + [s[0]] + values[j..])[k] {
    }
  }

  lemma {:induction false} SumOverOneMore(row: seq<real>, at: set<nat>, j: nat)
    requires j < |row| && j !in at
    ensures SumOver(row, at + {j}) == SumOver(row, at) + row[j]
  {
    var n := |row| - 1;
    if j == n {
      SumOverSame(row[..n], at + {j}, at);
    } else {
      SumOverOneMore(row[..n], at, j);
    }
  }

  lemma {:induction false} SumOverSame(row: seq<real>, a: set<nat>, b: set<nat>)
    requires forall k: nat :: k < |row| ==> (k in a <==> k in b)
    ensures SumOver(row, a) == SumOver(row, b)
  {
    if row != [] {
      SumOverSame(row[..|row| - 1], a, b);
    }
  }

  lemma {:induction false} SumOverNone(row: seq<real>)
    ensures SumOver(row, {}) == 0.0
  {
    if row != [] {
      SumOverNone(row[..|row| - 1]);
    }
  }

  lemma {:induction false} SumOverDistinct(row: seq<real>, js: seq<nat>) returns (at: set<nat>)
    requires Distinct(js) && forall k :: 0 <= k < |js| ==> js[k] < |row|
    ensures |at| == |js| && (forall x :: x in at <==> x in js) && SumOver(row, at) == Sum(At(row, js))
  {
    if js == [] {
      at := {};
      SumOverNone(row);
    } else {
      var n := |js| - 1;
      at := SumOverDistinct(row, js[..n]);
      assert js == js[..n] + [js[n]];
      SumOverOneMore(row, at, js[n]);
      assert At(row, js) == At(row, js[..n]) + [row[js[n]]];
      SumAppend(At(row, js[..n]), [row[js[n]]]);
      assert Sum([row[js[n]]]) == row[js[n]];
      at := at + {js[n]};
    }
  }

  lemma ChoiceAttains(row: seq<real>, i: nat, m: nat) returns (at: set<nat>)
    requires i < |row| && 0 < m < |row|
    ensures i !in at && |at| == m && (forall k :: k in at ==> k < |row|) && SumOver(row, at) == Score(row, i, m)
  {
    var others := Others(row, i);
    var js := SortedIndices(others);
    var places := seq(m, k requires 0 <= k < m => Place(js[k], i));
    forall k | 0 <= k < m ensures places[k] < |row| && places[k] != i && row[places[k]] == others[js[k]] {
      OthersAt(row, i, js[k]);
    }
    at := SumOverDistinct(row, places);
    assert At(row, places) == At(others, js)[..m];
  }

  // ----- every score

  lemma TakeAll(s: seq<real>, m: nat)
    ensures m >= |s| ==> Take(s, m) == s == Take(s, |s|)
  {
  }

  /** A choice of m updates other than the i-th, among n. */
  ghost predicate Choice(at: set<nat>, n: nat, i: nat, m: nat) {
    i !in at && |at| == m && forall k :: k in at ==> k < n
  }

  /** Each score is the least sum of distances to n - f - 2 other updates, to one when that is less, and to
      all when it is more than there are. */
  lemma ScoresAreLeast(dists: seq<seq<real>>, f: int, i: nat)
    requires Square(dists) && i < |dists| && |dists| > 1
    ensures var n := |dists|;
            var m := if n - f - 2 <= 1 then 1 else if n - f - 2 < n then n - f - 2 else n - 1;
            && (forall at :: Choice(at, |dists|, i, m) ==> Scores(dists, f)[i] <= SumOver(dists[i], at))
            && (exists at :: Choice(at, |dists|, i, m) && SumOver(dists[i], at) == Scores(dists, f)[i])
  {
    var m := if Neighbours(|dists|, f) < |dists| then Neighbours(|dists|, f) else |dists| - 1;
    SortedFacts(Others(dists[i], i));
    TakeAll(Sorted(Others(dists[i], i)), Neighbours(|dists|, f));
    assert Scores(dists, f)[i] == Score(dists[i], i, m);
    forall at | Choice(at, |dists|, i, m) ensures Scores(dists, f)[i] <= SumOver(dists[i], at) {
      NoSmallerChoice(dists[i], i, m, at);
    }
    var best := ChoiceAttains(dists[i], i, m);
    assert Choice(best, |dists|, i, m);
  }

  /** The selected update is the first of those with the least score. */
  lemma SelectedFirst(deltas: seq<seq<real>>, f: int)
    requires SameSizes(deltas) && deltas != []
    ensures Select(deltas, f).Selected? <==> |deltas| >= 2 * f + 3
    ensures Select(deltas, f).Selected? ==>
              var (b, scores) := (Select(deltas, f).index, Scores(Distances(deltas), f));
              b < |scores| && forall j :: 0 <= j < |scores| ==>
                scores[b] <= scores[j] && (j < b ==> scores[b] < scores[j])
  {
  }
}
