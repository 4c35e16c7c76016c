/** Ascending order of real numbers and counting below and above a bound. */
module Sorting {

  ghost predicate Ascending(s: seq<real>) {
    forall i, j :: 0 <= i <= j < |s| ==> s[i] <= s[j]
  }

  function Insert(x: real, s: seq<real>): seq<real> {
    if s == [] || x <= s[0] then [x] + s else [s[0]] + Insert(x, s[1..])
  }

  function Sorted(s: seq<real>): seq<real> {
    if s == [] then [] else Insert(s[0], Sorted(s[1..]))
  }

  function CountBelow(s: seq<real>, v: real): nat {
    if s == [] then 0 else (if s[0] <= v then 1 else 0) + CountBelow(s[1..], v)
  }

  function CountAbove(s: seq<real>, v: real): nat {
    if s == [] then 0 else (if s[0] >= v then 1 else 0) + CountAbove(s[1..], v)
  }

  lemma AscendingCons(x: real, s: seq<real>)
    requires Ascending(s) && (s == [] || x <= s[0])
    ensures Ascending([x] + s)
  {
  }

  lemma {:induction false} InsertAscending(x: real, s: seq<real>)
    requires Ascending(s)
    ensures Ascending(Insert(x, s))
    ensures Insert(x, s) != [] && (Insert(x, s)[0] == x || (s != [] && Insert(x, s)[0] == s[0]))
  {
    if s == [] || x <= s[0] {
      AscendingCons(x, s);
    } else {
      InsertAscending(x, s[1..]);
      AscendingCons(s[0], Insert(x, s[1..]));
    }
  }

  lemma {:induction false} InsertMembers(x: real, s: seq<real>)
    ensures multiset(Insert(x, s)) == multiset([x]) + multiset(s)
  {
    if s != [] && x > s[0] {
      InsertMembers(x, s[1..]);
      assert s == [s[0]] + s[1..];
    }
  }

  lemma {:induction false} SortedFacts(s: seq<real>)
    ensures Ascending(Sorted(s)) && multiset(Sorted(s)) == multiset(s) && |Sorted(s)| == |s|
  {
    if s != [] {
      SortedFacts(s[1..]);
      InsertAscending(s[0], Sorted(s[1..]));
      InsertMembers(s[0], Sorted(s[1..]));
      assert s == [s[0]] + s[1..];
    }
    assert |multiset(Sorted(s))| == |Sorted(s)| && |multiset(s)| == |s|;
  }

  lemma {:induction false} CountInsert(x: real, s: seq<real>, v: real)
    ensures CountBelow(Insert(x, s), v) == CountBelow([x] + s, v)
    ensures CountAbove(Insert(x, s), v) == CountAbove([x] + s, v)
  {
    if s == [] || x <= s[0] {
    } else {
      CountInsert(x, s[1..], v);
      assert ([x] + s)[1..] == s && ([x] + s[1..])[1..] == s[1..];
    }
  }

  /** Sorting changes no count. */
  lemma {:induction false} CountSorted(s: seq<real>, v: real)
    ensures CountBelow(Sorted(s), v) == CountBelow(s, v) && CountAbove(Sorted(s), v) == CountAbove(s, v)
  {
    if s != [] {
      CountSorted(s[1..], v);
      CountInsert(s[0], Sorted(s[1..]), v);
      assert ([s[0]] + Sorted(s[1..]))[1..] == Sorted(s[1..]);
    }
  }

  lemma {:induction false} CountFromRank(s: seq<real>, k: nat)
    requires Ascending(s) && k < |s|
    ensures CountBelow(s, s[k]) >= k + 1 && CountAbove(s, s[k]) >= |s| - k
  {
    if k > 0 {
      CountFromRank(s[1..], k - 1);
    } else {
      AllAbove(s, s[0]);
    }
  }

  lemma {:induction false} AllAbove(s: seq<real>, v: real)
    requires forall i :: 0 <= i < |s| ==> s[i] >= v
    ensures CountAbove(s, v) == |s|
  {
    if s != [] {
      AllAbove(s[1..], v);
    }
  }

  /** There is one way only to put values in ascending order. */
  lemma SortedUnique(xs: seq<real>, s: seq<real>)
    requires Ascending(s) && multiset(s) == multiset(xs)
    ensures s == Sorted(xs)
  {
    SortedFacts(xs);
    AscendingUnique(s, Sorted(xs));
  }

  lemma {:induction false} AscendingUnique(a: seq<real>, b: seq<real>)
    requires Ascending(a) && Ascending(b) && multiset(a) == multiset(b)
    ensures a == b
  {
    assert |multiset(a)| == |a| && |multiset(b)| == |b|;
    if a != [] {
      SameHead(a, b);
      SameHead(b, a);
      assert a == [a[0]] + a[1..] && b == [b[0]] + b[1..];
      SameTail(a, b);
      AscendingUnique(a[1..], b[1..]);
    }
  }

  lemma SameHead(a: seq<real>, b: seq<real>)
    requires Ascending(b) && a != [] && b != [] && multiset(a) == multiset(b)
    ensures b[0] <= a[0]
  {
    assert a[0] in multiset(b);
    var i :| 0 <= i < |b| && b[i] == a[0];
  }

  lemma SameTail(a: seq<real>, b: seq<real>)
    requires a != [] && b != [] && a[0] == b[0] && multiset(a) == multiset(b)
    ensures multiset(a[1..]) == multiset(b[1..])
  {
    assert a == [a[0]] + a[1..] && b == [b[0]] + b[1..];
    assert multiset(a[1..]) == multiset(a) - multiset{a[0]};
    assert multiset(b[1..]) == multiset(b) - multiset{b[0]};
  }
}
