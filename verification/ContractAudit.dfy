/** Matching backend routes and frontend calls by their normal form. */
module ContractAudit {
  import opened UrlTemplates

  /** A dictionary from normal forms to paths, as the list of its paths in key order: a later path with a
      form already there takes the place of the earlier one. */
  ghost predicate IsIndex(ps: seq<string>) {
    forall i, j :: 0 <= i < j < |ps| ==> Normalize(ps[i]) != Normalize(ps[j])
  }

  predicate HasForm(ps: seq<string>, form: string) {
    exists i :: 0 <= i < |ps| && Normalize(ps[i]) == form
  }

  function Put(index: seq<string>, path: string): seq<string> {
    if index == [] then [path]
    else if Normalize(index[0]) == Normalize(path) then [path] + index[1..]
    else [index[0]] + Put(index[1..], path)
  }

  function Index(paths: seq<string>): seq<string> {
    if paths == [] then [] else Put(Index(paths[..|paths| - 1]), paths[|paths| - 1])
  }

  /** The paths whose form is, or is not, among those of another index. */
  function Matching(ps: seq<string>, others: seq<string>, wanted: bool): seq<string> {
    if ps == [] then []
    else
      var front, p := Matching(ps[..|ps| - 1], others, wanted), ps[|ps| - 1];
      if HasForm(others, Normalize(p)) == wanted then front + [p] else front
  }

  lemma MatchingExtend(ps: seq<string>, i: nat, others: seq<string>, wanted: bool)
    requires i < |ps|
    ensures Matching(ps[..i + 1], others, wanted) ==
            if HasForm(others, Normalize(ps[i])) == wanted then Matching(ps[..i], others, wanted) + [ps[i]]
            else Matching(ps[..i], others, wanted)
  {
    assert ps[..i + 1][..i] == ps[..i];
  }

  method BuildIndex(paths: seq<string>) returns (index: seq<string>)
    ensures index == Index(paths)
  {
    index := [];
    for i := 0 to |paths|
      invariant index == Index(paths[..i])
    {
      assert paths[..i + 1][..i] == paths[..i];
      index := Put(index, paths[i]);
    }
    assert paths[..|paths|] == paths;
  }

  method Audit(backend: seq<string>, frontend: seq<string>)
    returns (broken: seq<string>, linked: seq<string>, unlinked: seq<string>)
    ensures broken == Matching(Index(frontend), Index(backend), false)
    ensures linked == Matching(Index(backend), Index(frontend), true)
    ensures unlinked == Matching(Index(backend), Index(frontend), false)
  {
    var routes := BuildIndex(backend);
    var calls := BuildIndex(frontend);
    broken := [];
    for i := 0 to |calls|
      invariant broken == Matching(calls[..i], routes, false)
    {
      MatchingExtend(calls, i, routes, false);
      if !HasForm(routes, Normalize(calls[i])) {
        broken := broken + [calls[i]];
      }
    }
    linked, unlinked := [], [];
    for i := 0 to |routes|
      invariant linked == Matching(routes[..i], calls, true) && unlinked == Matching(routes[..i], calls, false)
    {
      MatchingExtend(routes, i, calls, true);
      MatchingExtend(routes, i, calls, false);
      if HasForm(calls, Normalize(routes[i])) {
        linked := linked + [routes[i]];
      } else {
        unlinked := unlinked + [routes[i]];
      }
    }
    assert calls[..|calls|] == calls && routes[..|routes|] == routes;
  }

  // ----- what the lists mean

  lemma ConsIndex(p: string, ps: seq<string>)
    ensures IsIndex([p] + ps) <==> IsIndex(ps) && !HasForm(ps, Normalize(p))
  {
    var qs := [p] + ps;
    assert qs[0] == p && forall i :: 0 <= i < |ps| ==> qs[i + 1] == ps[i];
    if IsIndex(ps) && !HasForm(ps, Normalize(p)) {
      forall i, j | 0 <= i < j < |qs| ensures Normalize(qs[i]) != Normalize(qs[j]) {
        assert qs[j] == ps[j - 1];
        if i > 0 {
          assert qs[i] == ps[i - 1];
        }
      }
    }
  }

  lemma {:induction false} PutForms(index: seq<string>, path: string)
    ensures IsIndex(index) ==> IsIndex(Put(index, path))
    ensures forall f :: HasForm(Put(index, path), f) <==> HasForm(index, f) || f == Normalize(path)
    decreases |index|
  {
    if index == [] {
      assert Put(index, path)[0] == path;
    } else {
      var p, rest := index[0], index[1..];
      assert index == [p] + rest;
      PutForms(rest, path);
      var q, s := if Normalize(p) == Normalize(path) then path else p,
                  if Normalize(p) == Normalize(path) then rest else Put(rest, path);
      assert Put(index, path) == [q] + s;
      ConsIndex(p, rest);
      ConsIndex(q, s);
      forall f ensures HasForm(Put(index, path), f) <==> HasForm(index, f) || f == Normalize(path) {
        ConsForms(p, rest, f);
        ConsForms(q, s, f);
      }
    }
  }

  lemma {:induction false} PutMembers(index: seq<string>, path: string)
    ensures path in Put(index, path)
    ensures forall p :: p in Put(index, path) ==> p == path || p in index
    ensures forall p :: p in index && Normalize(p) != Normalize(path) ==> p in Put(index, path)
    decreases |index|
  {
    if index != [] {
      PutMembers(index[1..], path);
      assert index == [index[0]] + index[1..];
    }
  }

  lemma ConsForms(p: string, ps: seq<string>, f: string)
    ensures HasForm([p] + ps, f) <==> Normalize(p) == f || HasForm(ps, f)
  {
    var qs := [p] + ps;
    assert qs[0] == p && forall i :: 0 <= i < |ps| ==> qs[i + 1] == ps[i];
    if HasForm(ps, f) {
      var i :| 0 <= i < |ps| && Normalize(ps[i]) == f;
      assert Normalize(qs[i + 1]) == f;
    }
    if HasForm(qs, f) && Normalize(p) != f {
      var i :| 0 <= i < |qs| && Normalize(qs[i]) == f;
      assert qs[i] == ps[i - 1];
    }
  }

  lemma SnocForms(ps: seq<string>, p: string, f: string)
    ensures HasForm(ps + [p], f) <==> HasForm(ps, f) || Normalize(p) == f
  {
    if HasForm(ps, f) {
      var i :| 0 <= i < |ps| && Normalize(ps[i]) == f;
      assert Normalize((ps + [p])[i]) == f;
    }
    if Normalize(p) == f {
      assert Normalize((ps + [p])[|ps|]) == f;
    }
  }

  /** The index has each form of the list once, under a path of the list. */
  lemma {:induction false} IndexForms(paths: seq<string>)
    ensures IsIndex(Index(paths))
    ensures forall f :: HasForm(Index(paths), f) <==> HasForm(paths, f)
    ensures forall p :: p in Index(paths) ==> p in paths
  {
    if paths != [] {
      var front, last := paths[..|paths| - 1], paths[|paths| - 1];
      IndexForms(front);
      PutForms(Index(front), last);
      PutMembers(Index(front), last);
      assert paths == front + [last];
      forall f ensures HasForm(paths, f) <==> HasForm(front, f) || f == Normalize(last) {
        SnocForms(front, last, f);
      }
    }
  }

  /** The last path of a form is the one kept. */
  lemma {:induction false} IndexKeepsLast(paths: seq<string>, i: nat)
    requires i < |paths| && forall j :: i < j < |paths| ==> Normalize(paths[j]) != Normalize(paths[i])
    ensures paths[i] in Index(paths)
  {
    var n := |paths| - 1;
    PutMembers(Index(paths[..n]), paths[n]);
    if i < n {
      IndexKeepsLast(paths[..n], i);
    }
  }

  lemma {:induction false} MatchingMembers(ps: seq<string>, others: seq<string>, wanted: bool)
    ensures forall p :: p in Matching(ps, others, wanted) <==> p in ps && HasForm(others, Normalize(p)) == wanted
  {
    if ps != [] {
      MatchingMembers(ps[..|ps| - 1], others, wanted);
      assert ps == ps[..|ps| - 1] + [ps[|ps| - 1]];
    }
  }

  lemma {:induction false} MatchingCount(ps: seq<string>, others: seq<string>)
    ensures |Matching(ps, others, true)| + |Matching(ps, others, false)| == |ps|
  {
    if ps != [] {
      MatchingCount(ps[..|ps| - 1], others);
    }
  }

  /** A call is reported broken exactly for the forms that no route has, and every distinct route form is
      counted once, as linked exactly when some call has it. */
  lemma AuditExactly(backend: seq<string>, frontend: seq<string>)
    ensures var (routes, calls) := (Index(backend), Index(frontend));
            && (forall f :: HasForm(Matching(calls, routes, false), f) <==>
                            HasForm(frontend, f) && !HasForm(backend, f))
            && (forall f :: HasForm(Matching(routes, calls, true), f) <==> HasForm(backend, f) && HasForm(frontend, f))
            && (forall f :: HasForm(Matching(routes, calls, false), f) <==>
                            HasForm(backend, f) && !HasForm(frontend, f))
            && |Matching(routes, calls, true)| + |Matching(routes, calls, false)| == |routes|
  {
    IndexForms(backend);
    IndexForms(frontend);
    MatchingForms(Index(frontend), Index(backend), false);
    MatchingForms(Index(backend), Index(frontend), true);
    MatchingForms(Index(backend), Index(frontend), false);
    MatchingCount(Index(backend), Index(frontend));
  }

  lemma MatchingForms(ps: seq<string>, others: seq<string>, wanted: bool)
    ensures forall f :: HasForm(Matching(ps, others, wanted), f) <==> HasForm(ps, f) && HasForm(others, f) == wanted
  {
    MatchingMembers(ps, others, wanted);
    forall f ensures HasForm(Matching(ps, others, wanted), f) <==> HasForm(ps, f) && HasForm(others, f) == wanted {
      var ms := Matching(ps, others, wanted);
      if HasForm(ps, f) && HasForm(others, f) == wanted {
        var i :| 0 <= i < |ps| && Normalize(ps[i]) == f;
        assert ps[i] in ms;
        var k :| 0 <= k < |ms| && ms[k] == ps[i];
      }
      if HasForm(ms, f) {
        var k :| 0 <= k < |ms| && Normalize(ms[k]) == f;
        assert ms[k] in ms;
        var i :| 0 <= i < |ps| && ps[i] == ms[k];
      }
    }
  }

  /** A call is never reported for how it names or writes its parameters or for its query: if some route has
      its literals, its form is not among the broken ones. */
  lemma RenamedCallLinked(backend: seq<string>, frontend: seq<string>, t: Template, u: Template, q: string)
    requires ValidTemplate(t) && ValidTemplate(u) && IsQuery(q) && Literals(t) == Literals(u)
    requires Render(t) in backend && Render(u) + q in frontend
    ensures !HasForm(Matching(Index(frontend), Index(backend), false), Normalize(Render(u) + q))
    ensures HasForm(Matching(Index(backend), Index(frontend), true), Normalize(Render(t)))
  {
    SameEndpointExactly(t, "", u, q);
    assert Render(t) + "" == Render(t);
    var i :| 0 <= i < |backend| && backend[i] == Render(t);
    var j :| 0 <= j < |frontend| && frontend[j] == Render(u) + q;
    assert Normalize(backend[i]) == Normalize(frontend[j]);
    AuditExactly(backend, frontend);
  }

  // ----- order

  /** The first place at which a form occurs. */
  function FirstAt(paths: seq<string>, form: string): (i: nat)
    requires HasForm(paths, form)
    ensures i < |paths| && Normalize(paths[i]) == form
  {
    if Normalize(paths[0]) == form then 0
    else
      FirstLater(paths, form);
      1 + FirstAt(paths[1..], form)
  }

  lemma {:induction false} NoneBefore(paths: seq<string>, form: string, j: nat)
    requires HasForm(paths, form) && j < FirstAt(paths, form)
    ensures j < |paths| && Normalize(paths[j]) != form
  {
    if j > 0 {
      FirstLater(paths, form);
      NoneBefore(paths[1..], form, j - 1);
    }
  }

  lemma FirstLater(paths: seq<string>, form: string)
    requires HasForm(paths, form) && Normalize(paths[0]) != form
    ensures HasForm(paths[1..], form)
  {
    var i :| 0 <= i < |paths| && Normalize(paths[i]) == form;
    assert paths[1..][i - 1] == paths[i];
  }

  /** The forms come in the order of their first occurrence. */
  ghost predicate InOrder(index: seq<string>, paths: seq<string>) {
    && (forall a :: 0 <= a < |index| ==> HasForm(paths, Normalize(index[a])))
    && forall a, b :: 0 <= a < b < |index| ==>
         FirstAt(paths, Normalize(index[a])) < FirstAt(paths, Normalize(index[b]))
  }

  /** Putting a path into an index changes no form but adds its own at the end if it is new. */
  lemma {:induction false} PutForm(index: seq<string>, path: string, a: nat)
    requires a < |Put(index, path)|
    ensures |Put(index, path)| == |index| + if HasForm(index, Normalize(path)) then 0 else 1
    ensures Normalize(Put(index, path)[a]) == if a < |index| then Normalize(index[a]) else Normalize(path)
    decreases |index|
  {
    if index != [] {
      if Normalize(index[0]) == Normalize(path) {
        assert HasForm(index, Normalize(path));
      } else {
        var b := if a > 0 then a - 1 else 0;
        PutNonEmpty(index[1..], path);
        PutForm(index[1..], path, b);
        ConsForms(index[0], index[1..], Normalize(path));
        assert [index[0]] + index[1..] == index;
      }
    }
  }

  lemma PutNonEmpty(index: seq<string>, path: string)
    ensures Put(index, path) != []
  {
  }

  lemma FirstSame(paths: seq<string>, path: string, form: string)
    requires HasForm(paths, form)
    ensures HasForm(paths + [path], form) && FirstAt(paths + [path], form) == FirstAt(paths, form)
  {
    SnocForms(paths, path, form);
    var i, j := FirstAt(paths, form), FirstAt(paths + [path], form);
    assert (paths + [path])[i] == paths[i];
    if j < i {
      NoneBefore(paths, form, j);
      assert false;
    } else if i < j {
      NoneBefore(paths + [path], form, i);
      assert false;
    }
  }

  lemma FirstNew(paths: seq<string>, path: string)
    requires !HasForm(paths, Normalize(path))
    ensures HasForm(paths + [path], Normalize(path)) && FirstAt(paths + [path], Normalize(path)) == |paths|
  {
    SnocForms(paths, path, Normalize(path));
    var j := FirstAt(paths + [path], Normalize(path));
  }

  lemma {:induction false} IndexOrder(paths: seq<string>)
    ensures InOrder(Index(paths), paths)
  {
    if paths != [] {
      var front, path := paths[..|paths| - 1], paths[|paths| - 1];
      IndexOrder(front);
      IndexForms(front);
      assert paths == front + [path];
      PutOrder(Index(front), front, path);
    }
  }

  lemma PutOrder(index: seq<string>, front: seq<string>, path: string)
    requires InOrder(index, front) && forall f :: HasForm(index, f) <==> HasForm(front, f)
    ensures InOrder(Put(index, path), front + [path])
  {
    var after, paths := Put(index, path), front + [path];
    forall a: nat | a < |after| ensures HasForm(paths, Normalize(after[a])) {
      PutFirst(index, front, path, a);
    }
    forall a: nat, b: nat | a < b < |after|
      ensures FirstAt(paths, Normalize(after[a])) < FirstAt(paths, Normalize(after[b]))
    {
      PutFirst(index, front, path, a);
      PutFirst(index, front, path, b);
      PutForm(index, path, a);
    }
  }

  lemma PutFirst(index: seq<string>, front: seq<string>, path: string, a: nat)
    requires InOrder(index, front) && (forall f :: HasForm(index, f) <==> HasForm(front, f)) && a < |Put(index, path)|
    ensures HasForm(front + [path], Normalize(Put(index, path)[a]))
    ensures FirstAt(front + [path], Normalize(Put(index, path)[a])) ==
            if a < |index| then FirstAt(front, Normalize(index[a])) else |front|
  {
    PutForm(index, path, a);
    if a < |index| {
      FirstSame(front, path, Normalize(index[a]));
    } else {
      FirstNew(front, path);
    }
  }

  /** The places of the paths that are kept: all that match, in order. */
  ghost predicate KeptAt(ps: seq<string>, others: seq<string>, wanted: bool, kept: seq<string>, places: seq<nat>) {
    && |kept| == |places| && (forall k, l :: 0 <= k < l < |places| ==> places[k] < places[l])
    && (forall k :: 0 <= k < |places| ==> places[k] < |ps| && kept[k] == ps[places[k]])
    && (forall i: nat :: i < |ps| ==> (HasForm(others, Normalize(ps[i])) == wanted <==> i in places))
  }

  lemma KeptOneMore(ps: seq<string>, p: string, others: seq<string>, wanted: bool, kept: seq<string>, places: seq<nat>)
    requires KeptAt(ps, others, wanted, kept, places)
    ensures HasForm(others, Normalize(p)) == wanted ==> KeptAt(ps + [p], others, wanted, kept + [p], places + [|ps|])
    ensures HasForm(others, Normalize(p)) != wanted ==> KeptAt(ps + [p], others, wanted, kept, places)
  {
  }

  lemma {:induction false} MatchingPlaces(ps: seq<string>, others: seq<string>, wanted: bool) returns (places: seq<nat>)
    ensures KeptAt(ps, others, wanted, Matching(ps, others, wanted), places)
  {
    if ps == [] {
      places := [];
    } else {
      var front, p := ps[..|ps| - 1], ps[|ps| - 1];
      places := MatchingPlaces(front, others, wanted);
      KeptOneMore(front, p, others, wanted, Matching(front, others, wanted), places);
      assert ps == front + [p];
      if HasForm(others, Normalize(p)) == wanted {
        places := places + [|front|];
      }
    }
  }
}
