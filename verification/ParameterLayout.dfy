/** Where each parameter stands in a flat vector, and which parameters a load reaches, index by index. */
module ParameterLayout {
  import opened ParameterVectors

  // ----- the number of elements

  lemma Associate(a: nat, b: nat, c: nat)
    ensures a * b * c == a * (b * c)
  {
  }

  /** The product of the dimensions: one for a scalar, the dimension for a vector, and multiplicative. */
  lemma {:induction false} NumelMultiplies(a: seq<nat>, b: seq<nat>, d: nat)
    ensures Numel([]) == 1 && Numel([d]) == d && Numel(a + b) == Numel(a) * Numel(b)
  {
    assert [d][..0] == [];
    if b == [] {
      assert a + b == a;
    } else {
      var n := |b| - 1;
      NumelMultiplies(a, b[..n], d);
      assert (a + b)[..|a + b| - 1] == a + b[..n];
      Associate(Numel(a), Numel(b[..n]), b[n]);
    }
  }

  // ----- the vector of trainable parameters

  /** The elements of the trainable parameters before the i-th. */
  function Before(m: Model, i: nat): nat
    requires i <= |m|
  {
    if i == 0 then 0 else Before(m, i - 1) + if m[i - 1].trainable then |m[i - 1].tensor.data| else 0
  }

  lemma {:induction false} FlatAppend(a: Model, b: Model)
    ensures Flat(a + b) == Flat(a) + Flat(b)
  {
    if a == [] {
      assert a + b == b;
    } else {
      FlatAppend(a[1..], b);
      assert (a + b)[1..] == a[1..] + b && (a + b)[0] == a[0];
      Regroup(if a[0].trainable then a[0].tensor.data else [], Flat(a[1..]), Flat(b));
    }
  }

  lemma FlatOne(p: Param)
    ensures Flat([p]) == if p.trainable then p.tensor.data else []
  {
    assert [p][1..] == [];
  }

  lemma {:induction false} FlatPrefix(m: Model, i: nat)
    requires i <= |m|
    ensures |Flat(m[..i])| == Before(m, i)
  {
    if i > 0 {
      FlatPrefix(m, i - 1);
      assert m[..i] == m[..i - 1] + [m[i - 1]];
      FlatAppend(m[..i - 1], [m[i - 1]]);
      FlatOne(m[i - 1]);
    }
  }

  lemma SliceMiddle(a: seq<real>, d: seq<real>, b: seq<real>)
    ensures |a + d + b| == |a| + |d| + |b| && (a + d + b)[|a|..|a| + |d|] == d
  {
  }

  lemma Around(m: Model, i: nat)
    requires i < |m|
    ensures m == m[..i] + [m[i]] + m[i + 1..] && m[..|m|] == m
  {
  }

  /** The elements of a trainable parameter stand together, behind those of the trainable parameters before it. */
  lemma FlatAt(m: Model, i: nat)
    requires i < |m| && m[i].trainable
    ensures var (o, n) := (Before(m, i), |m[i].tensor.data|);
            o + n <= |Flat(m)| && Flat(m)[o..o + n] == m[i].tensor.data
    ensures |Flat(m)| == Before(m, |m|)
  {
    FlatPrefix(m, i);
    FlatPrefix(m, |m|);
    FlatOne(m[i]);
    FlatAppend(m[..i], [m[i]]);
    FlatAppend(m[..i] + [m[i]], m[i + 1..]);
    Around(m, i);
    SliceMiddle(Flat(m[..i]), m[i].tensor.data, Flat(m[i + 1..]));
  }

  // ----- the vector of all parameters

  function AllBefore(m: Model, i: nat): nat
    requires i <= |m|
  {
    if i == 0 then 0 else AllBefore(m, i - 1) + |m[i - 1].tensor.data|
  }

  lemma {:induction false} FlatAllAppend(a: Model, b: Model)
    ensures FlatAll(a + b) == FlatAll(a) + FlatAll(b)
  {
    if a == [] {
      assert a + b == b;
    } else {
      FlatAllAppend(a[1..], b);
      assert (a + b)[1..] == a[1..] + b && (a + b)[0] == a[0];
      Regroup(a[0].tensor.data, FlatAll(a[1..]), FlatAll(b));
    }
  }

  lemma FlatAllOne(p: Param)
    ensures FlatAll([p]) == p.tensor.data
  {
    assert [p][1..] == [];
  }

  lemma {:induction false} FlatAllPrefix(m: Model, i: nat)
    requires i <= |m|
    ensures |FlatAll(m[..i])| == AllBefore(m, i)
  {
    if i > 0 {
      FlatAllPrefix(m, i - 1);
      assert m[..i] == m[..i - 1] + [m[i - 1]];
      FlatAllAppend(m[..i - 1], [m[i - 1]]);
      FlatAllOne(m[i - 1]);
    }
  }

  /** The i-th shape read is that of the i-th parameter, and its elements stand behind those of all before it. */
  lemma ReadAt(m: Model, i: nat)
    requires i < |m|
    ensures var (w, o, n) := (GetParams(m), AllBefore(m, i), |m[i].tensor.data|);
            && |w.shapes| == |m| && w.shapes[i] == m[i].tensor.shape
            && o + n <= |w.flat| == AllBefore(m, |m|) && w.flat[o..o + n] == m[i].tensor.data
  {
    FlatAllPrefix(m, i);
    FlatAllPrefix(m, |m|);
    FlatAllOne(m[i]);
    FlatAllAppend(m[..i], [m[i]]);
    FlatAllAppend(m[..i] + [m[i]], m[i + 1..]);
    Around(m, i);
    SliceMiddle(FlatAll(m[..i]), m[i].tensor.data, FlatAll(m[i + 1..]));
  }

  // ----- a load

  /** The elements asked for by the first i shapes. */
  function Asked(shapes: seq<seq<nat>>, i: nat): nat
    requires i <= |shapes|
  {
    if i == 0 then 0 else Asked(shapes, i - 1) + Numel(shapes[i - 1])
  }

  lemma {:induction false} AskedTail(shapes: seq<seq<nat>>, i: nat)
    requires 0 < i <= |shapes|
    ensures Asked(shapes, i) == Numel(shapes[0]) + Asked(shapes[1..], i - 1)
  {
    if i > 1 {
      AskedTail(shapes, i - 1);
    }
  }

  /** The i-th parameter is reached: it has a shape, and there are elements for it and all before it. */
  predicate Reached(m: Model, shapes: seq<seq<nat>>, flat: seq<real>, i: nat) {
    i < |m| && i < |shapes| && Asked(shapes, i + 1) <= |flat|
  }

  /** What becomes of the i-th parameter. */
  ghost predicate LoadedAt(m: Model, shapes: seq<seq<nat>>, flat: seq<real>, r: Model, i: nat)
    requires i < |m| == |r|
  {
    if Reached(m, shapes, flat, i) then
      r[i] == m[i].(tensor := Tensor(shapes[i], flat[Asked(shapes, i)..Asked(shapes, i + 1)]))
    else r[i] == m[i]
  }

  lemma {:induction false} AskedGrows(shapes: seq<seq<nat>>, i: nat, j: nat)
    requires i <= j <= |shapes|
    ensures Asked(shapes, i) <= Asked(shapes, j)
  {
    if i < j {
      AskedGrows(shapes, i, j - 1);
    }
  }

  lemma SliceOfRest(flat: seq<real>, n: nat, lo: nat, hi: nat)
    requires n + lo <= n + hi <= |flat|
    ensures flat[n..][lo..hi] == flat[n + lo..n + hi]
  {
  }

  lemma LoadedLater(m: Model, shapes: seq<seq<nat>>, flat: seq<real>, r: Model, rest: Model, i: nat)
    requires 0 < i < |m| == |r| && shapes != [] && Numel(shapes[0]) <= |flat|
    requires |rest| == |m| - 1 && r[i] == rest[i - 1]
    requires LoadedAt(m[1..], shapes[1..], flat[Numel(shapes[0])..], rest, i - 1)
    ensures LoadedAt(m, shapes, flat, r, i)
  {
    if i < |shapes| {
      AskedTail(shapes, i);
      AskedTail(shapes, i + 1);
      AskedGrows(shapes, i, i + 1);
      if Asked(shapes, i + 1) <= |flat| {
        SliceOfRest(flat, Numel(shapes[0]), Asked(shapes[1..], i - 1), Asked(shapes[1..], i));
      }
    }
  }

  ghost predicate LoadedAll(m: Model, shapes: seq<seq<nat>>, flat: seq<real>, r: Model) {
    |r| == |m| && forall i: nat :: i < |m| ==> LoadedAt(m, shapes, flat, r, i)
  }

  ghost predicate ReachedAll(m: Model, shapes: seq<seq<nat>>, flat: seq<real>) {
    forall i: nat :: i < |m| && i < |shapes| ==> Reached(m, shapes, flat, i)
  }

  /** A load assigns every parameter it reaches, from its own slice, and leaves the others; it gets to the end exactly
      when it reaches as many as there are parameters and shapes. */
  lemma {:induction false} LoadExactly(m: Model, shapes: seq<seq<nat>>, flat: seq<real>)
    ensures LoadedAll(m, shapes, flat, SetParams(m, shapes, flat).0)
    ensures SetParams(m, shapes, flat).1 <==> ReachedAll(m, shapes, flat)
  {
    if m != [] && shapes != [] {
      var n := Numel(shapes[0]);
      if |flat| < n {
        NothingReached(m, shapes, flat);
        assert !Reached(m, shapes, flat, 0);
      } else {
        var (rest, ok) := SetParams(m[1..], shapes[1..], flat[n..]);
        LoadExactly(m[1..], shapes[1..], flat[n..]);
        LoadedCons(m, shapes, flat, rest);
        ReachedCons(m, shapes, flat);
      }
    }
  }

  lemma NothingReached(m: Model, shapes: seq<seq<nat>>, flat: seq<real>)
    requires m != [] && shapes != [] && |flat| < Numel(shapes[0])
    ensures forall i: nat :: !Reached(m, shapes, flat, i)
  {
    assert Asked(shapes, 1) == Numel(shapes[0]);
    forall i: nat | i < |shapes| ensures !Reached(m, shapes, flat, i) {
      AskedGrows(shapes, 1, i + 1);
    }
  }

  lemma LoadedCons(m: Model, shapes: seq<seq<nat>>, flat: seq<real>, rest: Model)
    requires m != [] && shapes != [] && Numel(shapes[0]) <= |flat|
    requires LoadedAll(m[1..], shapes[1..], flat[Numel(shapes[0])..], rest)
    ensures LoadedAll(m, shapes, flat, [m[0].(tensor := Tensor(shapes[0], flat[..Numel(shapes[0])]))] + rest)
  {
    var r := [m[0].(tensor := Tensor(shapes[0], flat[..Numel(shapes[0])]))] + rest;
    assert Asked(shapes, 1) == Numel(shapes[0]);
    forall i: nat | i < |m| ensures LoadedAt(m, shapes, flat, r, i) {
      if i > 0 {
        LoadedLater(m, shapes, flat, r, rest, i);
      }
    }
  }

  lemma ReachedCons(m: Model, shapes: seq<seq<nat>>, flat: seq<real>)
    requires m != [] && shapes != [] && Numel(shapes[0]) <= |flat|
    ensures ReachedAll(m, shapes, flat) <==> ReachedAll(m[1..], shapes[1..], flat[Numel(shapes[0])..])
  {
    var ms, ss, rest := m[1..], shapes[1..], flat[Numel(shapes[0])..];
    assert Asked(shapes, 1) == Numel(shapes[0]);
    forall i: nat | 0 < i < |m| && i < |shapes| ensures Reached(m, shapes, flat, i) <==> Reached(ms, ss, rest, i - 1) {
      AskedTail(shapes, i + 1);
    }
    if ReachedAll(m, shapes, flat) {
      forall i: nat | i < |ms| && i < |ss| ensures Reached(ms, ss, rest, i) {
        assert Reached(m, shapes, flat, i + 1);
      }
    }
  }
}
