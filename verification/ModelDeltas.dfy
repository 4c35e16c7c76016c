/** Model deltas in exact arithmetic: what applying a delta, or any weighted sum of deltas, makes of a model. */
module ModelDeltas {
  import opened Options
  import opened ParameterVectors
  import opened Reals

  // ----- vectors

  function Add(a: seq<real>, b: seq<real>): (c: seq<real>)
    requires |a| == |b|
  {
    seq(|a|, i requires 0 <= i < |a| => a[i] + b[i])
  }

  /** Tensor subtraction with broadcasting of a one-element side. */
  function Subtract(a: seq<real>, b: seq<real>): Result<seq<real>> {
    if |a| == |b| then Ok(seq(|a|, i requires 0 <= i < |a| => a[i] - b[i]))
    else if |b| == 1 then Ok(seq(|a|, i requires 0 <= i < |a| => a[i] - b[0]))
    else if |a| == 1 then Ok(seq(|b|, i requires 0 <= i < |b| => a[0] - b[i]))
    else Err(SizeMismatch(|a|, |b|))
  }

  function Dot(ws: seq<real>, xs: seq<real>): real
    requires |ws| == |xs|
  {
    if ws == [] then 0.0 else ws[0] * xs[0] + Dot(ws[1..], xs[1..])
  }

  ghost predicate AllOfSize(vs: seq<seq<real>>, n: nat) {
    forall k :: 0 <= k < |vs| ==> |vs[k]| == n
  }

  ghost function Column(vs: seq<seq<real>>, n: nat, i: nat): (c: seq<real>)
    requires AllOfSize(vs, n) && i < n
    ensures |c| == |vs|
  {
    seq(|vs|, k requires 0 <= k < |vs| => vs[k][i])
  }

  /** The sum of `ws[k] * vs[k]`, coordinate by coordinate. */
  ghost function Combine(ws: seq<real>, vs: seq<seq<real>>, n: nat): (c: seq<real>)
    requires |ws| == |vs| && AllOfSize(vs, n)
    ensures |c| == n
  {
    seq(n, i requires 0 <= i < n => Dot(ws, Column(vs, n, i)))
  }

  // ----- deltas

  function ComputeDelta(local: Model, global: Model): Result<seq<real>> {
    match Flatten(local)
    case Err(x) => Err(x)
    case Ok(a) =>
      match Flatten(global)
      case Err(x) => Err(x)
      case Ok(b) => Subtract(a, b)
  }

  function Lookup(s: State, name: string): Result<Tensor> {
    if s == [] then Err(CannotReshape(name))
    else if s[0].name == name then Ok(s[0].tensor)
    else Lookup(s[1..], name)
  }

  /** `p.data.add_(state[name])` when the name is in the state, else nothing. */
  function Shifted(p: Param, s: State): Param {
    match Lookup(s, p.name)
    case Ok(t) =>
      if |t.data| == |p.tensor.data| then p.(tensor := Tensor(p.tensor.shape, Add(p.tensor.data, t.data))) else p
    case Err(_) => p
  }

  function ShiftAll(m: Model, s: State): Model {
    if m == [] then [] else [Shifted(m[0], s)] + ShiftAll(m[1..], s)
  }

  function ApplyDelta(m: Model, delta: seq<real>): Result<Model> {
    match Unflatten(delta, m)
    case Err(x) => Err(x)
    case Ok(s) => Ok(ShiftAll(m, s))
  }

  lemma {:induction false} ShiftAllAt(m: Model, s: State)
    ensures |ShiftAll(m, s)| == |m| && forall i :: 0 <= i < |m| ==> ShiftAll(m, s)[i] == Shifted(m[i], s)
  {
    if m != [] {
      ShiftAllAt(m[1..], s);
    }
  }

  ghost predicate HasTrainable(m: Model, name: string) {
    exists j :: 0 <= j < |m| && m[j].trainable && m[j].name == name
  }

  lemma HasTrainableTail(m: Model, name: string)
    requires m != [] && HasTrainable(m[1..], name)
    ensures HasTrainable(m, name)
  {
    var j :| 0 <= j < |m[1..]| && m[1..][j].trainable && m[1..][j].name == name;
    assert m[j + 1].trainable && m[j + 1].name == name;
  }

  lemma {:induction false} CutNames(flat: seq<real>, m: Model)
    requires Cut(flat, m).Ok?
    ensures forall i :: 0 <= i < |Cut(flat, m).value.0| ==> HasTrainable(m, Cut(flat, m).value.0[i].name)
  {
    if m != [] {
      var n := if m[0].trainable then Numel(m[0].tensor.shape) else 0;
      assert flat[0..] == flat;
      CutNames(flat[n..], m[1..]);
      var s, t := Cut(flat, m).value.0, Cut(flat[n..], m[1..]).value.0;
      forall i | 0 <= i < |t| ensures HasTrainable(m, t[i].name) {
        HasTrainableTail(m, t[i].name);
      }
      if m[0].trainable {
        assert HasTrainable(m, m[0].name);
        assert forall i :: 1 <= i < |s| ==> s[i] == t[i - 1];
      }
    }
  }

  lemma {:induction false} LookupAbsent(s: State, name: string)
    requires forall i :: 0 <= i < |s| ==> s[i].name != name
    ensures Lookup(s, name).Err?
  {
    if s != [] {
      LookupAbsent(s[1..], name);
    }
  }

  lemma {:induction false} ShiftIgnores(m: Model, e: Entry, t: State)
    requires forall i :: 0 <= i < |m| ==> m[i].name != e.name
    ensures ShiftAll(m, [e] + t) == ShiftAll(m, t)
  {
    if m != [] {
      ShiftIgnores(m[1..], e, t);
      assert ([e] + t)[1..] == t;
    }
  }

  lemma AddParts(a: seq<real>, b: seq<real>, x: seq<real>, n: nat)
    requires |a| == n <= |x| && |x| == n + |b|
    ensures Add(a + b, x) == Add(a, x[..n]) + Add(b, x[n..])
  {
  }

  lemma TailValid(m: Model)
    requires ValidModel(m) && m != []
    ensures ValidModel(m[1..]) && forall i :: 0 <= i < |m[1..]| ==> m[1..][i].name != m[0].name
  {
  }

  lemma HeadAbsent(m: Model, flat: seq<real>)
    requires ValidModel(m) && m != [] && Cut(flat, m[1..]).Ok?
    ensures Lookup(Cut(flat, m[1..]).value.0, m[0].name).Err?
  {
    TailValid(m);
    CutNames(flat, m[1..]);
    LookupAbsent(Cut(flat, m[1..]).value.0, m[0].name);
  }

  /** A trainable head takes the front of the vector; the rest of the vector goes to the rest of the model. */
  lemma HeadTakesFront(m: Model, flat: seq<real>)
    requires ValidModel(m) && m != [] && m[0].trainable && Cut(flat, m).Ok?
    ensures var n := Numel(m[0].tensor.shape);
            n <= |flat| && Cut(flat[n..], m[1..]).Ok? &&
            ShiftAll(m, Cut(flat, m).value.0) ==
              [m[0].(tensor := Tensor(m[0].tensor.shape, Add(m[0].tensor.data, flat[..n])))] +
              ShiftAll(m[1..], Cut(flat[n..], m[1..]).value.0)
  {
    TailValid(m);
    var n := Numel(m[0].tensor.shape);
    var e := Entry(m[0].name, Tensor(m[0].tensor.shape, flat[..n]));
    var t := Cut(flat[n..], m[1..]).value.0;
    assert Cut(flat, m).value.0 == [e] + t;
    HeadShifted(m[0], flat[..n], t);
    ShiftIgnores(m[1..], e, t);
  }

  lemma HeadShifted(p: Param, piece: seq<real>, t: State)
    requires ValidTensor(p.tensor) && |piece| == Numel(p.tensor.shape)
    ensures Shifted(p, [Entry(p.name, Tensor(p.tensor.shape, piece))] + t) ==
            p.(tensor := Tensor(p.tensor.shape, Add(p.tensor.data, piece)))
  {
  }

  lemma FrozenHeadStays(m: Model, flat: seq<real>)
    requires ValidModel(m) && m != [] && !m[0].trainable && Cut(flat, m).Ok?
    ensures Cut(flat, m[1..]).Ok?
    ensures ShiftAll(m, Cut(flat, m).value.0) == [m[0]] + ShiftAll(m[1..], Cut(flat, m[1..]).value.0)
  {
    HeadAbsent(m, flat);
  }

  /** The pieces of the vector land on the trainable parameters one after the other. */
  lemma {:induction false} ShiftFlat(m: Model, flat: seq<real>)
    requires ValidModel(m) && Cut(flat, m).Ok? && |flat| == TrainableSize(m)
    ensures |Flat(m)| == |flat| && Flat(ShiftAll(m, Cut(flat, m).value.0)) == Add(Flat(m), flat)
  {
    FlatSize(m);
    if m != [] {
      TailValid(m);
      FlatSize(m[1..]);
      if m[0].trainable {
        var n := Numel(m[0].tensor.shape);
        HeadTakesFront(m, flat);
        ShiftFlat(m[1..], flat[n..]);
        var p := m[0].(tensor := Tensor(m[0].tensor.shape, Add(m[0].tensor.data, flat[..n])));
        FlatCons(p, ShiftAll(m[1..], Cut(flat[n..], m[1..]).value.0));
        AddParts(m[0].tensor.data, Flat(m[1..]), flat, n);
      } else {
        FrozenHeadStays(m, flat);
        ShiftFlat(m[1..], flat);
        FlatCons(m[0], ShiftAll(m[1..], Cut(flat, m[1..]).value.0));
        assert Flat(m) == Flat(m[1..]);
      }
    }
  }

  lemma FlatCons(p: Param, m: Model)
    ensures Flat([p] + m) == (if p.trainable then p.tensor.data else []) + Flat(m)
  {
    assert ([p] + m)[1..] == m;
  }

  /** Applying a delta adds it to the flat vector and touches no frozen parameter, name or shape;
      a delta of any other length is refused. */
  lemma ApplyAdds(m: Model, delta: seq<real>)
    requires ValidModel(m)
    ensures ApplyDelta(m, delta).Ok? <==> |delta| == |Flat(m)|
    ensures ApplyDelta(m, delta).Ok? ==>
              var r := ApplyDelta(m, delta).value;
              && ValidModel(r) && Flat(r) == Add(Flat(m), delta)
              && SameArchitecture(r, m) && forall i :: 0 <= i < |m| && !m[i].trainable ==> r[i] == m[i]
  {
    FlatSize(m);
    FlattenUnflatten(delta, m);
    if ApplyDelta(m, delta).Ok? {
      var s := Unflatten(delta, m).value;
      ShiftFlat(m, delta);
      CutNames(delta, m);
      ShiftKeeps(m, s);
    }
  }

  lemma ShiftKeeps(m: Model, s: State)
    requires ValidModel(m) && forall k :: 0 <= k < |s| ==> HasTrainable(m, s[k].name)
    ensures ValidModel(ShiftAll(m, s)) && SameArchitecture(ShiftAll(m, s), m)
    ensures forall i :: 0 <= i < |m| && !m[i].trainable ==> ShiftAll(m, s)[i] == m[i]
  {
    ShiftAllAt(m, s);
    forall i | 0 <= i < |m| && !m[i].trainable ensures Shifted(m[i], s) == m[i] {
      FrozenAbsent(m, i, s);
    }
  }

  lemma FrozenAbsent(m: Model, i: nat, s: State)
    requires ValidModel(m) && i < |m| && !m[i].trainable
    requires forall k :: 0 <= k < |s| ==> HasTrainable(m, s[k].name)
    ensures Shifted(m[i], s) == m[i]
  {
    forall k | 0 <= k < |s| ensures s[k].name != m[i].name {
      assert HasTrainable(m, s[k].name);
      var j :| 0 <= j < |m| && m[j].trainable && m[j].name == s[k].name;
      assert j != i;
    }
    LookupAbsent(s, m[i].name);
  }

  ghost predicate SameArchitecture(a: Model, b: Model) {
    |a| == |b| && forall i :: 0 <= i < |a| ==>
                    a[i].name == b[i].name && a[i].trainable == b[i].trainable && a[i].tensor.shape == b[i].tensor.shape
  }

  lemma {:induction false} SameSize(a: Model, b: Model)
    requires SameArchitecture(a, b)
    ensures TrainableSize(a) == TrainableSize(b)
  {
    if a != [] {
      SameSize(a[1..], b[1..]);
    }
  }

  /** The flat vector determines every trainable tensor of a model whose architecture is known. */
  lemma {:induction false} FlatDetermines(a: Model, b: Model)
    requires ValidModel(a) && ValidModel(b) && SameArchitecture(a, b) && Flat(a) == Flat(b)
    ensures forall i :: 0 <= i < |a| && a[i].trainable ==> a[i] == b[i]
  {
    if a != [] {
      if a[0].trainable {
        var n := |a[0].tensor.data|;
        assert Flat(a)[..n] == a[0].tensor.data && Flat(a)[n..] == Flat(a[1..]);
        assert Flat(b)[..n] == b[0].tensor.data && Flat(b)[n..] == Flat(b[1..]);
      } else {
        assert Flat(a) == Flat(a[1..]) && Flat(b) == Flat(b[1..]);
      }
      FlatDetermines(a[1..], b[1..]);
      assert forall i :: 1 <= i < |a| ==> a[i] == a[1..][i - 1] && b[i] == b[1..][i - 1];
    }
  }

  /** A model moved by its own delta: the local trainable parameters, the global frozen ones. */
  lemma ApplyOwnDelta(local: Model, global: Model)
    requires ValidModel(local) && ValidModel(global) && SameArchitecture(local, global) && AnyTrainable(global)
    ensures ComputeDelta(local, global).Ok? && ApplyDelta(global, ComputeDelta(local, global).value).Ok?
    ensures var r := ApplyDelta(global, ComputeDelta(local, global).value).value;
            |r| == |global| &&
            forall i :: 0 <= i < |r| ==> r[i] == if global[i].trainable then local[i] else global[i]
  {
    var i :| 0 <= i < |global| && global[i].trainable;
    assert local[i].trainable;
    FlatSize(local);
    FlatSize(global);
    SameSize(local, global);
    var d := ComputeDelta(local, global).value;
    ApplyAdds(global, d);
    AddBack(Flat(global), Flat(local));
    var r := ApplyDelta(global, d).value;
    SameChain(r, global, local);
    FlatDetermines(r, local);
  }

  /** Between models of the same architecture a delta exists exactly when something is trainable: with all
      parameters frozen there is nothing to concatenate. */
  lemma DeltaExactly(local: Model, global: Model)
    requires ValidModel(local) && ValidModel(global) && SameArchitecture(local, global)
    ensures ComputeDelta(local, global).Ok? <==> AnyTrainable(global)
    ensures !AnyTrainable(global) ==> ApplyDelta(global, []) == Ok(global)
  {
    if AnyTrainable(global) {
      ApplyOwnDelta(local, global);
    } else {
      assert !AnyTrainable(local) by {
        forall i | 0 <= i < |local| ensures !local[i].trainable {
          assert !global[i].trainable;
        }
      }
      NothingToApply(global);
    }
  }

  lemma NothingToApply(m: Model)
    requires ValidModel(m) && !AnyTrainable(m)
    ensures ApplyDelta(m, []) == Ok(m)
  {
    NothingFlat(m);
    ApplyAdds(m, []);
    assert ApplyDelta(m, []).value == m;
  }

  lemma {:induction false} NothingFlat(m: Model)
    requires !AnyTrainable(m)
    ensures Flat(m) == []
  {
    if m != [] {
      assert !m[0].trainable;
      forall i | 0 <= i < |m[1..]| ensures !m[1..][i].trainable {
        assert !m[i + 1].trainable;
      }
      NothingFlat(m[1..]);
    }
  }

  lemma AddBack(g: seq<real>, l: seq<real>)
    requires |g| == |l|
    ensures Subtract(l, g).Ok? && |Subtract(l, g).value| == |g| && Add(g, Subtract(l, g).value) == l
  {
  }

  lemma SameChain(a: Model, b: Model, c: Model)
    requires SameArchitecture(a, b) && SameArchitecture(c, b)
    ensures SameArchitecture(a, c)
  {
  }

  // ----- weighted sums of client deltas

  function Deltas(locals: seq<Model>, global: Model): seq<seq<real>> {
    seq(|locals|, k requires 0 <= k < |locals| => Difference(Flat(locals[k]), Flat(global)))
  }

  function Difference(a: seq<real>, b: seq<real>): seq<real> {
    match Subtract(a, b) case Ok(d) => d case Err(_) => []
  }

  function Flats(locals: seq<Model>): seq<seq<real>> {
    seq(|locals|, k requires 0 <= k < |locals| => Flat(locals[k]))
  }

  ghost predicate Clients(locals: seq<Model>, global: Model) {
    forall k :: 0 <= k < |locals| ==> ValidModel(locals[k]) && SameArchitecture(locals[k], global)
  }

  lemma ClientSizes(locals: seq<Model>, global: Model)
    requires ValidModel(global) && Clients(locals, global)
    ensures AllOfSize(Flats(locals), |Flat(global)|) && AllOfSize(Deltas(locals, global), |Flat(global)|)
  {
    forall k | 0 <= k < |locals| ensures |Flat(locals[k])| == |Flat(global)| {
      FlatSize(locals[k]);
      FlatSize(global);
      SameSize(locals[k], global);
    }
  }

  lemma {:induction false} DotShift(ws: seq<real>, xs: seq<real>, ys: seq<real>, g: real)
    requires |ws| == |xs| == |ys| && forall k :: 0 <= k < |xs| ==> ys[k] == xs[k] - g
    ensures Dot(ws, ys) == Dot(ws, xs) - Sum(ws) * g
  {
    if ws != [] {
      DotShift(ws[1..], xs[1..], ys[1..], g);
      Distribute(ws[0], xs[0], g, Sum(ws[1..]));
    }
  }

  lemma AverageShift(ws: seq<real>, xs: seq<real>, ys: seq<real>, g: real)
    requires |ws| == |xs| == |ys| && (forall k :: 0 <= k < |xs| ==> ys[k] == xs[k] - g) && Sum(ws) == 1.0
    ensures g + Dot(ws, ys) == Dot(ws, xs)
  {
    DotShift(ws, xs, ys, g);
    OneTimes(Sum(ws), g);
  }

  lemma OneTimes(x: real, y: real)
    requires x == 1.0
    ensures x * y == y
  {
  }

  lemma Distribute(w: real, v: real, g: real, rest: real)
    ensures w * (v - g) - rest * g == w * v - (w + rest) * g
  {
  }

  /** Moving the global model by the weighted sum of client deltas, the weights summing to one, gives
      the same weighted average of the client models, and keeps what is frozen. */
  lemma WeightedDeltasAverage(ws: seq<real>, locals: seq<Model>, global: Model)
    requires ValidModel(global) && Clients(locals, global) && |ws| == |locals| && Sum(ws) == 1.0
    ensures AllOfSize(Flats(locals), |Flat(global)|) && AllOfSize(Deltas(locals, global), |Flat(global)|)
    ensures var n := |Flat(global)|;
            var r := ApplyDelta(global, Combine(ws, Deltas(locals, global), n));
            && r.Ok? && Flat(r.value) == Combine(ws, Flats(locals), n)
            && SameArchitecture(r.value, global)
            && forall i :: 0 <= i < |global| && !global[i].trainable ==> r.value[i] == global[i]
  {
    ClientSizes(locals, global);
    var g := Flat(global);
    var d, c := Combine(ws, Deltas(locals, global), |g|), Combine(ws, Flats(locals), |g|);
    forall i: nat | i < |g| ensures Add(g, d)[i] == c[i] {
      WeightedAt(ws, locals, global, |g|, i);
    }
    assert Add(g, d) == c;
    ApplyAdds(global, d);
  }

  lemma DeltaColumn(locals: seq<Model>, global: Model, n: nat, i: nat)
    requires n == |Flat(global)| && i < n
    requires AllOfSize(Flats(locals), n) && AllOfSize(Deltas(locals, global), n)
    ensures forall k :: 0 <= k < |locals| ==>
              Column(Deltas(locals, global), n, i)[k] == Column(Flats(locals), n, i)[k] - Flat(global)[i]
  {
    forall k | 0 <= k < |locals|
      ensures Deltas(locals, global)[k][i] == Flats(locals)[k][i] - Flat(global)[i]
    {
      assert Flats(locals)[k] == Flat(locals[k]);
    }
  }

  lemma WeightedAt(ws: seq<real>, locals: seq<Model>, global: Model, n: nat, i: nat)
    requires n == |Flat(global)| && i < n && |ws| == |locals| && Sum(ws) == 1.0
    requires AllOfSize(Flats(locals), n) && AllOfSize(Deltas(locals, global), n)
    ensures Flat(global)[i] + Dot(ws, Column(Deltas(locals, global), n, i)) == Dot(ws, Column(Flats(locals), n, i))
  {
    DeltaColumn(locals, global, n, i);
    AverageShift(ws, Column(Flats(locals), n, i), Column(Deltas(locals, global), n, i), Flat(global)[i]);
  }

  /** A delta of two models exists exactly when both have something trainable and as much of it, or one of them a
      single element, which is then taken against every element of the other. */
  lemma DeltaAt(local: Model, global: Model)
    ensures var (a, b, d) := (Flat(local), Flat(global), ComputeDelta(local, global));
            && (d.Ok? <==> AnyTrainable(local) && AnyTrainable(global) && (|a| == |b| || |a| == 1 || |b| == 1))
            && (d.Ok? ==> |d.value| == if |b| == 1 then |a| else |b|)
            && (d.Ok? ==>
                  forall i :: 0 <= i < |d.value| ==>
                    d.value[i] == a[if |a| == 1 then 0 else i] - b[if |b| == 1 then 0 else i])
  {
  }

  function Products(ws: seq<real>, xs: seq<real>): (r: seq<real>)
    requires |ws| == |xs|
    ensures |r| == |ws| && forall k :: 0 <= k < |r| ==> r[k] == ws[k] * xs[k]
  {
    seq(|ws|, k requires 0 <= k < |ws| => ws[k] * xs[k])
  }

  /** Each coordinate of a combination is the sum of weight times value, each weight with its own vector. */
  lemma {:induction false} DotIsSum(ws: seq<real>, xs: seq<real>)
    requires |ws| == |xs|
    ensures Dot(ws, xs) == Sum(Products(ws, xs))
  {
    if ws != [] {
      DotIsSum(ws[1..], xs[1..]);
      forall k | 0 <= k < |ws| - 1 ensures Products(ws, xs)[1..][k] == Products(ws[1..], xs[1..])[k] {
        assert ws[1..][k] == ws[k + 1] && xs[1..][k] == xs[k + 1];
      }
      assert Products(ws, xs)[1..] == Products(ws[1..], xs[1..]);
    }
  }

  // ----- federated averaging

  /** `aggregate_fedavg`: with sample counts each delta weighs its share of the total, without them the mean. */
  ghost function FedAvg(deltas: seq<seq<real>>, samples: Option<seq<real>>): Result<seq<real>> {
    if deltas == [] then Err(BadWeights)
    else if !AllOfSize(deltas, |deltas[0]|) then Err(UnequalSizes)
    else
      match samples
      case None => Ok(MeanOf(deltas, |deltas[0]|))
      case Some(ws) =>
        if |ws| != |deltas| || Sum(ws) <= 0.0 then Err(BadWeights)
        else Ok(Combine(Shares(ws), deltas, |deltas[0]|))
  }

  ghost function MeanOf(vs: seq<seq<real>>, n: nat): (c: seq<real>)
    requires vs != [] && AllOfSize(vs, n)
    ensures |c| == n
  {
    seq(n, i requires 0 <= i < n => Mean(Column(vs, n, i)))
  }

  function Shares(samples: seq<real>): (ws: seq<real>)
    requires Sum(samples) > 0.0
    ensures |ws| == |samples|
  {
    Divided(samples, Sum(samples))
  }

  function Divided(samples: seq<real>, total: real): (ws: seq<real>)
    requires total > 0.0
    ensures |ws| == |samples|
  {
    seq(|samples|, k requires 0 <= k < |samples| => samples[k] / total)
  }

  /** Each client's share is in proportion to its samples. */
  lemma SharesProportional(samples: seq<real>, k: nat)
    requires Sum(samples) > 0.0 && k < |samples|
    ensures Shares(samples)[k] * Sum(samples) == samples[k]
  {
    Quotient(samples[k], Sum(samples));
  }

  lemma Quotient(s: real, n: real)
    requires n != 0.0
    ensures s / n * n == s
  {
  }

  lemma {:induction false} SumDivided(samples: seq<real>, total: real)
    requires total > 0.0
    ensures Sum(Divided(samples, total)) == Sum(samples) / total
  {
    if samples != [] {
      SumDivided(samples[1..], total);
      assert Divided(samples, total)[1..] == Divided(samples[1..], total);
    }
  }

  lemma SelfQuotient(x: real)
    requires x > 0.0
    ensures x / x == 1.0
  {
  }

  /** One weight for each of n clients, all the same. */
  function Equal(n: nat): (ws: seq<real>)
    requires n > 0
    ensures |ws| == n
  {
    seq(n, _ => 1.0 / n as real)
  }

  lemma {:induction false} DotConstant(w: real, ws: seq<real>, xs: seq<real>)
    requires |ws| == |xs| && forall k :: 0 <= k < |ws| ==> ws[k] == w
    ensures Dot(ws, xs) == w * Sum(xs) && Sum(ws) == w * |ws| as real
  {
    if ws != [] {
      DotConstant(w, ws[1..], xs[1..]);
      Spread(w, xs[0], Sum(xs[1..]));
      Spread(w, 1.0, |ws[1..]| as real);
      assert |ws| as real == 1.0 + |ws[1..]| as real;
    }
  }

  lemma Spread(w: real, x: real, y: real)
    ensures w * (x + y) == w * x + w * y
  {
  }

  lemma Reciprocal(n: real, s: real)
    requires n > 0.0
    ensures 1.0 / n * s == s / n && 1.0 / n * n == 1.0
  {
  }

  /** The mean is the combination with equal weights. */
  lemma MeanIsEqualWeights(vs: seq<seq<real>>, n: nat)
    requires vs != [] && AllOfSize(vs, n)
    ensures MeanOf(vs, n) == Combine(Equal(|vs|), vs, n) && Sum(Equal(|vs|)) == 1.0
  {
    var m := |vs| as real;
    forall i: nat | i < n ensures MeanOf(vs, n)[i] == Combine(Equal(|vs|), vs, n)[i] {
      DotConstant(1.0 / m, Equal(|vs|), Column(vs, n, i));
      Reciprocal(m, Sum(Column(vs, n, i)));
    }
    DotConstant(1.0 / m, Equal(|vs|), Equal(|vs|));
    Reciprocal(m, m);
  }

  /** One round of federated averaging: applying the aggregated delta gives the average of the client models,
      weighted by any sample counts with a positive total, or their plain mean when no counts are given. */
  lemma FedAvgRound(samples: Option<seq<real>>, locals: seq<Model>, global: Model)
    requires ValidModel(global) && Clients(locals, global) && locals != []
    requires samples.Some? ==> |samples.value| == |locals| && Sum(samples.value) > 0.0
    ensures AllOfSize(Flats(locals), |Flat(global)|)
    ensures var delta := FedAvg(Deltas(locals, global), samples);
            delta.Ok? && ApplyDelta(global, delta.value).Ok? &&
            Flat(ApplyDelta(global, delta.value).value) ==
              match samples
              case Some(ws) => Combine(Shares(ws), Flats(locals), |Flat(global)|)
              case None => MeanOf(Flats(locals), |Flat(global)|)
  {
    ClientSizes(locals, global);
    match samples
    case Some(ws) =>
      SumDivided(ws, Sum(ws));
      SelfQuotient(Sum(ws));
      WeightedDeltasAverage(Shares(ws), locals, global);
    case None =>
      MeanIsEqualWeights(Deltas(locals, global), |Flat(global)|);
      MeanIsEqualWeights(Flats(locals), |Flat(global)|);
      WeightedDeltasAverage(Equal(|locals|), locals, global);
  }
}
