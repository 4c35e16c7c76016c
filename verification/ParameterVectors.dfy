/** Model parameters as tensors, their flat vectors, and the two serialisers between them, on values.
    A tensor is its shape and its elements in row-major order, so reshaping keeps the elements. */
module ParameterVectors {

  datatype Result<+T> = Ok(value: T) | Err(error: Error)

  datatype Error =
    | NothingToConcatenate
    | CannotReshape(name: string)
    | LengthMismatch(processed: nat, given: nat)
    | SizeMismatch(left: nat, right: nat)
    | BadWeights
    | UnequalSizes

  datatype Tensor = Tensor(shape: seq<nat>, data: seq<real>)
  datatype Param = Param(name: string, trainable: bool, tensor: Tensor)
  datatype Entry = Entry(name: string, tensor: Tensor)

  type Model = seq<Param>
  /** An ordered dictionary from parameter names to tensors. */
  type State = seq<Entry>

  function Numel(shape: seq<nat>): nat {
    if shape == [] then 1 else Numel(shape[..|shape| - 1]) * shape[|shape| - 1]
  }

  predicate ValidTensor(t: Tensor) {
    |t.data| == Numel(t.shape)
  }

  /** What `named_parameters` guarantees: well-formed tensors under distinct names. */
  ghost predicate ValidModel(m: Model) {
    && (forall i :: 0 <= i < |m| ==> ValidTensor(m[i].tensor))
    && (forall i, j :: 0 <= i < j < |m| ==> m[i].name != m[j].name)
  }

  // ----- the serialiser of trainable parameters

  predicate AnyTrainable(m: Model) {
    exists i :: 0 <= i < |m| && m[i].trainable
  }

  function Flat(m: Model): seq<real> {
    if m == [] then [] else (if m[0].trainable then m[0].tensor.data else []) + Flat(m[1..])
  }

  function TrainableState(m: Model): State {
    if m == [] then [] else (if m[0].trainable then [Entry(m[0].name, m[0].tensor)] else []) + TrainableState(m[1..])
  }

  /** Concatenating no tensors is an error. */
  function Flatten(m: Model): Result<seq<real>> {
    if AnyTrainable(m) then Ok(Flat(m)) else Err(NothingToConcatenate)
  }

  function FlatState(s: State): seq<real> {
    if s == [] then [] else s[0].tensor.data + FlatState(s[1..])
  }

  function TrainableSize(m: Model): nat {
    if m == [] then 0 else (if m[0].trainable then Numel(m[0].tensor.shape) else 0) + TrainableSize(m[1..])
  }

  /** The tensors cut from the front of `flat`, and what is left of it. */
  function Cut(flat: seq<real>, m: Model): Result<(State, seq<real>)> {
    if m == [] then Ok(([], flat))
    else if !m[0].trainable then Cut(flat, m[1..])
    else
      var n := Numel(m[0].tensor.shape);
      if |flat| < n then Err(CannotReshape(m[0].name))
      else Prepend(Entry(m[0].name, Tensor(m[0].tensor.shape, flat[..n])), Cut(flat[n..], m[1..]))
  }

  function Prepend(e: Entry, r: Result<(State, seq<real>)>): Result<(State, seq<real>)> {
    match r
    case Ok((s, rest)) => Ok(([e] + s, rest))
    case Err(x) => Err(x)
  }

  function Unflatten(flat: seq<real>, template: Model): Result<State> {
    match Cut(flat, template)
    case Err(x) => Err(x)
    case Ok((s, rest)) =>
      if rest == [] then Ok(s) else Err(LengthMismatch(TrainableSize(template), |flat|))
  }

  lemma {:induction false} FlatSize(m: Model)
    requires ValidModel(m)
    ensures |Flat(m)| == TrainableSize(m) && FlatState(TrainableState(m)) == Flat(m)
  {
    if m != [] {
      FlatSize(m[1..]);
      if m[0].trainable {
        assert TrainableState(m)[1..] == TrainableState(m[1..]);
      } else {
        assert TrainableState(m) == TrainableState(m[1..]) && Flat(m) == Flat(m[1..]);
      }
    }
  }

  lemma SplitFront(d: seq<real>, rest: seq<real>)
    ensures (d + rest)[..|d|] == d && (d + rest)[|d|..] == rest
  {
  }

  lemma CutTrainable(p: Param, m: Model, rest: seq<real>, s: State, tail: seq<real>)
    requires p.trainable && ValidTensor(p.tensor) && Cut(rest, m) == Ok((s, tail))
    ensures Cut(p.tensor.data + rest, [p] + m) == Ok(([Entry(p.name, p.tensor)] + s, tail))
  {
    var flat, ps := p.tensor.data + rest, [p] + m;
    SplitFront(p.tensor.data, rest);
    assert ps[1..] == m && ps[0] == p;
    assert Cut(flat, ps) == Prepend(Entry(p.name, Tensor(p.tensor.shape, flat[..|p.tensor.data|])), Cut(rest, m));
  }

  lemma {:induction false} CutOwn(m: Model, tail: seq<real>)
    requires ValidModel(m)
    ensures Cut(Flat(m) + tail, m) == Ok((TrainableState(m), tail))
  {
    if m == [] {
      assert Flat(m) + tail == tail;
    } else {
      CutOwn(m[1..], tail);
      if m[0].trainable {
        CutTrainable(m[0], m[1..], Flat(m[1..]) + tail, TrainableState(m[1..]), tail);
        assert m == [m[0]] + m[1..];
        Regroup(m[0].tensor.data, Flat(m[1..]), tail);
      } else {
        assert Flat(m) == Flat(m[1..]) && TrainableState(m) == TrainableState(m[1..]);
      }
    }
  }

  lemma Regroup(a: seq<real>, b: seq<real>, c: seq<real>)
    ensures a + b + c == a + (b + c)
  {
  }

  /** Reading back what was written gives the trainable parameters, whatever is frozen. */
  lemma UnflattenFlatten(m: Model)
    requires ValidModel(m)
    ensures Unflatten(Flat(m), m) == Ok(TrainableState(m))
  {
    CutOwn(m, []);
    assert Flat(m) + [] == Flat(m);
  }

  lemma {:induction false} CutParts(flat: seq<real>, m: Model)
    ensures Cut(flat, m).Ok? <==> |flat| >= TrainableSize(m)
    ensures Cut(flat, m).Err? ==> Cut(flat, m).error.CannotReshape?
    ensures Cut(flat, m).Ok? ==>
              var (s, rest) := Cut(flat, m).value;
              FlatState(s) + rest == flat && |rest| == |flat| - TrainableSize(m)
    ensures Cut(flat, m).Ok? ==> Fits(Cut(flat, m).value.0, TrainableState(m))
  {
    if m != [] {
      if m[0].trainable {
        var n := Numel(m[0].tensor.shape);
        if |flat| >= n {
          CutParts(flat[n..], m[1..]);
          if Cut(flat[n..], m[1..]).Ok? {
            var (s, rest) := Cut(flat[n..], m[1..]).value;
            var e := Entry(m[0].name, Tensor(m[0].tensor.shape, flat[..n]));
            assert ([e] + s)[1..] == s;
            assert flat[..n] + (FlatState(s) + rest) == flat;
          }
        }
      } else {
        CutParts(flat, m[1..]);
        assert TrainableState(m) == TrainableState(m[1..]);
      }
    } else {
      assert FlatState([]) + flat == flat;
    }
  }

  /** Same names and shapes in the same order, every tensor well formed. */
  ghost predicate Fits(s: State, t: State) {
    |s| == |t| && forall i :: 0 <= i < |s| ==>
                    s[i].name == t[i].name && s[i].tensor.shape == t[i].tensor.shape && ValidTensor(s[i].tensor)
  }

  /** A vector is accepted exactly when it has as many elements as the trainable parameters; the state
      then has the template's names and shapes and flattens to that vector.  A short vector fails
      to reshape, a long one fails the final length test. */
  lemma FlattenUnflatten(flat: seq<real>, m: Model)
    ensures Unflatten(flat, m).Ok? <==> |flat| == TrainableSize(m)
    ensures Unflatten(flat, m).Ok? ==> FlatState(Unflatten(flat, m).value) == flat
    ensures Unflatten(flat, m).Ok? ==> Fits(Unflatten(flat, m).value, TrainableState(m))
    ensures |flat| < TrainableSize(m) ==> Unflatten(flat, m).error.CannotReshape?
    ensures |flat| > TrainableSize(m) ==> Unflatten(flat, m) == Err(LengthMismatch(TrainableSize(m), |flat|))
  {
    CutParts(flat, m);
    if Unflatten(flat, m).Ok? {
      var s := Unflatten(flat, m).value;
      assert FlatState(s) + [] == FlatState(s);
    }
  }

  // ----- the serialiser of all parameters

  datatype Weights = Weights(shapes: seq<seq<nat>>, flat: seq<real>)

  function Shapes(m: Model): seq<seq<nat>> {
    seq(|m|, i requires 0 <= i < |m| => m[i].tensor.shape)
  }

  function FlatAll(m: Model): seq<real> {
    if m == [] then [] else m[0].tensor.data + FlatAll(m[1..])
  }

  function GetParams(m: Model): Weights {
    Weights(Shapes(m), FlatAll(m))
  }

  function TotalSize(shapes: seq<seq<nat>>): nat {
    if shapes == [] then 0 else Numel(shapes[0]) + TotalSize(shapes[1..])
  }

  /** The model after `set_params` and whether it got to the end.  Pairs stop with the shorter list,
      surplus elements are ignored, and a failing reshape leaves the earlier parameters assigned. */
  function SetParams(m: Model, shapes: seq<seq<nat>>, flat: seq<real>): (Model, bool) {
    if m == [] || shapes == [] then (m, true)
    else
      var n := Numel(shapes[0]);
      if |flat| < n then (m, false)
      else
        var (rest, ok) := SetParams(m[1..], shapes[1..], flat[n..]);
        ([m[0].(tensor := Tensor(shapes[0], flat[..n]))] + rest, ok)
  }

  lemma {:induction false} FlatAllSize(m: Model)
    requires ValidModel(m)
    ensures |FlatAll(m)| == TotalSize(Shapes(m))
  {
    if m != [] {
      FlatAllSize(m[1..]);
      assert Shapes(m)[1..] == Shapes(m[1..]);
    }
  }

  /** Names and training flags stay, and so does the distinctness of names. */
  ghost predicate Renews(m: Model, r: Model) {
    |r| == |m| && forall i :: 0 <= i < |m| ==>
                    r[i].name == m[i].name && r[i].trainable == m[i].trainable && ValidTensor(r[i].tensor)
  }

  lemma RenewsCons(p: Param, q: Param, m: Model, r: Model)
    requires Renews(m, r) && q.name == p.name && q.trainable == p.trainable && ValidTensor(q.tensor)
    ensures Renews([p] + m, [q] + r)
  {
  }

  lemma {:induction false} SetParamsShape(m: Model, shapes: seq<seq<nat>>, flat: seq<real>)
    requires forall i :: 0 <= i < |m| ==> ValidTensor(m[i].tensor)
    ensures Renews(m, SetParams(m, shapes, flat).0)
  {
    if m != [] && shapes != [] && |flat| >= Numel(shapes[0]) {
      var n := Numel(shapes[0]);
      SetParamsShape(m[1..], shapes[1..], flat[n..]);
      RenewsCons(m[0], m[0].(tensor := Tensor(shapes[0], flat[..n])), m[1..],
                 SetParams(m[1..], shapes[1..], flat[n..]).0);
      assert m == [m[0]] + m[1..];
    }
  }

  lemma SetOne(p: Param, m: Model, shape: seq<nat>, shapes: seq<seq<nat>>, data: seq<real>, flat: seq<real>)
    requires |data| == Numel(shape)
    ensures var (rest, ok) := SetParams(m, shapes, flat);
            SetParams([p] + m, [shape] + shapes, data + flat) == ([p.(tensor := Tensor(shape, data))] + rest, ok)
  {
    SplitFront(data, flat);
    assert ([p] + m)[1..] == m && ([shape] + shapes)[1..] == shapes;
  }

  ghost predicate Copied(source: Model, target: Model, r: Model) {
    |r| == |target| == |source| && forall i :: 0 <= i < |r| ==> r[i] == target[i].(tensor := source[i].tensor)
  }

  /** Loading one model's weights into another of as many parameters copies every tensor. */
  lemma {:induction false} SetAfterGet(source: Model, target: Model)
    requires (forall i :: 0 <= i < |source| ==> ValidTensor(source[i].tensor)) && |target| == |source|
    ensures SetParams(target, Shapes(source), FlatAll(source)).1
    ensures Copied(source, target, SetParams(target, Shapes(source), FlatAll(source)).0)
  {
    if source != [] {
      var p, q, ps, qs := source[0], target[0], source[1..], target[1..];
      assert source == [p] + ps && target == [q] + qs && Shapes(source) == [p.tensor.shape] + Shapes(ps);
      SetAfterGet(ps, qs);
      SetOne(q, qs, p.tensor.shape, Shapes(ps), p.tensor.data, FlatAll(ps));
      CopiedCons(p, q, ps, qs, SetParams(qs, Shapes(ps), FlatAll(ps)).0);
    }
  }

  lemma CopiedCons(p: Param, q: Param, source: Model, target: Model, r: Model)
    requires Copied(source, target, r)
    ensures Copied([p] + source, [q] + target, [q.(tensor := p.tensor)] + r)
  {
  }

  lemma GetOne(p: Param, m: Model)
    ensures GetParams([p] + m) == Weights([p.tensor.shape] + Shapes(m), p.tensor.data + FlatAll(m))
  {
    assert ([p] + m)[1..] == m;
    assert Shapes([p] + m) == [p.tensor.shape] + Shapes(m);
  }

  lemma {:induction false} GetAfterSetForward(m: Model, shapes: seq<seq<nat>>, flat: seq<real>)
    requires |shapes| == |m| && TotalSize(shapes) == |flat|
    ensures GetParams(SetParams(m, shapes, flat).0) == Weights(shapes, flat)
  {
    if m != [] {
      var n := Numel(shapes[0]);
      var data, flats := flat[..n], flat[n..];
      assert m == [m[0]] + m[1..] && shapes == [shapes[0]] + shapes[1..] && flat == data + flats;
      GetAfterSetForward(m[1..], shapes[1..], flats);
      SetOne(m[0], m[1..], shapes[0], shapes[1..], data, flats);
      GetOne(m[0].(tensor := Tensor(shapes[0], data)), SetParams(m[1..], shapes[1..], flats).0);
    }
  }

  /** Weights survive a load exactly when they have one shape for each parameter and no element too few
      or too many; in every other case something is dropped or the load stops half-way. */
  lemma GetAfterSetExactly(m: Model, w: Weights)
    requires ValidModel(m)
    ensures GetParams(SetParams(m, w.shapes, w.flat).0) == w <==>
            |w.shapes| == |m| && TotalSize(w.shapes) == |w.flat|
  {
    var r := SetParams(m, w.shapes, w.flat).0;
    SetParamsShape(m, w.shapes, w.flat);
    FlatAllSize(r);
    if |w.shapes| == |m| && TotalSize(w.shapes) == |w.flat| {
      GetAfterSetForward(m, w.shapes, w.flat);
    }
  }

  /** With nothing frozen both serialisers write the same vector. */
  lemma {:induction false} SerialisersAgree(m: Model)
    requires forall i :: 0 <= i < |m| ==> m[i].trainable
    ensures Flat(m) == GetParams(m).flat
    ensures m != [] ==> Flatten(m) == Ok(GetParams(m).flat)
  {
    if m != [] {
      SerialisersAgree(m[1..]);
      assert m[0].trainable;
    }
  }
}
