/** The serialisers as they run on a live model: a list of parameter objects whose tensors are
    assigned and added to in place. */
module ModelParameters {
  import opened ParameterVectors
  import opened ModelDeltas

  class Parameter {
    const name: string
    const trainable: bool
    var tensor: Tensor

    constructor (name: string, trainable: bool, tensor: Tensor)
      ensures View() == Param(name, trainable, tensor)
    {
      this.name, this.trainable, this.tensor := name, trainable, tensor;
    }

    function View(): Param
      reads this
    {
      Param(name, trainable, tensor)
    }
  }

  ghost function Snapshot(ps: seq<Parameter>): (m: Model)
    reads ps
    ensures |m| == |ps| && forall i :: 0 <= i < |ps| ==> m[i] == ps[i].View()
  {
    if ps == [] then [] else [ps[0].View()] + Snapshot(ps[1..])
  }

  ghost predicate Distinct(ps: seq<Parameter>) {
    forall i, j :: 0 <= i < j < |ps| ==> ps[i] != ps[j]
  }

  lemma {:induction false} FlatExtend(m: Model, i: nat)
    requires i < |m|
    ensures Flat(m[..i + 1]) == Flat(m[..i]) + (if m[i].trainable then m[i].tensor.data else [])
    decreases i
  {
    if i == 0 {
      assert m[..1][1..] == [] && m[..0] == [];
    } else {
      FlatExtend(m[1..], i - 1);
      assert m[..i + 1][1..] == m[1..][..i] && m[..i][1..] == m[1..][..i - 1];
    }
  }

  lemma {:induction false} FlatAllExtend(m: Model, i: nat)
    requires i < |m|
    ensures FlatAll(m[..i + 1]) == FlatAll(m[..i]) + m[i].tensor.data
    decreases i
  {
    if i == 0 {
      assert m[..1][1..] == [] && m[..0] == [];
    } else {
      FlatAllExtend(m[1..], i - 1);
      assert m[..i + 1][1..] == m[1..][..i] && m[..i][1..] == m[1..][..i - 1];
    }
  }

  method FlattenParameters(ps: seq<Parameter>) returns (r: Result<seq<real>>)
    ensures r == Flatten(Snapshot(ps))
  {
    ghost var m := Snapshot(ps);
    var flat, count := [], 0;
    for i := 0 to |ps|
      invariant flat == Flat(m[..i])
      invariant count > 0 <==> exists k :: 0 <= k < i && m[k].trainable
    {
      FlatExtend(m, i);
      assert m[i] == ps[i].View();
      if ps[i].trainable {
        flat := flat + ps[i].tensor.data;
        count := count + 1;
      }
    }
    assert m[..|ps|] == m;
    r := if count > 0 then Ok(flat) else Err(NothingToConcatenate);
  }

  /** What `Cut` makes of the rest of the vector, put after the pieces already cut. */
  function After(done: State, r: Result<(State, seq<real>)>): Result<(State, seq<real>)> {
    match r
    case Ok((s, rest)) => Ok((done + s, rest))
    case Err(x) => Err(x)
  }

  function RemainingCut(flat: seq<real>, m: Model, i: nat, offset: nat): Result<(State, seq<real>)>
    requires offset <= |flat| && i <= |m|
  {
    Cut(flat[offset..], m[i..])
  }

  lemma CutStart(flat: seq<real>, m: Model)
    ensures Cut(flat, m) == After([], RemainingCut(flat, m, 0, 0))
  {
    assert flat[0..] == flat && m[0..] == m;
    if Cut(flat, m).Ok? {
      assert [] + Cut(flat, m).value.0 == Cut(flat, m).value.0;
    }
  }

  lemma CutStep(flat: seq<real>, m: Model, i: nat, offset: nat, done: State)
    requires offset <= |flat| && i < |m|
    ensures After(done, RemainingCut(flat, m, i, offset)) ==
            var n := Numel(m[i].tensor.shape);
            if !m[i].trainable then After(done, RemainingCut(flat, m, i + 1, offset))
            else if |flat| - offset < n then Err(CannotReshape(m[i].name))
            else After(done + [Entry(m[i].name, Tensor(m[i].tensor.shape, flat[offset..offset + n]))],
                       RemainingCut(flat, m, i + 1, offset + n))
  {
    assert m[i..][0] == m[i] && m[i..][1..] == m[i + 1..];
    var n := Numel(m[i].tensor.shape);
    if m[i].trainable && |flat| - offset >= n {
      var e := Entry(m[i].name, Tensor(m[i].tensor.shape, flat[offset..offset + n]));
      assert flat[offset..][..n] == flat[offset..offset + n] && flat[offset..][n..] == flat[offset + n..];
      var r := RemainingCut(flat, m, i + 1, offset + n);
      if r.Ok? {
        assert done + [e] + r.value.0 == done + ([e] + r.value.0);
      }
    }
  }

  /** After the last parameter the length test decides. */
  lemma CutEnd(flat: seq<real>, m: Model, offset: nat, done: State)
    requires offset <= |flat| && Cut(flat, m) == After(done, RemainingCut(flat, m, |m|, offset))
    ensures Unflatten(flat, m) == if offset == |flat| then Ok(done) else Err(LengthMismatch(offset, |flat|))
  {
    CutParts(flat, m);
    assert m[|m|..] == [] && done + [] == done;
  }

  method UnflattenToStateDict(flat: seq<real>, template: seq<Parameter>) returns (r: Result<State>)
    ensures r == Unflatten(flat, Snapshot(template))
  {
    ghost var m := Snapshot(template);
    var state: State, offset := [], 0;
    CutStart(flat, m);
    for i := 0 to |template|
      invariant 0 <= offset <= |flat|
      invariant Cut(flat, m) == After(state, RemainingCut(flat, m, i, offset))
    {
      var p := template[i];
      assert m[i] == p.View();
      CutStep(flat, m, i, offset, state);
      if p.trainable {
        var n := Numel(p.tensor.shape);
        if |flat| - offset < n {
          return Err(CannotReshape(p.name));
        }
        state := state + [Entry(p.name, Tensor(p.tensor.shape, flat[offset..offset + n]))];
        offset := offset + n;
      }
    }
    CutEnd(flat, m, offset, state);
    if offset != |flat| {
      return Err(LengthMismatch(offset, |flat|));
    }
    r := Ok(state);
  }

  /** In place: on success every parameter of the list has moved by its piece of the delta; on failure none has. */
  method ApplyModelDelta(ps: seq<Parameter>, delta: seq<real>) returns (r: Result<()>)
    requires Distinct(ps)
    modifies ps
    ensures r.Ok? <==> ApplyDelta(old(Snapshot(ps)), delta).Ok?
    ensures r.Ok? ==> Snapshot(ps) == ApplyDelta(old(Snapshot(ps)), delta).value
    ensures r.Err? ==> Snapshot(ps) == old(Snapshot(ps)) && r.error == ApplyDelta(old(Snapshot(ps)), delta).error
  {
    ghost var m := Snapshot(ps);
    var u := UnflattenToStateDict(delta, ps);
    if u.Err? {
      return Err(u.error);
    }
    var state := u.value;
    ShiftAllAt(m, state);
    for i := 0 to |ps|
      invariant forall k :: 0 <= k < i ==> ps[k].View() == Shifted(m[k], state)
      invariant forall k :: i <= k < |ps| ==> ps[k].View() == m[k]
    {
      var t := Lookup(state, ps[i].name);
      if t.Ok? && |t.value.data| == |ps[i].tensor.data| {
        ps[i].tensor := Tensor(ps[i].tensor.shape, Add(ps[i].tensor.data, t.value.data));
      }
    }
    assert Snapshot(ps) == ShiftAll(m, state);
    r := Ok(());
  }

  method ReadParams(ps: seq<Parameter>) returns (w: Weights)
    ensures w == GetParams(Snapshot(ps))
  {
    ghost var m := Snapshot(ps);
    var shapes, flat := [], [];
    for i := 0 to |ps|
      invariant |shapes| == i && forall k :: 0 <= k < i ==> shapes[k] == m[k].tensor.shape
      invariant flat == FlatAll(m[..i])
    {
      FlatAllExtend(m, i);
      assert m[i] == ps[i].View();
      shapes := shapes + [ps[i].tensor.shape];
      flat := flat + ps[i].tensor.data;
    }
    assert m[..|ps|] == m;
    w := Weights(shapes, flat);
  }

  method CountElements(shape: seq<nat>) returns (numel: nat)
    ensures numel == Numel(shape)
  {
    numel := 1;
    for i := 0 to |shape|
      invariant numel == Numel(shape[..i])
    {
      assert shape[..i + 1][..i] == shape[..i];
      numel := numel * shape[i];
    }
    assert shape[..|shape|] == shape;
  }

  /** What `SetParams` makes of the remaining parameters, put behind those already assigned. */
  function Behind(done: Model, r: (Model, bool)): (Model, bool) {
    (done + r.0, r.1)
  }

  /** The load still to come after `i` parameters, at the given offset. */
  function Remaining(m: Model, w: Weights, i: nat, offset: nat): (Model, bool)
    requires offset <= |w.flat| && i <= |m| && i <= |w.shapes|
  {
    SetParams(m[i..], w.shapes[i..], w.flat[offset..])
  }

  lemma LoadStart(m: Model, w: Weights)
    ensures SetParams(m, w.shapes, w.flat) == Behind([], Remaining(m, w, 0, 0))
  {
    assert m[0..] == m && w.shapes[0..] == w.shapes && w.flat[0..] == w.flat;
    assert [] + SetParams(m, w.shapes, w.flat).0 == SetParams(m, w.shapes, w.flat).0;
  }

  lemma LoadEnd(m: Model, w: Weights, i: nat, offset: nat)
    requires offset <= |w.flat| && i <= |m| && i <= |w.shapes| && (i == |m| || i == |w.shapes|)
    ensures Remaining(m, w, i, offset) == (m[i..], true)
  {
  }

  lemma LoadStep(m: Model, w: Weights, i: nat, offset: nat, done: Model)
    requires offset <= |w.flat| && i < |m| && i < |w.shapes|
    ensures var n := Numel(w.shapes[i]);
            Behind(done, Remaining(m, w, i, offset)) ==
            if |w.flat| - offset < n then (done + m[i..], false)
            else Behind(done + [m[i].(tensor := Tensor(w.shapes[i], w.flat[offset..offset + n]))],
                        Remaining(m, w, i + 1, offset + n))
  {
    var n := Numel(w.shapes[i]);
    assert m[i..][0] == m[i] && m[i..][1..] == m[i + 1..];
    assert w.shapes[i..][0] == w.shapes[i] && w.shapes[i..][1..] == w.shapes[i + 1..];
    if |w.flat| - offset >= n {
      var p := m[i].(tensor := Tensor(w.shapes[i], w.flat[offset..offset + n]));
      assert w.flat[offset..][..n] == w.flat[offset..offset + n] && w.flat[offset..][n..] == w.flat[offset + n..];
      var r := SetParams(m[i + 1..], w.shapes[i + 1..], w.flat[offset + n..]);
      assert done + [p] + r.0 == done + ([p] + r.0);
    }
  }

  /** The first `|done|` parameters are as in `done`, the others still as in `m`. */
  ghost predicate Assigned(ps: seq<Parameter>, done: Model, m: Model)
    requires |done| <= |ps| == |m|
    reads ps
  {
    && (forall k :: 0 <= k < |done| ==> ps[k].View() == done[k])
    && (forall k :: |done| <= k < |ps| ==> ps[k].View() == m[k])
  }

  lemma AssignedSnapshot(ps: seq<Parameter>, done: Model, m: Model)
    requires |done| <= |ps| == |m| && Assigned(ps, done, m)
    ensures Snapshot(ps) == done + m[|done|..]
  {
  }

  method Assign(ps: seq<Parameter>, i: nat, t: Tensor, ghost done: Model, ghost m: Model)
    requires Distinct(ps) && |done| == i < |ps| == |m| && Assigned(ps, done, m)
    modifies ps[i]
    ensures Assigned(ps, done + [m[i].(tensor := t)], m)
  {
    ps[i].tensor := t;
  }

  /** Assigns one parameter, unless its slice is too short. */
  method LoadOne(ps: seq<Parameter>, w: Weights, i: nat, offset: nat, ghost done: Model, ghost m: Model)
    returns (ok: bool, next: nat, ghost done': Model)
    requires Distinct(ps) && |done| == i < |ps| == |m| && i < |w.shapes| && offset <= |w.flat|
    requires Assigned(ps, done, m)
    modifies ps[i]
    ensures next <= |w.flat| && |done'| == (if ok then i + 1 else i) && Assigned(ps, done', m)
    ensures !ok ==> Behind(done, Remaining(m, w, i, offset)) == (done' + m[i..], false)
    ensures ok ==> Behind(done, Remaining(m, w, i, offset)) == Behind(done', Remaining(m, w, i + 1, next))
  {
    var n := CountElements(w.shapes[i]);
    LoadStep(m, w, i, offset, done);
    ok, next, done' := |w.flat| - offset >= n, offset, done;
    if ok {
      next := offset + n;
      var t := Tensor(w.shapes[i], w.flat[offset..next]);
      Assign(ps, i, t, done, m);
      done' := done + [m[i].(tensor := t)];
    }
  }

  /** Assigns parameter after parameter, and stops at the first slice that is too short. */
  method LoadParams(ps: seq<Parameter>, w: Weights) returns (ok: bool)
    requires Distinct(ps)
    modifies ps
    ensures (Snapshot(ps), ok) == SetParams(old(Snapshot(ps)), w.shapes, w.flat)
  {
    ghost var m := Snapshot(ps);
    ghost var done: Model := [];
    var offset, i := 0, 0;
    ok := true;
    LoadStart(m, w);
    while ok && i < |ps| && i < |w.shapes|
      invariant 0 <= i <= |ps| && i <= |w.shapes| && 0 <= offset <= |w.flat| && |done| == i
      invariant Assigned(ps, done, m)
      invariant SetParams(m, w.shapes, w.flat) ==
                if ok then Behind(done, Remaining(m, w, i, offset)) else (done + m[i..], false)
      decreases ok, |ps| - i
    {
      ok, offset, done := LoadOne(ps, w, i, offset, done, m);
      if ok {
        i := i + 1;
      }
    }
    if ok {
      LoadEnd(m, w, i, offset);
    }
    AssignedSnapshot(ps, done, m);
  }
}
