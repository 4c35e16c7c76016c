/** A mutant differs from the original in the operator of its candidate and nowhere else. */
module MutationSites {
  import opened MutationTrees

  /** The rewriting of operator `i`, in terms of operators and shape. */
  ghost predicate FlipsAt(before: Node, after: Node, i: nat) {
    && SameShape(before, after)
    && i < |Operators(before)|
    && Operators(after) == Operators(before)[i := Flip(Operators(before)[i])]
  }

  lemma OwnFlip(l: Head, sub: nat)
    requires sub < |Own(l)|
    ensures Own(FlipHead(l, sub)) == Own(l)[sub := Flip(Own(l)[sub])] && SameHead(l, FlipHead(l, sub))
  {
  }

  lemma UpdateRight<T>(a: seq<T>, b: seq<T>, j: nat, x: T)
    requires j < |b|
    ensures a + b[j := x] == (a + b)[|a| + j := x] && (a + b)[|a| + j] == b[j]
  {
  }

  lemma UpdateLeft<T>(a: seq<T>, b: seq<T>, j: nat, x: T)
    requires j < |a|
    ensures a[j := x] + b == (a + b)[j := x] && (a + b)[j] == a[j]
  {
  }

  /** The same for the operators of a list of nodes. */
  ghost predicate ListFlipsAt(before: seq<Node>, after: seq<Node>, j: nat) {
    && SameShapes(before, after)
    && j < |AllOperators(before)|
    && AllOperators(after) == AllOperators(before)[j := Flip(AllOperators(before)[j])]
  }

  lemma HeadFlips(n: Node, x: Node, rest: seq<Node>, j: nat)
    requires FlipsAt(n, x, j)
    ensures ListFlipsAt([n] + rest, [x] + rest, j)
  {
    SameShapesReflexive(rest);
    ConsOperators(n, rest);
    ConsOperators(x, rest);
    UpdateLeft(Operators(n), AllOperators(rest), j, Flip(Operators(n)[j]));
  }

  lemma TailFlips(n: Node, rest: seq<Node>, after: seq<Node>, j: nat)
    requires ListFlipsAt(rest, after, j)
    ensures ListFlipsAt([n] + rest, [n] + after, |Operators(n)| + j)
  {
    SameShapeReflexive(n);
    ConsOperators(n, rest);
    ConsOperators(n, after);
    UpdateRight(Operators(n), AllOperators(rest), j, Flip(AllOperators(rest)[j]));
  }

  lemma ConsOperators(n: Node, rest: seq<Node>)
    ensures AllOperators([n] + rest) == Operators(n) + AllOperators(rest)
    ensures ([n] + rest)[0] == n && ([n] + rest)[1..] == rest
  {
    assert ([n] + rest)[1..] == rest;
  }

  /** What `ChildMutantFlips` says of the candidate `c`. */
  ghost predicate FlippedThrough(cs: seq<Node>, base: nat, j: nat, c: Candidate) {
    && c.path != [] && c.path[0] >= base
    && ListFlipsAt(cs, RewriteChild(cs, c.path[0] - base, c.path[1..], c.sub), j)
  }

  lemma FlippedHere(cs: seq<Node>, n: Node, base: nat, j: nat, c: Candidate)
    requires cs != [] && n == cs[0] && j < |Candidates(n)| && FlipsAt(n, Mutant(n, j), j)
    requires c == Under(base, Candidates(n)[j])
    ensures FlippedThrough(cs, base, j, c)
  {
    var rest, d := cs[1..], Candidates(n)[j];
    assert cs == [n] + rest && c.path[1..] == d.path;
    HeadFlips(n, Rewrite(n, d.path, d.sub), rest, j);
    ConsOperators(n, rest);
  }

  lemma FlippedLater(cs: seq<Node>, rest: seq<Node>, base: nat, j: nat, k: nat, c: Candidate)
    requires cs != [] && rest == cs[1..] && j == |Operators(cs[0])| + k && FlippedThrough(rest, base + 1, k, c)
    ensures FlippedThrough(cs, base, j, c)
  {
    assert cs == [cs[0]] + rest;
    TailFlips(cs[0], rest, RewriteChild(rest, c.path[0] - (base + 1), c.path[1..], c.sub), k);
    ConsOperators(cs[0], rest);
  }

  /** The j-th candidate of a list of nodes belongs to the first of them, or to the others. */
  lemma SplitCandidates(cs: seq<Node>, base: nat, j: nat) returns (n: Node, rest: seq<Node>, k: int)
    requires j < |ChildCandidates(cs, base)|
    ensures cs != [] && n == cs[0] && rest == cs[1..] && k == j - |Operators(n)| && |Candidates(n)| == |Operators(n)|
    ensures k < 0 ==> ChildCandidates(cs, base)[j] == Under(base, Candidates(n)[j])
    ensures k >= 0 ==> k < |ChildCandidates(rest, base + 1)| &&
                       ChildCandidates(cs, base)[j] == ChildCandidates(rest, base + 1)[k]
  {
    n, rest, k := cs[0], cs[1..], j - |Operators(cs[0])|;
    CandidateOperators(n);
  }

  /** Rewriting a list of nodes at the place of its j-th candidate. */
  lemma {:induction false} ChildMutantFlips(cs: seq<Node>, base: nat, j: nat, c: Candidate)
    requires j < |ChildCandidates(cs, base)| && c == ChildCandidates(cs, base)[j]
    ensures FlippedThrough(cs, base, j, c)
    decreases cs, 0
  {
    var n, rest, k := SplitCandidates(cs, base, j);
    if k < 0 {
      MutantFlips(n, j);
      FlippedHere(cs, n, base, j, c);
    } else {
      ChildMutantFlips(rest, base + 1, k, c);
      FlippedLater(cs, rest, base, j, k, c);
    }
  }

  lemma {:induction false} MutantFlips(n: Node, i: nat)
    requires i < |Candidates(n)|
    ensures FlipsAt(n, Mutant(n, i), i)
    decreases n, 1
  {
    var j := i - |Own(n.head)|;
    if j < 0 {
      OwnMutantFlips(n, i);
    } else {
      var c := ChildCandidates(n.children, 0)[j];
      ChildMutantFlips(n.children, 0, j, c);
      ChildMutantOf(n, i, j, c);
    }
  }

  lemma ChildMutantOf(n: Node, i: nat, j: nat, c: Candidate)
    requires i < |Candidates(n)| && i == |Own(n.head)| + j && c == ChildCandidates(n.children, 0)[j]
    requires FlippedThrough(n.children, 0, j, c)
    ensures FlipsAt(n, Mutant(n, i), i)
  {
    assert Candidates(n)[i] == c;
    ChildrenFlip(n, RewriteChild(n.children, c.path[0], c.path[1..], c.sub), j);
    RewriteBelow(n, c.path, c.sub);
  }

  lemma RewriteBelow(n: Node, path: seq<nat>, sub: nat)
    requires path != []
    ensures Rewrite(n, path, sub) == n.(children := RewriteChild(n.children, path[0], path[1..], sub))
  {
  }

  lemma OwnMutantFlips(n: Node, i: nat)
    requires i < |Own(n.head)|
    ensures FlipsAt(n, Mutant(n, i), i)
  {
    var own := Own(n.head);
    assert Candidates(n)[i] == OwnCandidates(n)[i];
    OwnFlip(n.head, i);
    SameShapesReflexive(n.children);
    UpdateLeft(own, AllOperators(n.children), i, Flip(own[i]));
  }

  lemma ChildrenFlip(n: Node, ds: seq<Node>, j: nat)
    requires ListFlipsAt(n.children, ds, j)
    ensures FlipsAt(n, n.(children := ds), |Own(n.head)| + j)
  {
    SameHeadReflexive(n.head);
    UpdateRight(Own(n.head), AllOperators(n.children), j, Flip(AllOperators(n.children)[j]));
  }

  lemma SameHeadReflexive(h: Head)
    ensures SameHead(h, h)
  {
  }

  lemma FlipTwice(o: Operator)
    ensures Flip(Flip(o)) == o
    ensures Mapped(o) ==> Flip(o) != o || (o.InCall? && !IsQuantifier(o.id))
  {
  }

  lemma {:induction false} CandidateNames(n: Node, i: nat)
    requires i < |Operators(n)|
    ensures Operators(n)[i].InCall? ==> IsQuantifier(Operators(n)[i].id)
    decreases n, 1
  {
    if i >= |Own(n.head)| {
      ChildCandidateNames(n.children, i - |Own(n.head)|);
    }
  }

  lemma {:induction false} ChildCandidateNames(cs: seq<Node>, i: nat)
    requires i < |AllOperators(cs)|
    ensures AllOperators(cs)[i].InCall? ==> IsQuantifier(AllOperators(cs)[i].id)
    decreases cs, 0
  {
    if i < |Operators(cs[0])| {
      CandidateNames(cs[0], i);
    } else {
      ChildCandidateNames(cs[1..], i - |Operators(cs[0])|);
    }
  }

  /** The i-th mutant has the same candidates at the same places, all but the i-th with the same operator,
      the i-th with the other operator of its pair; mutating it again at i restores the original; and it
      is a different tree exactly when the operator is in the tables. */
  lemma SingleSite(n: Node, i: nat)
    requires i < |Candidates(n)|
    ensures var m := Mutant(n, i);
            && |Candidates(m)| == |Candidates(n)|
            && Candidates(m) == Candidates(n)[i := Candidates(n)[i].(operator := Flip(Candidates(n)[i].operator))]
            && Mutant(m, i) == n
            && (m != n <==> Mapped(Candidates(n)[i].operator))
  {
    var m := Mutant(n, i);
    MutantFlips(n, i);
    ShapePlaces(n, m);
    CandidateOperators(n);
    CandidateOperators(m);
    MutantFlips(m, i);
    var o := Operators(n)[i];
    FlipTwice(o);
    CandidateNames(n, i);
    var again := Mutant(m, i);
    SameShapeTransitive(n, m, again);
    assert Operators(again) == Operators(n);
    ShapeAndOperatorsDetermine(n, again);
    if !Mapped(o) {
      assert Operators(m) == Operators(n);
      ShapeAndOperatorsDetermine(n, m);
    } else {
      assert Operators(m)[i] != Operators(n)[i];
    }
  }

  // ----- mutating everywhere

  function FlipAllOf(l: Head): Head {
    match l
    case Compare(ops) => Compare(seq(|ops|, k requires 0 <= k < |ops| => FlipCmp(ops[k])))
    case BoolOp(op) => BoolOp(FlipConnective(op))
    case Call(id) => Call(FlipName(id))
    case _ => l
  }

  function FlipEverywhere(n: Node): Node
    decreases n, 1
  {
    Node(FlipAllOf(n.head), n.lineno, FlipChildren(n.children))
  }

  function FlipChildren(cs: seq<Node>): (ds: seq<Node>)
    ensures |ds| == |cs|
    decreases cs, 0
  {
    if cs == [] then [] else [FlipEverywhere(cs[0])] + FlipChildren(cs[1..])
  }

  lemma {:induction false} FlipEverywhereFlips(n: Node)
    ensures SameShape(n, FlipEverywhere(n)) && |Operators(FlipEverywhere(n))| == |Operators(n)|
    ensures forall i :: 0 <= i < |Operators(n)| ==> Operators(FlipEverywhere(n))[i] == Flip(Operators(n)[i])
    decreases n, 1
  {
    FlipChildrenFlips(n.children);
    OwnFlipAll(n.head);
  }

  lemma OwnFlipAll(l: Head)
    ensures SameHead(l, FlipAllOf(l)) && |Own(FlipAllOf(l))| == |Own(l)|
    ensures forall i :: 0 <= i < |Own(l)| ==> Own(FlipAllOf(l))[i] == Flip(Own(l)[i])
  {
  }

  lemma {:induction false} FlipChildrenFlips(cs: seq<Node>)
    ensures SameShapes(cs, FlipChildren(cs)) && |AllOperators(FlipChildren(cs))| == |AllOperators(cs)|
    ensures forall i :: 0 <= i < |AllOperators(cs)| ==> AllOperators(FlipChildren(cs))[i] == Flip(AllOperators(cs)[i])
    decreases cs, 0
  {
    if cs != [] {
      FlipEverywhereFlips(cs[0]);
      FlipChildrenFlips(cs[1..]);
      assert FlipChildren(cs)[1..] == FlipChildren(cs[1..]);
    }
  }

  /** One mutation after the other, at the given candidate indices. */
  function MutateAt(n: Node, order: seq<nat>): Node {
    if order == [] then n
    else
      var m := MutateAt(n, order[..|order| - 1]);
      var i := order[|order| - 1];
      if i < |Candidates(m)| then Mutant(m, i) else m
  }

  ghost predicate NoRepeats(order: seq<nat>) {
    forall i, j :: 0 <= i < j < |order| ==> order[i] != order[j]
  }

  function FlipIf(o: Operator, b: bool): Operator {
    if b then Flip(o) else o
  }

  lemma {:induction false} MutateAtFlips(n: Node, order: seq<nat>)
    requires NoRepeats(order) && forall k :: 0 <= k < |order| ==> order[k] < |Candidates(n)|
    ensures SameShape(n, MutateAt(n, order)) && |Operators(MutateAt(n, order))| == |Operators(n)|
    ensures forall i :: 0 <= i < |Operators(n)| ==>
              Operators(MutateAt(n, order))[i] == FlipIf(Operators(n)[i], i in order)
    decreases |order|
  {
    if order == [] {
      SameShapeReflexive(n);
    } else {
      var front, last := order[..|order| - 1], order[|order| - 1];
      MutateAtFlips(n, front);
      var m := MutateAt(n, front);
      ShapePlaces(n, m);
      MutantFlips(m, last);
      var t := Mutant(m, last);
      assert t == MutateAt(n, order);
      SameShapeTransitive(n, m, t);
      forall i | 0 <= i < |Operators(n)| ensures Operators(t)[i] == FlipIf(Operators(n)[i], i in order) {
        InFront(order, i);
      }
    }
  }

  lemma InFront(order: seq<nat>, i: nat)
    requires order != [] && NoRepeats(order)
    ensures var front, last := order[..|order| - 1], order[|order| - 1];
            (i in order <==> i in front || i == last) && last !in front
  {
    assert order == order[..|order| - 1] + [order[|order| - 1]];
  }

  /** Mutating once at every candidate gives the same tree in whatever order. */
  lemma AnyOrder(n: Node, order: seq<nat>)
    requires NoRepeats(order) && forall i: nat :: i in order <==> i < |Candidates(n)|
    ensures MutateAt(n, order) == FlipEverywhere(n)
  {
    forall k | 0 <= k < |order| ensures order[k] < |Candidates(n)| {
      assert order[k] in order;
    }
    var m, f := MutateAt(n, order), FlipEverywhere(n);
    MutateAtFlips(n, order);
    FlipEverywhereFlips(n);
    CandidateOperators(n);
    assert Operators(m) == Operators(f);
    SameShapeSymmetric(n, m);
    SameShapeTransitive(m, n, f);
    ShapeAndOperatorsDetermine(m, f);
  }

  lemma {:induction false} SameShapeSymmetric(a: Node, b: Node)
    requires SameShape(a, b)
    ensures SameShape(b, a)
    decreases a, 1
  {
    SameShapesSymmetric(a.children, b.children);
  }

  lemma {:induction false} SameShapesSymmetric(cs: seq<Node>, ds: seq<Node>)
    requires SameShapes(cs, ds)
    ensures SameShapes(ds, cs)
    decreases cs, 0
  {
    if cs != [] {
      SameShapeSymmetric(cs[0], ds[0]);
      SameShapesSymmetric(cs[1..], ds[1..]);
    }
  }
}
