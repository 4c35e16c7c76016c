/** Syntax trees, their mutation candidates in pre-order, and the rewriting of one candidate. */
module MutationTrees {
  import opened Options

  datatype CmpOp = Eq | NotEq | Gt | GtE | Lt | LtE | In | NotIn | Is | IsNot
  datatype Connective = And | Or

  /** What matters of a node: its own operators.  A comparison's children are its left operand and the
      comparators, a call's its arguments, a generator's its element and its iterable.  A call through
      anything but a plain name, and every other construct, is an `Other`. */
  datatype Head =
    | Compare(ops: seq<CmpOp>)
    | BoolOp(op: Connective)
    | Call(id: string)
    | Not
    | Generator(target: string)
    | Other(kind: string)

  datatype Node = Node(head: Head, lineno: int, children: seq<Node>)

  /** The operator of a candidate, with the kind of node it stands in. */
  datatype Operator = InCompare(cmp: CmpOp) | InBoolOp(connective: Connective) | InCall(id: string)

  /** A candidate: the child indices leading to the node, the index among its operators, and the operator. */
  datatype Candidate = Candidate(path: seq<nat>, sub: nat, lineno: int, operator: Operator)

  // ----- the mutation tables

  function CompareMap(op: CmpOp): Option<CmpOp> {
    match op
    case Eq => Some(NotEq)
    case NotEq => Some(Eq)
    case Gt => Some(LtE)
    case GtE => Some(Lt)
    case Lt => Some(GtE)
    case LtE => Some(Gt)
    case In => Some(NotIn)
    case NotIn => Some(In)
    case Is => None
    case IsNot => None
  }

  predicate Mapped(o: Operator) {
    o.InCompare? ==> CompareMap(o.cmp).Some?
  }

  predicate IsQuantifier(id: string) {
    id == "all" || id == "any"
  }

  function FlipCmp(op: CmpOp): CmpOp {
    match CompareMap(op)
    case Some(o) => o
    case None => op
  }

  function FlipConnective(c: Connective): Connective {
    if c.And? then Or else And
  }

  function FlipName(id: string): string {
    if id == "all" then "any" else if id == "any" then "all" else id
  }

  /** The other operator of its pair; an operator in no table stays. */
  function Flip(o: Operator): (r: Operator)
    ensures Mapped(r) <==> Mapped(o)
  {
    match o
    case InCompare(c) => InCompare(FlipCmp(c))
    case InBoolOp(c) => InBoolOp(FlipConnective(c))
    case InCall(id) => InCall(FlipName(id))
  }

  // ----- candidates

  function Own(l: Head): seq<Operator> {
    match l
    case Compare(ops) => seq(|ops|, k requires 0 <= k < |ops| => InCompare(ops[k]))
    case BoolOp(op) => [InBoolOp(op)]
    case Call(id) => if IsQuantifier(id) then [InCall(id)] else []
    case _ => []
  }

  function Operators(n: Node): seq<Operator>
    decreases n, 1
  {
    Own(n.head) + AllOperators(n.children)
  }

  function AllOperators(cs: seq<Node>): seq<Operator>
    decreases cs, 0
  {
    if cs == [] then [] else Operators(cs[0]) + AllOperators(cs[1..])
  }

  function OwnCandidates(n: Node): (r: seq<Candidate>)
    ensures |r| == |Own(n.head)|
  {
    seq(|Own(n.head)|, k requires 0 <= k < |Own(n.head)| => Candidate([], k, n.lineno, Own(n.head)[k]))
  }

  function Below(k: nat, cs: seq<Candidate>): (r: seq<Candidate>)
    ensures |r| == |cs|
  {
    seq(|cs|, i requires 0 <= i < |cs| => Under(k, cs[i]))
  }

  /** A candidate of the k-th child, seen from its parent. */
  function Under(k: nat, c: Candidate): Candidate {
    c.(path := [k] + c.path)
  }

  /** All candidates of a tree: a node's own before those of its children, children in order. */
  function Candidates(n: Node): seq<Candidate>
    decreases n, 1
  {
    OwnCandidates(n) + ChildCandidates(n.children, 0)
  }

  function ChildCandidates(cs: seq<Node>, k: nat): seq<Candidate>
    decreases cs, 0
  {
    if cs == [] then [] else Below(k, Candidates(cs[0])) + ChildCandidates(cs[1..], k + 1)
  }

  lemma {:induction false} CandidateOperators(n: Node)
    ensures |Candidates(n)| == |Operators(n)|
    ensures forall i :: 0 <= i < |Candidates(n)| ==> Candidates(n)[i].operator == Operators(n)[i]
    decreases n, 1
  {
    ChildCandidateOperators(n.children, 0);
  }

  lemma {:induction false} ChildCandidateOperators(cs: seq<Node>, k: nat)
    ensures |ChildCandidates(cs, k)| == |AllOperators(cs)|
    ensures forall i :: 0 <= i < |ChildCandidates(cs, k)| ==> ChildCandidates(cs, k)[i].operator == AllOperators(cs)[i]
    decreases cs, 0
  {
    if cs != [] {
      CandidateOperators(cs[0]);
      ChildCandidateOperators(cs[1..], k + 1);
    }
  }

  // ----- rewriting one operator

  function FlipHead(l: Head, sub: nat): Head {
    match l
    case Compare(ops) => if sub < |ops| then Compare(ops[sub := FlipCmp(ops[sub])]) else l
    case BoolOp(op) => BoolOp(FlipConnective(op))
    case Call(id) => Call(FlipName(id))
    case _ => l
  }

  /** The tree with operator `sub` of the node at `path` replaced. */
  function Rewrite(n: Node, path: seq<nat>, sub: nat): Node
    decreases |path|, 0, 0
  {
    if path == [] then n.(head := FlipHead(n.head, sub))
    else n.(children := RewriteChild(n.children, path[0], path[1..], sub))
  }

  /** The nodes with the k-th one rewritten. */
  function RewriteChild(cs: seq<Node>, k: nat, path: seq<nat>, sub: nat): seq<Node>
    decreases |path|, 1, |cs|
  {
    if cs == [] then []
    else if k == 0 then [Rewrite(cs[0], path, sub)] + cs[1..]
    else [cs[0]] + RewriteChild(cs[1..], k - 1, path, sub)
  }

  /** The i-th mutant. */
  function Mutant(n: Node, i: nat): Node
    requires i < |Candidates(n)|
  {
    Rewrite(n, Candidates(n)[i].path, Candidates(n)[i].sub)
  }

  // ----- trees that differ in operators only

  predicate SameHead(a: Head, b: Head) {
    match (a, b)
    case (Compare(x), Compare(y)) => |x| == |y|
    case (BoolOp(_), BoolOp(_)) => true
    case (Call(x), Call(y)) => x == y || (IsQuantifier(x) && IsQuantifier(y))
    case _ => a == b
  }

  predicate SameShape(a: Node, b: Node)
    decreases a, 1
  {
    SameHead(a.head, b.head) && a.lineno == b.lineno && SameShapes(a.children, b.children)
  }

  predicate SameShapes(cs: seq<Node>, ds: seq<Node>)
    decreases cs, 0
  {
    |cs| == |ds| && (cs == [] || (SameShape(cs[0], ds[0]) && SameShapes(cs[1..], ds[1..])))
  }

  lemma {:induction false} SameShapeReflexive(n: Node)
    ensures SameShape(n, n)
    decreases n, 1
  {
    SameShapesReflexive(n.children);
  }

  lemma {:induction false} SameShapesReflexive(cs: seq<Node>)
    ensures SameShapes(cs, cs)
    decreases cs, 0
  {
    if cs != [] {
      SameShapeReflexive(cs[0]);
      SameShapesReflexive(cs[1..]);
    }
  }

  lemma {:induction false} SameShapeTransitive(a: Node, b: Node, c: Node)
    requires SameShape(a, b) && SameShape(b, c)
    ensures SameShape(a, c)
    decreases a, 1
  {
    SameShapesTransitive(a.children, b.children, c.children);
  }

  lemma {:induction false} SameShapesTransitive(cs: seq<Node>, ds: seq<Node>, es: seq<Node>)
    requires SameShapes(cs, ds) && SameShapes(ds, es)
    ensures SameShapes(cs, es)
    decreases cs, 0
  {
    if cs != [] {
      SameShapeTransitive(cs[0], ds[0], es[0]);
      SameShapesTransitive(cs[1..], ds[1..], es[1..]);
    }
  }

  /** Same place: same path, index and line. */
  predicate SamePlaces(a: seq<Candidate>, b: seq<Candidate>) {
    |a| == |b| && forall i :: 0 <= i < |a| ==> a[i].(operator := b[i].operator) == b[i]
  }

  lemma {:induction false} ShapePlaces(a: Node, b: Node)
    requires SameShape(a, b)
    ensures SamePlaces(Candidates(a), Candidates(b))
    decreases a, 1
  {
    assert |Own(a.head)| == |Own(b.head)|;
    ShapesPlaces(a.children, b.children, 0);
  }

  lemma {:induction false} ShapesPlaces(cs: seq<Node>, ds: seq<Node>, k: nat)
    requires SameShapes(cs, ds)
    ensures SamePlaces(ChildCandidates(cs, k), ChildCandidates(ds, k))
    decreases cs, 0
  {
    if cs != [] {
      ShapePlaces(cs[0], ds[0]);
      ShapesPlaces(cs[1..], ds[1..], k + 1);
    }
  }

  /** Shape and operators together are the whole tree. */
  lemma {:induction false} ShapeAndOperatorsDetermine(a: Node, b: Node)
    requires SameShape(a, b) && Operators(a) == Operators(b)
    ensures a == b
    decreases a, 1
  {
    var n := |Own(a.head)|;
    assert n == |Own(b.head)|;
    assert Operators(a)[..n] == Own(a.head) && Operators(b)[..n] == Own(b.head);
    assert Operators(a)[n..] == AllOperators(a.children) && Operators(b)[n..] == AllOperators(b.children);
    OwnDetermines(a.head, b.head);
    ShapesAndOperatorsDetermine(a.children, b.children);
  }

  lemma OwnDetermines(a: Head, b: Head)
    requires SameHead(a, b) && Own(a) == Own(b)
    ensures a == b
  {
    if a.Compare? {
      assert forall k :: 0 <= k < |a.ops| ==> Own(a)[k] == InCompare(a.ops[k]) && Own(b)[k] == InCompare(b.ops[k]);
    } else if a.Call? && IsQuantifier(a.id) {
      assert Own(a)[0] == InCall(a.id) && Own(b)[0] == InCall(b.id);
    }
  }

  lemma {:induction false} ShapesAndOperatorsDetermine(cs: seq<Node>, ds: seq<Node>)
    requires SameShapes(cs, ds) && AllOperators(cs) == AllOperators(ds)
    ensures cs == ds
    decreases cs, 0
  {
    if cs != [] {
      ShapePlaces(cs[0], ds[0]);
      CandidateOperators(cs[0]);
      CandidateOperators(ds[0]);
      var n := |Operators(cs[0])|;
      assert AllOperators(cs)[..n] == Operators(cs[0]) && AllOperators(ds)[..n] == Operators(ds[0]);
      assert AllOperators(cs)[n..] == AllOperators(cs[1..]) && AllOperators(ds)[n..] == AllOperators(ds[1..]);
      ShapeAndOperatorsDetermine(cs[0], ds[0]);
      ShapesAndOperatorsDetermine(cs[1..], ds[1..]);
    }
  }
}
