/** The mutation tables are De Morgan duals: mutating everywhere negates a condition. */
module MutationSemantics {
  import opened Options
  import opened MutationTrees
  import opened MutationSites

  /** How the parts without operators behave: arbitrary functions, each allowed to raise (None).  `order` is
      the sign of a total order on the values it compares, so `a > b` is `!(a <= b)` whenever neither raises. */
  datatype Semantics<!V> = Semantics(
    term: (Node, map<string, V>) -> Option<V>,
    order: (V, V) -> Option<int>,
    same: (V, V) -> Option<bool>,
    member: (V, V) -> Option<bool>,
    items: V -> Option<seq<V>>)

  function Map(o: Option<int>, p: int -> bool): Option<bool> {
    match o
    case Some(s) => Some(p(s))
    case None => None
  }

  function Negate(o: Option<bool>): Option<bool> {
    match o
    case Some(b) => Some(!b)
    case None => None
  }

  /** One comparison.  Object identity is not modelled, and not mutated either: it reads as raising. */
  function Link<V>(sem: Semantics<V>, op: CmpOp, a: V, b: V): Option<bool> {
    match op
    case Eq => sem.same(a, b)
    case NotEq => Negate(sem.same(a, b))
    case Gt => Map(sem.order(a, b), s => s > 0)
    case GtE => Map(sem.order(a, b), s => s >= 0)
    case Lt => Map(sem.order(a, b), s => s < 0)
    case LtE => Map(sem.order(a, b), s => s <= 0)
    case In => sem.member(a, b)
    case NotIn => Negate(sem.member(a, b))
    case _ => None
  }

  /** The truth of a condition, evaluated left to right with short circuits; None when evaluation raises. */
  function Eval<V>(sem: Semantics<V>, n: Node, env: map<string, V>): Option<bool>
    decreases n, 1, 0
  {
    match n.head
    case Compare(ops) =>
      if |n.children| != |ops| + 1 then None
      else (match sem.term(n.children[0], env)
            case Some(v) => Chain(sem, v, ops, n.children[1..], env)
            case None => None)
    case BoolOp(op) => EvalAll(sem, op, n.children, env)
    case Not => if |n.children| == 1 then Negate(Eval(sem, n.children[0], env)) else None
    case Call(id) =>
      if IsQuantifier(id) && |n.children| == 1 && n.children[0].head.Generator? && |n.children[0].children| == 2 then
        var g := n.children[0];
        match sem.term(g.children[1], env)
        case Some(v) =>
          (match sem.items(v)
           case Some(vs) => EvalItems(sem, Connective(id), g.children[0], g.head.target, vs, env)
           case None => None)
        case None => None
      else None
    case _ => None
  }

  /** `all` goes on while its elements hold, like `and`; `any` goes on while they fail, like `or`. */
  function Connective(id: string): Connective {
    if id == "all" then And else Or
  }

  /** `a op0 b op1 c` stands for `a op0 b and b op1 c`, each operand evaluated when reached. */
  function Chain<V>(sem: Semantics<V>, left: V, ops: seq<CmpOp>, rest: seq<Node>, env: map<string, V>): Option<bool>
    requires |ops| == |rest|
    decreases |ops|
  {
    if ops == [] then Some(true)
    else
      match sem.term(rest[0], env)
      case None => None
      case Some(v) =>
        match Link(sem, ops[0], left, v)
        case None => None
        case Some(b) => if b then Chain(sem, v, ops[1..], rest[1..], env) else Some(false)
  }

  function EvalAll<V>(sem: Semantics<V>, op: Connective, cs: seq<Node>, env: map<string, V>): Option<bool>
    decreases cs, 0, 0
  {
    if cs == [] then Some(op.And?)
    else
      match Eval(sem, cs[0], env)
      case None => None
      case Some(b) => if b == op.And? then EvalAll(sem, op, cs[1..], env) else Some(b)
  }

  function EvalItems<V>(sem: Semantics<V>, op: Connective, elt: Node, target: string, vs: seq<V>,
                        env: map<string, V>): Option<bool>
    decreases elt, 2, |vs|
  {
    if vs == [] then Some(op.And?)
    else
      match Eval(sem, elt, env[target := vs[0]])
      case None => None
      case Some(b) => if b == op.And? then EvalItems(sem, op, elt, target, vs[1..], env) else Some(b)
  }

  // ----- the conditions the theorem is about

  predicate IsTerm(n: Node) {
    Operators(n) == []
  }

  /** Trees of and, or, not, all and any over comparisons with one mapped operator. */
  predicate Condition(n: Node)
    decreases n, 1
  {
    match n.head
    case Compare(ops) =>
      |ops| == 1 && CompareMap(ops[0]).Some? && |n.children| == 2 && IsTerm(n.children[0]) && IsTerm(n.children[1])
    case BoolOp(_) => Conditions(n.children)
    case Not => |n.children| == 1 && Condition(n.children[0])
    case Call(id) =>
      && IsQuantifier(id) && |n.children| == 1 && n.children[0].head.Generator? && |n.children[0].children| == 2
      && Condition(n.children[0].children[0]) && IsTerm(n.children[0].children[1])
    case _ => false
  }

  predicate Conditions(cs: seq<Node>)
    decreases cs, 0
  {
    cs == [] || (Condition(cs[0]) && Conditions(cs[1..]))
  }

  lemma TermUnchanged(n: Node)
    requires IsTerm(n)
    ensures FlipEverywhere(n) == n
  {
    FlipEverywhereFlips(n);
    ShapeAndOperatorsDetermine(n, FlipEverywhere(n));
  }

  lemma {:induction false} FlipChildrenAt(cs: seq<Node>, k: nat)
    requires k < |cs|
    ensures FlipChildren(cs)[k] == FlipEverywhere(cs[k])
  {
    if k > 0 {
      FlipChildrenAt(cs[1..], k - 1);
    }
  }

  lemma LinkNegated<V>(sem: Semantics<V>, op: CmpOp, a: V, b: V)
    requires CompareMap(op).Some?
    ensures Link(sem, FlipCmp(op), a, b) == Negate(Link(sem, op, a, b))
  {
  }

  lemma CompareNegated<V>(sem: Semantics<V>, n: Node, env: map<string, V>)
    requires n.head.Compare? && Condition(n)
    ensures Eval(sem, FlipEverywhere(n), env) == Negate(Eval(sem, n, env))
  {
    var f := FlipEverywhere(n);
    FlipChildrenAt(n.children, 0);
    FlipChildrenAt(n.children, 1);
    TermUnchanged(n.children[0]);
    TermUnchanged(n.children[1]);
    assert f.children == n.children;
    var op := n.head.ops[0];
    assert n.head.ops == [op] && f.head == Compare([FlipCmp(op)]) && n.children[1..][0] == n.children[1];
    var a := sem.term(n.children[0], env);
    if a.Some? {
      ChainOfOne(sem, a.value, op, n.children[1..], env);
      ChainOfOne(sem, a.value, FlipCmp(op), n.children[1..], env);
      var b := sem.term(n.children[1], env);
      if b.Some? {
        LinkNegated(sem, op, a.value, b.value);
      }
    }
  }

  lemma ChainOfOne<V>(sem: Semantics<V>, left: V, op: CmpOp, rest: seq<Node>, env: map<string, V>)
    requires |rest| == 1
    ensures Chain(sem, left, [op], rest, env) ==
            match sem.term(rest[0], env)
            case None => None
            case Some(v) => Link(sem, op, left, v)
  {
  }

  lemma {:induction false} NegatedEverywhere<V>(sem: Semantics<V>, n: Node, env: map<string, V>)
    requires Condition(n)
    ensures Eval(sem, FlipEverywhere(n), env) == Negate(Eval(sem, n, env))
    decreases n, 1, 0
  {
    match n.head
    case Compare(_) => CompareNegated(sem, n, env);
    case BoolOp(op) => AllNegated(sem, op, n.children, env);
    case Not =>
      FlipChildrenAt(n.children, 0);
      NegatedEverywhere(sem, n.children[0], env);
    case Call(id) =>
      var g := n.children[0];
      FlipChildrenAt(n.children, 0);
      FlipChildrenAt(g.children, 0);
      FlipChildrenAt(g.children, 1);
      TermUnchanged(g.children[1]);
      var v := sem.term(g.children[1], env);
      if v.Some? && sem.items(v.value).Some? {
        ItemsNegated(sem, Connective(id), g.children[0], g.head.target, sem.items(v.value).value, env);
      }
    case _ =>
  }

  lemma {:induction false} AllNegated<V>(sem: Semantics<V>, op: Connective, cs: seq<Node>, env: map<string, V>)
    requires Conditions(cs)
    ensures EvalAll(sem, FlipConnective(op), FlipChildren(cs), env) == Negate(EvalAll(sem, op, cs, env))
    decreases cs, 0, 0
  {
    if cs != [] {
      NegatedEverywhere(sem, cs[0], env);
      AllNegated(sem, op, cs[1..], env);
      assert FlipChildren(cs)[1..] == FlipChildren(cs[1..]);
    }
  }

  lemma {:induction false} ItemsNegated<V>(sem: Semantics<V>, op: Connective, elt: Node, target: string, vs: seq<V>,
                                           env: map<string, V>)
    requires Condition(elt)
    ensures EvalItems(sem, FlipConnective(op), FlipEverywhere(elt), target, vs, env) ==
            Negate(EvalItems(sem, op, elt, target, vs, env))
    decreases elt, 2, |vs|
  {
    if vs != [] {
      NegatedEverywhere(sem, elt, env[target := vs[0]]);
      ItemsNegated(sem, op, elt, target, vs[1..], env);
    }
  }

  /** Mutating a condition once at each candidate, in any order, negates it in every environment
      and for every meaning of its terms; it raises exactly where the original raises. */
  lemma MutatingEverywhereNegates<V>(sem: Semantics<V>, n: Node, order: seq<nat>, env: map<string, V>)
    requires Condition(n) && NoRepeats(order) && forall i: nat :: i in order <==> i < |Candidates(n)|
    ensures Eval(sem, MutateAt(n, order), env) == Negate(Eval(sem, n, env))
  {
    AnyOrder(n, order);
    NegatedEverywhere(sem, n, env);
  }

  // ----- comparisons with several links

  /** Link k of a comparison; None when one of its operands raises, or comparing them does. */
  function LinkAt<V>(sem: Semantics<V>, ops: seq<CmpOp>, cs: seq<Node>, env: map<string, V>, k: nat): Option<bool>
    requires |cs| == |ops| + 1 && k < |ops|
  {
    match (sem.term(cs[k], env), sem.term(cs[k + 1], env))
    case (Some(a), Some(b)) => Link(sem, ops[k], a, b)
    case _ => None
  }

  predicate LinksAre<V>(sem: Semantics<V>, ops: seq<CmpOp>, cs: seq<Node>, env: map<string, V>, want: bool)
    requires |cs| == |ops| + 1
  {
    forall k: nat :: k < |ops| ==> LinkAt(sem, ops, cs, env, k) == Some(want)
  }

  /** The first link decides unless it holds. */
  lemma ChainHead<V>(sem: Semantics<V>, ops: seq<CmpOp>, cs: seq<Node>, env: map<string, V>)
    requires |cs| == |ops| + 1 > 1 && sem.term(cs[0], env).Some?
    ensures var chain := Chain(sem, sem.term(cs[0], env).value, ops, cs[1..], env);
            match LinkAt(sem, ops, cs, env, 0)
            case None => chain == None
            case Some(false) => chain == Some(false)
            case Some(true) => sem.term(cs[1], env).Some? &&
                               chain == Chain(sem, sem.term(cs[1], env).value, ops[1..], cs[1..][1..], env)
  {
    assert cs[1..][0] == cs[1];
  }

  lemma LinkAtTail<V>(sem: Semantics<V>, ops: seq<CmpOp>, cs: seq<Node>, env: map<string, V>, k: nat)
    requires |cs| == |ops| + 1 && 0 < k < |ops|
    ensures LinkAt(sem, ops[1..], cs[1..], env, k - 1) == LinkAt(sem, ops, cs, env, k)
  {
  }

  lemma LinksCons<V>(sem: Semantics<V>, ops: seq<CmpOp>, cs: seq<Node>, env: map<string, V>, want: bool)
    requires |cs| == |ops| + 1 > 1
    ensures LinksAre(sem, ops, cs, env, want) <==>
            LinkAt(sem, ops, cs, env, 0) == Some(want) && LinksAre(sem, ops[1..], cs[1..], env, want)
  {
    forall k: nat | 0 < k < |ops| ensures LinkAt(sem, ops[1..], cs[1..], env, k - 1) == LinkAt(sem, ops, cs, env, k) {
      LinkAtTail(sem, ops, cs, env, k);
    }
    forall k: nat | k < |ops[1..]| ensures LinkAt(sem, ops[1..], cs[1..], env, k) == LinkAt(sem, ops, cs, env, k + 1) {
      LinkAtTail(sem, ops, cs, env, k + 1);
    }
  }

  /** A chain is true exactly when every link is: short circuits hide links from the other answers only. */
  lemma {:induction false} ChainTrueExactly<V>(sem: Semantics<V>, ops: seq<CmpOp>, cs: seq<Node>, env: map<string, V>)
    requires |cs| == |ops| + 1 && sem.term(cs[0], env).Some?
    ensures Chain(sem, sem.term(cs[0], env).value, ops, cs[1..], env) == Some(true) <==>
            LinksAre(sem, ops, cs, env, true)
    decreases |ops|
  {
    if ops != [] {
      ChainHead(sem, ops, cs, env);
      LinksCons(sem, ops, cs, env, true);
      if LinkAt(sem, ops, cs, env, 0) == Some(true) {
        ChainTrueExactly(sem, ops[1..], cs[1..], env);
      }
    }
  }

  function FlipOps(ops: seq<CmpOp>): (r: seq<CmpOp>)
    ensures |r| == |ops|
  {
    seq(|ops|, k requires 0 <= k < |ops| => FlipCmp(ops[k]))
  }

  ghost predicate AllMapped(ops: seq<CmpOp>) {
    forall k :: 0 <= k < |ops| ==> CompareMap(ops[k]).Some?
  }

  lemma LinksFlipped<V>(sem: Semantics<V>, ops: seq<CmpOp>, cs: seq<Node>, env: map<string, V>)
    requires |cs| == |ops| + 1 && AllMapped(ops)
    ensures forall k: nat :: k < |ops| ==>
              LinkAt(sem, FlipOps(ops), cs, env, k) == Negate(LinkAt(sem, ops, cs, env, k))
    ensures LinksAre(sem, FlipOps(ops), cs, env, true) <==> LinksAre(sem, ops, cs, env, false)
  {
    forall k: nat | k < |ops|
      ensures LinkAt(sem, FlipOps(ops), cs, env, k) == Negate(LinkAt(sem, ops, cs, env, k))
    {
      var a, b := sem.term(cs[k], env), sem.term(cs[k + 1], env);
      if a.Some? && b.Some? {
        LinkNegated(sem, ops[k], a.value, b.value);
      }
    }
    forall k: nat | k < |ops|
      ensures LinkAt(sem, FlipOps(ops), cs, env, k) == Some(true) <==> LinkAt(sem, ops, cs, env, k) == Some(false)
    {
    }
  }

  /** A comparison of terms that do not hold operators of their own. */
  ghost predicate Comparison(n: Node) {
    && n.head.Compare? && |n.children| == |n.head.ops| + 1 > 1
    && forall k :: 0 <= k < |n.children| ==> IsTerm(n.children[k])
  }

  lemma ComparisonFlipped(n: Node)
    requires Comparison(n)
    ensures FlipEverywhere(n) == n.(head := Compare(FlipOps(n.head.ops)))
  {
    var f := FlipEverywhere(n);
    forall k | 0 <= k < |n.children| ensures f.children[k] == n.children[k] {
      FlipChildrenAt(n.children, k);
      TermUnchanged(n.children[k]);
    }
    assert f.children == n.children;
  }

  /** Mutating every operator of a comparison negates it exactly when its links agree, all holding or all
      failing, or its first link raises.  Later links may raise, be skipped or disagree in any other way;
      with one operator one of the three always applies. */
  lemma ComparisonNegatedExactly<V>(sem: Semantics<V>, n: Node, env: map<string, V>)
    requires Comparison(n) && AllMapped(n.head.ops)
    ensures Eval(sem, FlipEverywhere(n), env) == Negate(Eval(sem, n, env)) <==>
            || LinksAre(sem, n.head.ops, n.children, env, true)
            || LinksAre(sem, n.head.ops, n.children, env, false)
            || LinkAt(sem, n.head.ops, n.children, env, 0).None?
  {
    var ops, cs := n.head.ops, n.children;
    ComparisonFlipped(n);
    LinksFlipped(sem, ops, cs, env);
    if sem.term(cs[0], env).Some? {
      ChainHead(sem, ops, cs, env);
      ChainHead(sem, FlipOps(ops), cs, env);
      ChainTrueExactly(sem, ops, cs, env);
      ChainTrueExactly(sem, FlipOps(ops), cs, env);
    }
  }

  // ----- two comparisons that are not negated

  /** Variables over integers; those not `comparable` raise when ordered. */
  function Integers(comparable: int -> bool): Semantics<int> {
    Semantics(
      (n: Node, env: map<string, int>) => if n.head.Other? && n.head.kind in env then Some(env[n.head.kind]) else None,
      (a: int, b: int) => if comparable(a) && comparable(b) then Some(a - b) else None,
      (a: int, b: int) => Some(a == b),
      (a: int, b: int) => None,
      (a: int) => None)
  }

  function Variable(name: string): Node {
    Node(Other(name), 1, [])
  }

  /** `a < b < c` */
  function Between(): Node {
    Node(Compare([Lt, Lt]), 1, [Variable("a"), Variable("b"), Variable("c")])
  }

  lemma BetweenFlipped()
    ensures Comparison(Between()) && AllMapped(Between().head.ops)
    ensures FlipEverywhere(Between()) == Between().(head := Compare([GtE, GtE]))
  {
    assert forall k :: 0 <= k < 3 ==> Operators(Between().children[k]) == [];
    ComparisonFlipped(Between());
    assert FlipOps([Lt, Lt]) == [GtE, GtE];
  }

  /** Two links, the second of which is the last. */
  lemma TwoLinks<V>(sem: Semantics<V>, ops: seq<CmpOp>, cs: seq<Node>, env: map<string, V>)
    requires |ops| == 2 && |cs| == 3 && sem.term(cs[0], env).Some? && LinkAt(sem, ops, cs, env, 0) == Some(true)
    ensures Chain(sem, sem.term(cs[0], env).value, ops, cs[1..], env) == LinkAt(sem, ops, cs, env, 1)
  {
    ChainHead(sem, ops, cs, env);
    ChainHead(sem, ops[1..], cs[1..], env);
    LinkAtTail(sem, ops, cs, env, 1);
    assert ops[1..][1..] == [];
  }

  /** `1 < 3 < 2` is false, and so is `1 >= 3 >= 2`: the links disagree. */
  lemma LongChainNotNegated()
    ensures var (sem, env) := (Integers(x => true), map["a" := 1, "b" := 3, "c" := 2]);
            Eval(sem, Between(), env) == Eval(sem, FlipEverywhere(Between()), env) == Some(false)
  {
    var sem, env, cs := Integers(x => true), map["a" := 1, "b" := 3, "c" := 2], Between().children;
    BetweenFlipped();
    TwoLinks(sem, [Lt, Lt], cs, env);
    ChainHead(sem, [GtE, GtE], cs, env);
  }

  /** `1 < 0 < 7` with a 7 that cannot be ordered is false, but `1 >= 0 >= 7` raises: no link holds, and the
      short circuit is gone. */
  lemma RaisingChainNotNegated()
    ensures var (sem, env) := (Integers(x => x < 7), map["a" := 1, "b" := 0, "c" := 7]);
            Eval(sem, Between(), env) == Some(false) && Eval(sem, FlipEverywhere(Between()), env) == None
  {
    var sem, env, cs := Integers(x => x < 7), map["a" := 1, "b" := 0, "c" := 7], Between().children;
    BetweenFlipped();
    ChainHead(sem, [Lt, Lt], cs, env);
    TwoLinks(sem, [GtE, GtE], cs, env);
  }
}
