/** Where the candidates of a tree stand: one at every operator, in pre-order. */
module MutationPlaces {
  import opened MutationTrees
  import opened Options

  /** The node a path of child indices leads to. */
  function NodeAt(n: Node, path: seq<nat>): Option<Node>
    decreases |path|
  {
    if path == [] then Some(n)
    else if path[0] < |n.children| then NodeAt(n.children[path[0]], path[1..])
    else None
  }

  /** The candidate names an operator of the node at its path, and the line of that node. */
  ghost predicate Stands(n: Node, c: Candidate) {
    match NodeAt(n, c.path)
    case None => false
    case Some(x) => c.lineno == x.lineno && c.sub < |Own(x.head)| && c.operator == Own(x.head)[c.sub]
  }

  /** The same for a list of nodes, counted from `base`. */
  ghost predicate StandsAmong(cs: seq<Node>, base: nat, c: Candidate) {
    && c.path != [] && base <= c.path[0] < base + |cs|
    && Stands(cs[c.path[0] - base], c.(path := c.path[1..]))
  }

  /** A candidate of a list of nodes is that of the first, seen from their parent, or one of the others. */
  lemma ChildCandidateOf(cs: seq<Node>, base: nat, i: nat, c: Candidate) returns (k: int)
    requires i < |ChildCandidates(cs, base)| && c == ChildCandidates(cs, base)[i]
    ensures cs != [] && k == i - |Candidates(cs[0])|
    ensures k < 0 ==> c == Under(base, Candidates(cs[0])[i])
    ensures k >= 0 ==> k < |ChildCandidates(cs[1..], base + 1)| && c == ChildCandidates(cs[1..], base + 1)[k]
  {
    k := i - |Candidates(cs[0])|;
  }

  lemma {:induction false} CandidatesStand(n: Node, i: nat)
    requires i < |Candidates(n)|
    ensures Stands(n, Candidates(n)[i])
    decreases n, 1
  {
    var j := i - |Own(n.head)|;
    if j < 0 {
      assert Candidates(n)[i] == OwnCandidates(n)[i];
    } else {
      var c := ChildCandidates(n.children, 0)[j];
      ChildCandidatesStand(n.children, 0, j, c);
      StandsBelow(n, c);
    }
  }

  lemma StandsBelow(n: Node, c: Candidate)
    requires StandsAmong(n.children, 0, c)
    ensures Stands(n, c)
  {
  }

  lemma {:induction false} ChildCandidatesStand(cs: seq<Node>, base: nat, i: nat, c: Candidate)
    requires i < |ChildCandidates(cs, base)| && c == ChildCandidates(cs, base)[i]
    ensures StandsAmong(cs, base, c)
    decreases cs, 0
  {
    var k := ChildCandidateOf(cs, base, i, c);
    if k < 0 {
      CandidatesStand(cs[0], i);
      StandsFirst(cs, base, Candidates(cs[0])[i], c);
    } else {
      ChildCandidatesStand(cs[1..], base + 1, k, c);
      StandsLater(cs, base, c);
    }
  }

  lemma StandsFirst(cs: seq<Node>, base: nat, a: Candidate, c: Candidate)
    requires cs != [] && Stands(cs[0], a) && c == Under(base, a)
    ensures StandsAmong(cs, base, c)
  {
    assert c.path[1..] == a.path;
  }

  lemma StandsLater(cs: seq<Node>, base: nat, c: Candidate)
    requires cs != [] && StandsAmong(cs[1..], base + 1, c)
    ensures StandsAmong(cs, base, c)
  {
  }

  /** Every operator of every node has its candidate. */
  lemma {:induction false} OperatorHasCandidate(n: Node, path: seq<nat>, sub: nat) returns (i: nat)
    requires NodeAt(n, path).Some? && sub < |Own(NodeAt(n, path).value.head)|
    ensures i < |Candidates(n)| && Candidates(n)[i].path == path && Candidates(n)[i].sub == sub
    decreases |path|, 0, 1
  {
    if path == [] {
      i := sub;
    } else {
      i := ChildHasCandidate(n.children, 0, path[0], path[1..], sub);
      i := |Own(n.head)| + i;
    }
  }

  lemma {:induction false} ChildHasCandidate(cs: seq<Node>, base: nat, k: nat, path: seq<nat>, sub: nat)
    returns (i: nat)
    requires k < |cs| && NodeAt(cs[k], path).Some? && sub < |Own(NodeAt(cs[k], path).value.head)|
    ensures i < |ChildCandidates(cs, base)|
    ensures ChildCandidates(cs, base)[i].path == [base + k] + path && ChildCandidates(cs, base)[i].sub == sub
    decreases |path|, 1, k
  {
    if k == 0 {
      i := OperatorHasCandidate(cs[0], path, sub);
      CandidateFirst(cs, base, i);
    } else {
      var j := ChildHasCandidate(cs[1..], base + 1, k - 1, path, sub);
      i := CandidateLater(cs, base, j);
    }
  }

  lemma CandidateFirst(cs: seq<Node>, base: nat, i: nat)
    requires cs != [] && i < |Candidates(cs[0])|
    ensures i < |ChildCandidates(cs, base)| && ChildCandidates(cs, base)[i] == Under(base, Candidates(cs[0])[i])
  {
  }

  lemma CandidateLater(cs: seq<Node>, base: nat, j: nat) returns (i: nat)
    requires cs != [] && j < |ChildCandidates(cs[1..], base + 1)|
    ensures i < |ChildCandidates(cs, base)| && ChildCandidates(cs, base)[i] == ChildCandidates(cs[1..], base + 1)[j]
  {
    i := |Candidates(cs[0])| + j;
  }

  /** Pre-order: a node comes before what is below it, a child before its later siblings, and the operators of a node
      come in their own order. */
  predicate Precedes(p: seq<nat>, a: nat, q: seq<nat>, b: nat)
    decreases |p|
  {
    if p == [] then (q == [] ==> a < b)
    else q != [] && (p[0] < q[0] || (p[0] == q[0] && Precedes(p[1..], a, q[1..], b)))
  }

  predicate Earlier(c: Candidate, d: Candidate) {
    Precedes(c.path, c.sub, d.path, d.sub)
  }

  lemma EarlierUnder(k: nat, a: Candidate, b: Candidate, c: Candidate, d: Candidate)
    requires Earlier(a, b) && c == Under(k, a) && d == Under(k, b)
    ensures Earlier(c, d)
  {
    assert c.path[1..] == a.path && d.path[1..] == b.path;
  }

  lemma CandidateOf(n: Node, i: nat)
    requires i < |Candidates(n)|
    ensures var j := i - |Own(n.head)|;
            if j < 0 then Candidates(n)[i].path == [] && Candidates(n)[i].sub == i
            else j < |ChildCandidates(n.children, 0)| && Candidates(n)[i] == ChildCandidates(n.children, 0)[j]
  {
  }

  lemma EarlierSibling(c: Candidate, d: Candidate, k: nat)
    requires c.path != [] && d.path != [] && c.path[0] == k < d.path[0]
    ensures Earlier(c, d)
  {
  }

  lemma EarlierAtRoot(c: Candidate, d: Candidate)
    requires c.path == [] && (d.path == [] ==> c.sub < d.sub)
    ensures Earlier(c, d)
  {
  }

  lemma {:induction false} InOrder(n: Node, i: nat, j: nat, c: Candidate, d: Candidate)
    requires i < j < |Candidates(n)| && c == Candidates(n)[i] && d == Candidates(n)[j]
    ensures Earlier(c, d)
    decreases n, 1
  {
    var own, cs := |Own(n.head)|, n.children;
    CandidateOf(n, i);
    CandidateOf(n, j);
    if i >= own {
      ChildrenInOrder(cs, 0, i - own, j - own, c, d);
    } else {
      if j >= own {
        ChildCandidatesStand(cs, 0, j - own, d);
      }
      EarlierAtRoot(c, d);
    }
  }

  lemma {:induction false} ChildrenInOrder(cs: seq<Node>, base: nat, i: nat, j: nat, c: Candidate, d: Candidate)
    requires i < j < |ChildCandidates(cs, base)|
    requires c == ChildCandidates(cs, base)[i] && d == ChildCandidates(cs, base)[j]
    ensures Earlier(c, d)
    decreases cs, 0
  {
    var k := ChildCandidateOf(cs, base, i, c);
    var l := ChildCandidateOf(cs, base, j, d);
    if l < 0 {
      var a, b := Candidates(cs[0])[i], Candidates(cs[0])[j];
      InOrder(cs[0], i, j, a, b);
      EarlierUnder(base, a, b, c, d);
    } else if k >= 0 {
      ChildrenInOrder(cs[1..], base + 1, k, l, c, d);
    } else {
      ChildCandidatesStand(cs[1..], base + 1, l, d);
      EarlierSibling(c, d, base);
    }
  }

  /** The candidates come in pre-order. */
  lemma PreOrder(n: Node, i: nat, j: nat)
    requires i < j < |Candidates(n)|
    ensures Earlier(Candidates(n)[i], Candidates(n)[j])
  {
    InOrder(n, i, j, Candidates(n)[i], Candidates(n)[j]);
  }
}
