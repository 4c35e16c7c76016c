/** The mutation run: collecting candidates by visiting the tree, then one record for each mutant tested. */
module MutationEngine {
  import opened MutationTrees

  /** What the test suite makes of one mutant; the suite is an arbitrary function of the tree. */
  datatype Verdict = AllPassed | Failed(test: string) | Crashed(exception: string)

  datatype Status = Killed(killer: string) | Survived

  datatype MutantRecord = MutantRecord(id: nat, lineno: int, original: Operator, mutated: Operator, status: Status)

  function Placed(path: seq<nat>, cs: seq<Candidate>): (r: seq<Candidate>)
    ensures |r| == |cs|
  {
    seq(|cs|, i requires 0 <= i < |cs| => cs[i].(path := path + cs[i].path))
  }

  lemma PlacedBelow(path: seq<nat>, k: nat, cs: seq<Candidate>)
    ensures Placed(path, Below(k, cs)) == Placed(path + [k], cs)
  {
    forall i | 0 <= i < |cs| ensures path + ([k] + cs[i].path) == path + [k] + cs[i].path {
    }
  }

  lemma PlacedAppend(path: seq<nat>, a: seq<Candidate>, b: seq<Candidate>)
    ensures Placed(path, a + b) == Placed(path, a) + Placed(path, b)
  {
  }

  lemma PlacedAtRoot(cs: seq<Candidate>)
    ensures Placed([], cs) == cs
  {
    forall i | 0 <= i < |cs| ensures [] + cs[i].path == cs[i].path {
    }
  }

  lemma ChildCandidatesCons(n: Node, cs: seq<Node>, base: nat)
    ensures ChildCandidates([n] + cs, base) == Below(base, Candidates(n)) + ChildCandidates(cs, base + 1)
  {
    assert ([n] + cs)[1..] == cs;
  }

  lemma {:induction false} ChildCandidatesExtend(cs: seq<Node>, base: nat, k: nat)
    requires k < |cs|
    ensures ChildCandidates(cs[..k + 1], base) == ChildCandidates(cs[..k], base) + Below(base + k, Candidates(cs[k]))
    decreases k
  {
    if k == 0 {
      assert cs[..1] == [cs[0]] + [] && cs[..0] == [];
      ChildCandidatesCons(cs[0], [], base);
    } else {
      ChildCandidatesExtend(cs[1..], base + 1, k - 1);
      ExtendBehind(cs, base, k);
    }
  }

  lemma PrefixCons(cs: seq<Node>, k: nat)
    requires 0 < k <= |cs|
    ensures cs[..k] == [cs[0]] + cs[1..][..k - 1]
  {
  }

  lemma ExtendBehind(cs: seq<Node>, base: nat, k: nat)
    requires 0 < k < |cs|
    requires ChildCandidates(cs[1..][..k], base + 1) ==
             ChildCandidates(cs[1..][..k - 1], base + 1) + Below(base + k, Candidates(cs[k]))
    ensures ChildCandidates(cs[..k + 1], base) == ChildCandidates(cs[..k], base) + Below(base + k, Candidates(cs[k]))
  {
    var front, whole, more := cs[1..][..k - 1], cs[1..][..k], Below(base + k, Candidates(cs[k]));
    PrefixCons(cs, k);
    PrefixCons(cs, k + 1);
    ChildCandidatesCons(cs[0], whole, base);
    ChildCandidatesCons(cs[0], front, base);
    Associative(Below(base, Candidates(cs[0])), ChildCandidates(front, base + 1), more);
  }

  lemma PlacedChild(path: seq<nat>, cs: seq<Node>, k: nat)
    requires k < |cs|
    ensures Placed(path, ChildCandidates(cs[..k + 1], 0)) ==
            Placed(path, ChildCandidates(cs[..k], 0)) + Placed(path + [k], Candidates(cs[k]))
  {
    ChildCandidatesExtend(cs, 0, k);
    PlacedBelow(path, k, Candidates(cs[k]));
    PlacedAppend(path, ChildCandidates(cs[..k], 0), Below(k, Candidates(cs[k])));
  }

  class CandidateCollector {
    var candidates: seq<Candidate>

    constructor ()
      ensures candidates == []
    {
      candidates := [];
    }

    /** Visits a node standing at `path`: its own candidates first, then those of its children. */
    method Visit(n: Node, path: seq<nat>)
      modifies this
      ensures candidates == old(candidates) + Placed(path, Candidates(n))
      decreases n, 1
    {
      PlacedAppend(path, OwnCandidates(n), ChildCandidates(n.children, 0));
      candidates := candidates + Placed(path, OwnCandidates(n));
      GenericVisit(n, path);
    }

    method GenericVisit(n: Node, path: seq<nat>)
      modifies this
      ensures candidates == old(candidates) + Placed(path, ChildCandidates(n.children, 0))
      decreases n, 0
    {
      for k := 0 to |n.children|
        invariant candidates == old(candidates) + Placed(path, ChildCandidates(n.children[..k], 0))
      {
        Visit(n.children[k], path + [k]);
        PlacedChild(path, n.children, k);
        Associative(old(candidates), Placed(path, ChildCandidates(n.children[..k], 0)),
                    Placed(path + [k], Candidates(n.children[k])));
      }
      assert n.children[..|n.children|] == n.children;
    }
  }

  lemma Associative<T>(a: seq<T>, b: seq<T>, c: seq<T>)
    ensures a + b + c == a + (b + c)
  {
  }

  // ----- the report

  function StatusOf(v: Verdict): Status {
    match v
    case AllPassed => Survived
    case Failed(t) => Killed(t)
    case Crashed(e) => Killed(e)
  }

  function RecordOf(tree: Node, suite: Node -> Verdict, i: nat): MutantRecord
    requires i < |Candidates(tree)|
  {
    var c := Candidates(tree)[i];
    MutantRecord(i + 1, c.lineno, c.operator, Flip(c.operator), StatusOf(suite(Mutant(tree, i))))
  }

  /** The records of the first `k` candidates. */
  function Report(tree: Node, suite: Node -> Verdict, k: nat): seq<MutantRecord>
    requires k <= |Candidates(tree)|
  {
    if k == 0 then []
    else if Mapped(Candidates(tree)[k - 1].operator) then
      Report(tree, suite, k - 1) + [RecordOf(tree, suite, k - 1)]
    else Report(tree, suite, k - 1)
  }

  ghost predicate Recorded(rs: seq<MutantRecord>, id: nat) {
    exists a :: 0 <= a < |rs| && rs[a].id == id
  }

  ghost predicate SoundRecord(tree: Node, suite: Node -> Verdict, r: MutantRecord) {
    && 0 < r.id <= |Candidates(tree)|
    && var c := Candidates(tree)[r.id - 1];
       && r.lineno == c.lineno && r.original == c.operator && r.mutated == Flip(c.operator)
       && match suite(Mutant(tree, r.id - 1))
          case AllPassed => r.status == Survived
          case Failed(test) => r.status == Killed(test)
          case Crashed(exception) => r.status == Killed(exception)
  }

  ghost predicate Increasing(rs: seq<MutantRecord>, bound: nat) {
    && (forall a, b :: 0 <= a < b < |rs| ==> rs[a].id < rs[b].id)
    && forall a :: 0 <= a < |rs| ==> rs[a].id <= bound
  }

  lemma {:induction false} ReportIncreasing(tree: Node, suite: Node -> Verdict, k: nat)
    requires k <= |Candidates(tree)|
    ensures Increasing(Report(tree, suite, k), k)
  {
    if k > 0 {
      ReportIncreasing(tree, suite, k - 1);
      assert RecordedId(tree, suite, k - 1);
    }
  }

  predicate RecordedId(tree: Node, suite: Node -> Verdict, i: nat) {
    i < |Candidates(tree)| && RecordOf(tree, suite, i).id == i + 1
  }

  lemma RecordOfSound(tree: Node, suite: Node -> Verdict, i: nat)
    requires i < |Candidates(tree)|
    ensures SoundRecord(tree, suite, RecordOf(tree, suite, i))
  {
  }

  ghost predicate AllSound(tree: Node, suite: Node -> Verdict, rs: seq<MutantRecord>) {
    forall a :: 0 <= a < |rs| ==> SoundRecord(tree, suite, rs[a])
  }

  lemma AllSoundAppend(tree: Node, suite: Node -> Verdict, rs: seq<MutantRecord>, r: MutantRecord)
    requires AllSound(tree, suite, rs) && SoundRecord(tree, suite, r)
    ensures AllSound(tree, suite, rs + [r])
  {
  }

  lemma {:induction false} ReportAllSound(tree: Node, suite: Node -> Verdict, k: nat)
    requires k <= |Candidates(tree)|
    ensures AllSound(tree, suite, Report(tree, suite, k))
  {
    if k > 0 {
      ReportAllSound(tree, suite, k - 1);
      RecordOfSound(tree, suite, k - 1);
      AllSoundAppend(tree, suite, Report(tree, suite, k - 1), RecordOf(tree, suite, k - 1));
    }
  }

  /** A record says what became of the mutant of its own candidate, and records come in pre-order. */
  lemma ReportSound(tree: Node, suite: Node -> Verdict, k: nat)
    requires k <= |Candidates(tree)|
    ensures Increasing(Report(tree, suite, k), k) && AllSound(tree, suite, Report(tree, suite, k))
  {
    ReportIncreasing(tree, suite, k);
    ReportAllSound(tree, suite, k);
  }

  lemma RecordedAppend(rs: seq<MutantRecord>, r: MutantRecord, id: nat)
    ensures Recorded(rs + [r], id) <==> Recorded(rs, id) || r.id == id
  {
    if Recorded(rs, id) {
      var a :| 0 <= a < |rs| && rs[a].id == id;
      assert (rs + [r])[a].id == id;
    }
    if r.id == id {
      assert (rs + [r])[|rs|].id == id;
    }
  }

  lemma NotYetRecorded(tree: Node, suite: Node -> Verdict, k: nat)
    requires k <= |Candidates(tree)|
    ensures !Recorded(Report(tree, suite, k), k + 1)
  {
    ReportIncreasing(tree, suite, k);
  }

  /** All candidates are recorded but comparisons by identity, which are in no table. */
  lemma {:induction false} ReportComplete(tree: Node, suite: Node -> Verdict, k: nat, i: nat)
    requires i < k <= |Candidates(tree)|
    ensures Recorded(Report(tree, suite, k), i + 1) <==>
            Candidates(tree)[i].operator != InCompare(Is) && Candidates(tree)[i].operator != InCompare(IsNot)
  {
    RecordedStep(tree, suite, k, i + 1);
    if i < k - 1 {
      ReportComplete(tree, suite, k - 1, i);
    } else {
      NotYetRecorded(tree, suite, k - 1);
    }
  }

  lemma RecordedStep(tree: Node, suite: Node -> Verdict, k: nat, id: nat)
    requires 0 < k <= |Candidates(tree)|
    ensures Recorded(Report(tree, suite, k), id) <==>
            || Recorded(Report(tree, suite, k - 1), id)
            || (id == k && Candidates(tree)[k - 1].operator != InCompare(Is)
                && Candidates(tree)[k - 1].operator != InCompare(IsNot))
  {
    if Mapped(Candidates(tree)[k - 1].operator) {
      RecordedAppend(Report(tree, suite, k - 1), RecordOf(tree, suite, k - 1), id);
    }
  }

  lemma ReportStep(tree: Node, suite: Node -> Verdict, i: nat)
    requires i < |Candidates(tree)|
    ensures var c := Candidates(tree)[i];
            && RecordOf(tree, suite, i) == MutantRecord(i + 1, c.lineno, c.operator, Flip(c.operator),
                                                        StatusOf(suite(Rewrite(tree, c.path, c.sub))))
            && Report(tree, suite, i + 1) ==
                 if Mapped(c.operator) then Report(tree, suite, i) + [RecordOf(tree, suite, i)]
                 else Report(tree, suite, i)
  {
  }

  class Mutator {
    var mutants: seq<MutantRecord>

    constructor ()
      ensures mutants == []
    {
      mutants := [];
    }

    /** Tries every candidate on a fresh copy of the tree; candidates outside the tables are passed over. */
    method TestMutants(tree: Node, suite: Node -> Verdict)
      modifies this
      ensures mutants == old(mutants) + Report(tree, suite, |Candidates(tree)|)
    {
      var collector := new CandidateCollector();
      collector.Visit(tree, []);
      PlacedAtRoot(Candidates(tree));
      var candidates := collector.candidates;
      for idx := 0 to |candidates|
        invariant mutants == old(mutants) + Report(tree, suite, idx)
      {
        var c := candidates[idx];
        ReportStep(tree, suite, idx);
        if Mapped(c.operator) {
          Associative(old(mutants), Report(tree, suite, idx), [RecordOf(tree, suite, idx)]);
          var verdict := suite(Rewrite(tree, c.path, c.sub));
          Record(MutantRecord(idx + 1, c.lineno, c.operator, Flip(c.operator), StatusOf(verdict)));
        }
      }
    }

    method Record(r: MutantRecord)
      modifies this
      ensures mutants == old(mutants) + [r]
    {
      mutants := mutants + [r];
    }
  }
}
