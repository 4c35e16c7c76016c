/** What every run of the pipeline keeps, and that with a worker every run can be brought to its end. */
module StreamTheorems {
  import opened StreamProtocol

  // ----- what no step changes

  function EventsToCome(p: ProducerPc): nat {
    match p
    case Ready(n) => n
    case Blocked(_, n) => n + 1
    case Stopped => 0
  }

  predicate SameSetup(s: State, t: State) {
    && s.maxsize == t.maxsize && |s.workers| == |t.workers|
    && |s.hist.produced| + EventsToCome(s.producer) == |t.hist.produced| + EventsToCome(t.producer)
    && s.hist.produced <= t.hist.produced && s.hist.dequeued <= t.hist.dequeued
  }

  lemma StepKeepsSetup(s: State, a: Action)
    requires Enabled(s, a)
    ensures SameSetup(s, Apply(s, a))
  {
  }

  lemma {:induction false} RunKeepsSetup(s: State, run: seq<Action>, t: State)
    requires Runs(s, run, t)
    ensures SameSetup(s, t)
    decreases |run|
  {
    if run != [] {
      StepKeepsSetup(s, run[0]);
      RunKeepsSetup(Apply(s, run[0]), run[1..], t);
    }
  }

  /** Conservation, at every point of every run: what was put is, in order, what was taken followed
      by what waits; every event is queued, with a worker, scored or failed, exactly as often as it
      was produced; the counters and the queue's own count of open tasks agree; nothing is lost. */
  lemma Conservation(nWorkers: nat, maxsize: int, events: nat, run: seq<Action>, t: State)
    requires Runs(Init(nWorkers, maxsize, events), run, t)
    ensures t.hist.dequeued + t.queue == t.hist.produced
    ensures forall e :: Count(t.hist.produced, e) ==
                        Count(t.queue, e) + InFlight(t.workers, e) + Count(t.hist.scored, e) + Count(t.hist.failed, e)
    ensures t.produced == |t.hist.produced| == t.scored + t.errors + |t.queue| + Busy(t.workers)
    ensures |t.decisions| == t.scored && t.unfinished == |t.queue| + Busy(t.workers)
    ensures maxsize > 0 ==> |t.queue| <= maxsize
    ensures t.produced + EventsToCome(t.producer) == events && |t.workers| == nWorkers
    ensures t.hist.lost == []
    ensures Inv(t)
  {
    InitInv(nWorkers, maxsize, events);
    RunInv(Init(nWorkers, maxsize, events), run, t);
    RunKeepsSetup(Init(nWorkers, maxsize, events), run, t);
    forall e ensures Count(t.hist.produced, e) ==
                     Count(t.queue, e) + InFlight(t.workers, e) + Count(t.hist.scored, e) + Count(t.hist.failed, e)
    {
      assert multiset(t.hist.produced) == multiset(t.hist.dequeued) + multiset(t.queue);
    }
  }

  // ----- what is recorded of the calls

  /** The outcomes of the scorings settled in a run, those accepted or the others, in order. */
  function Outcomes(run: seq<Action>, accepted: bool): seq<Outcome> {
    if run == [] then []
    else
      (if run[0].Settle? && run[0].outcome.Accepted? == accepted then [run[0].outcome] else []) +
      Outcomes(run[1..], accepted)
  }

  predicate Records(d: Decision, e: Event, o: Outcome) {
    && o.Accepted? && d.riskScore == o.riskScore && d.riskLevel == o.riskLevel && d.decision == o.decision
    && d.latencyMs == o.latencyMs && d.queueWaitMs == o.queueWaitMs
    && d.txId == e.txId && d.bankId == e.bankId && d.producedAt == e.producedAt
  }

  ghost predicate AllRecorded(ds: seq<Decision>, es: seq<Event>, os: seq<Outcome>) {
    |ds| == |es| == |os| && forall i :: 0 <= i < |ds| ==> Records(ds[i], es[i], os[i])
  }

  lemma StepRecords(s: State, a: Action, os: seq<Outcome>)
    requires Enabled(s, a) && AllRecorded(s.decisions, s.hist.scored, os)
    ensures AllRecorded(Apply(s, a).decisions, Apply(s, a).hist.scored, os + Outcomes([a], true))
    ensures Apply(s, a).errors == s.errors + |Outcomes([a], false)|
  {
    assert Outcomes([a][1..], true) == [] && Outcomes([a][1..], false) == [];
    if a.Settle? && a.outcome.Accepted? {
      assert Outcomes([a], true) == [a.outcome] && Outcomes([a], false) == [];
      assert Records(DecisionOf(s.workers[a.w].event, a.outcome), s.workers[a.w].event, a.outcome);
    } else {
      assert Outcomes([a], true) == [] && os + [] == os;
    }
  }

  lemma {:induction false} RunRecords(s: State, run: seq<Action>, t: State, os: seq<Outcome>)
    requires Runs(s, run, t) && AllRecorded(s.decisions, s.hist.scored, os)
    ensures AllRecorded(t.decisions, t.hist.scored, os + Outcomes(run, true))
    ensures t.errors == s.errors + |Outcomes(run, false)|
    decreases |run|
  {
    if run == [] {
      assert os + [] == os;
    } else {
      StepRecords(s, run[0], os);
      RunRecords(Apply(s, run[0]), run[1..], t, os + Outcomes([run[0]], true));
      SplitOutcomes(run, os);
    }
  }

  lemma SplitOutcomes(run: seq<Action>, os: seq<Outcome>)
    requires run != []
    ensures os + Outcomes([run[0]], true) + Outcomes(run[1..], true) == os + Outcomes(run, true)
    ensures |Outcomes(run, false)| == |Outcomes([run[0]], false)| + |Outcomes(run[1..], false)|
  {
    assert Outcomes([run[0]][1..], true) == [] && Outcomes([run[0]][1..], false) == [];
  }

  /** The i-th decision says what the i-th accepted call answered, about the event that call was made for;
      every other call is one error. */
  lemma DecisionsFollowOutcomes(nWorkers: nat, maxsize: int, events: nat, run: seq<Action>, t: State)
    requires Runs(Init(nWorkers, maxsize, events), run, t)
    ensures AllRecorded(t.decisions, t.hist.scored, Outcomes(run, true))
    ensures t.errors == |Outcomes(run, false)|
  {
    RunRecords(Init(nWorkers, maxsize, events), run, t, []);
    assert [] + Outcomes(run, true) == Outcomes(run, true);
  }

  // ----- exactly once

  ghost predicate DistinctIds(es: seq<Event>) {
    forall i, j :: 0 <= i < j < |es| ==> es[i].txId != es[j].txId
  }

  lemma {:induction false} DistinctCountsOnce(es: seq<Event>, e: Event)
    requires DistinctIds(es)
    ensures Count(es, e) <= 1
  {
    if es != [] {
      var n := |es| - 1;
      assert es == es[..n] + [es[n]];
      DistinctCountsOnce(es[..n], e);
      if es[n] == e {
        assert forall i :: 0 <= i < n ==> es[..n][i] != e;
      }
    }
  }

  lemma RepeatCountsTwice(es: seq<Event>, i: nat, j: nat)
    requires i < j < |es| && es[i] == es[j]
    ensures Count(es, es[i]) >= 2
  {
    assert es == es[..j] + es[j..];
    assert es[i] in es[..j] && es[i] in es[j..];
  }

  /** With unique transaction ids every decision stands for its own produced event, and that event
      waits nowhere, is with no worker and has not failed. */
  lemma ExactlyOnce(nWorkers: nat, maxsize: int, events: nat, run: seq<Action>, t: State)
    requires Runs(Init(nWorkers, maxsize, events), run, t)
    requires DistinctIds(t.hist.produced)
    ensures forall i, j :: 0 <= i < j < |t.decisions| ==> t.decisions[i].txId != t.decisions[j].txId
    ensures |t.hist.scored| == |t.decisions|
    ensures forall i :: 0 <= i < |t.decisions| ==>
              var e := t.hist.scored[i];
              t.decisions[i].txId == e.txId && e in t.hist.produced &&
              e !in t.queue && e !in t.hist.failed && InFlight(t.workers, e) == 0
  {
    Conservation(nWorkers, maxsize, events, run, t);
    forall i | 0 <= i < |t.decisions|
      ensures var e := t.hist.scored[i];
              t.decisions[i].txId == e.txId && e in t.hist.produced &&
              e !in t.queue && e !in t.hist.failed && InFlight(t.workers, e) == 0
    {
      var e := t.hist.scored[i];
      assert Count(t.hist.scored, e) > 0;
      DistinctCountsOnce(t.hist.produced, e);
      assert Count(t.hist.produced, e) == 1;
      assert Count(t.queue, e) == 0 && Count(t.hist.failed, e) == 0;
    }
    forall i, j | 0 <= i < j < |t.decisions| ensures t.decisions[i].txId != t.decisions[j].txId {
      if t.decisions[i].txId == t.decisions[j].txId {
        var e := t.hist.scored[i];
        assert e in t.hist.produced && t.hist.scored[j] in t.hist.produced;
        RepeatCountsTwice(t.hist.scored, i, j);
        DistinctCountsOnce(t.hist.produced, e);
        assert false;
      }
    }
  }

  // ----- shutdown

  /** A worker that left its loop was right to: whatever happens later, no event is put or waits. */
  lemma {:induction false} ExitIsFinal(s: State, w: nat, run: seq<Action>, t: State)
    requires Inv(s) && w < |s.workers| && s.workers[w].Exited? && Runs(s, run, t)
    ensures t.queue == [] && t.producerDone && t.hist.produced == s.hist.produced
    ensures w < |t.workers| && t.workers[w].Exited?
    decreases |run|
  {
    if run != [] {
      StepInv(s, run[0]);
      ExitIsFinal(Apply(s, run[0]), w, run[1..], t);
    }
  }

  /** `join` lets the main task go on only with nothing queued and nobody scoring, and every
      cancellation it then delivers meets an idle worker and changes nothing else. */
  lemma CancellationInterruptsNothing(nWorkers: nat, maxsize: int, events: nat, run: seq<Action>, t: State, w: nat)
    requires Runs(Init(nWorkers, maxsize, events), run, t)
    ensures |t.workers| == nWorkers
    ensures Enabled(t, EndJoin) ==> t.queue == [] && forall v :: 0 <= v < nWorkers ==> !t.workers[v].Scoring?
    ensures Enabled(t, DeliverCancel(w)) ==>
              t.workers[w].Polling? && t.queue == [] &&
              Apply(t, DeliverCancel(w)) == t.(workers := t.workers[w := Cancelled])
  {
    Conservation(nWorkers, maxsize, events, run, t);
    BusyZero(t.workers);
  }

  lemma FinishedAccounting(nWorkers: nat, maxsize: int, events: nat, run: seq<Action>, t: State)
    requires Runs(Init(nWorkers, maxsize, events), run, t) && t.main.Finished?
    ensures events == t.produced == t.scored + t.errors && |t.decisions| == t.scored
    ensures t.queue == [] && t.hist.dequeued == t.hist.produced && t.hist.lost == []
    ensures forall e :: Count(t.hist.produced, e) == Count(t.hist.scored, e) + Count(t.hist.failed, e)
  {
    Conservation(nWorkers, maxsize, events, run, t);
    BusyZero(t.workers);
    assert t.hist.dequeued + [] == t.hist.dequeued;
  }

  // ----- progress

  /** An action other than polling that some task can take. */
  predicate Live(s: State, a: Action) {
    Enabled(s, a) && !a.Poll?
  }

  /** With a worker, an unfinished pipeline always has a task that can do more than poll. */
  lemma Progress(s: State) returns (a: Action)
    requires Inv(s) && s.workers != [] && !s.main.Finished?
    ensures Live(s, a)
  {
    if s.main.Cancelling? {
      if w :| 0 <= w < |s.workers| && !Terminated(s.workers[w]) {
        a := DeliverCancel(w);
      } else {
        a := Gather;
      }
    } else if s.producer.Ready? {
      var e := Event("", "", 0.0, 0.0);
      a := if s.producer.left == 0 then StopProducer else if Full(s) then Block(e) else Produce(e);
    } else if s.producer.Blocked? && !Full(s) {
      a := Unblock;
    } else if s.main.AwaitingProducer? && s.producer.Stopped? {
      a := BeginJoin;
    } else if s.unfinished == 0 {
      a := EndJoin;
    } else {
      a := WorkerProgress(s);
    }
  }

  lemma WorkerProgress(s: State) returns (a: Action)
    requires Inv(s) && s.workers != [] && Running(s) && s.unfinished > 0
    ensures Live(s, a)
  {
    BusyZero(s.workers);
    if w :| 0 <= w < |s.workers| && s.workers[w].Scoring? {
      a := Settle(w, Raised);
    } else {
      assert s.queue != [];
      assert s.workers[0].Polling?;
      a := Take(0);
    }
  }

  function ProducerWork(p: ProducerPc): nat {
    match p
    case Ready(n) => 4 * n + 1
    case Blocked(_, n) => 4 * n + 4
    case Stopped => 0
  }

  function WorkerWork(pc: WorkerPc): nat {
    match pc
    case Polling => 1
    case Scoring(_) => 2
    case _ => 0
  }

  function WorkersWork(ws: seq<WorkerPc>): nat {
    if ws == [] then 0 else WorkerWork(ws[0]) + WorkersWork(ws[1..])
  }

  function MainWork(m: MainPc): nat {
    match m
    case AwaitingProducer => 3
    case Joining => 2
    case Cancelling => 1
    case Finished => 0
  }

  /** A bound on the steps left that are not polls. */
  function Work(s: State): nat {
    ProducerWork(s.producer) + 2 * |s.queue| + WorkersWork(s.workers) + MainWork(s.main)
  }

  lemma {:induction false} WorkersWorkUpdate(ws: seq<WorkerPc>, w: nat, pc: WorkerPc)
    requires w < |ws|
    ensures WorkersWork(ws[w := pc]) == WorkersWork(ws) - WorkerWork(ws[w]) + WorkerWork(pc)
  {
    if w == 0 {
      assert ws[w := pc][1..] == ws[1..];
    } else {
      WorkersWorkUpdate(ws[1..], w - 1, pc);
      assert ws[w := pc][1..] == ws[1..][w - 1 := pc];
    }
  }

  lemma StepWork(s: State, a: Action)
    requires Enabled(s, a)
    ensures if a.Poll? then Apply(s, a) == s else Work(Apply(s, a)) < Work(s)
  {
    match a
    case Take(w) => WorkersWorkUpdate(s.workers, w, Scoring(s.queue[0]));
    case Leave(w) => WorkersWorkUpdate(s.workers, w, Exited);
    case Settle(w, _) => WorkersWorkUpdate(s.workers, w, Polling);
    case DeliverCancel(w) => WorkersWorkUpdate(s.workers, w, Cancelled);
    case _ =>
  }

  function LiveSteps(run: seq<Action>): nat {
    if run == [] then 0 else (if run[0].Poll? then 0 else 1) + LiveSteps(run[1..])
  }

  /** No run, however scheduled, takes more than `Work` steps that are not polls. */
  lemma {:induction false} RunsAreBounded(s: State, run: seq<Action>, t: State)
    requires Runs(s, run, t)
    ensures LiveSteps(run) + Work(t) <= Work(s)
    decreases |run|
  {
    if run != [] {
      StepWork(s, run[0]);
      RunsAreBounded(Apply(s, run[0]), run[1..], t);
    }
  }

  lemma {:induction false} CanBeFinished(s: State) returns (run: seq<Action>, t: State)
    requires Inv(s) && s.workers != []
    ensures Runs(s, run, t) && t.main.Finished?
    decreases Work(s)
  {
    if s.main.Finished? {
      run, t := [], s;
    } else {
      var a := Progress(s);
      StepWork(s, a);
      StepInv(s, a);
      var rest;
      rest, t := CanBeFinished(Apply(s, a));
      run := [a] + rest;
      assert run[1..] == rest;
    }
  }

  ghost predicate CanFinish(s: State) {
    exists run, t :: Runs(s, run, t) && t.main.Finished?
  }

  /** From every state a run reaches the pipeline can still finish, exactly when there is a worker
      or nothing to produce: without workers the first event keeps `join` waiting for ever. */
  lemma CompletionExactly(nWorkers: nat, maxsize: int, events: nat, run: seq<Action>, s: State)
    requires Runs(Init(nWorkers, maxsize, events), run, s)
    ensures CanFinish(s) <==> nWorkers > 0 || events == 0
  {
    Conservation(nWorkers, maxsize, events, run, s);
    if nWorkers > 0 {
      var rest, t := CanBeFinished(s);
    } else if events == 0 {
      FinishWithoutEvents(s);
    } else if CanFinish(s) {
      var rest, t :| Runs(s, rest, t) && t.main.Finished?;
      NeverSettled(Init(nWorkers, maxsize, events), run, s);
      NeverSettled(s, rest, t);
      RunInv(s, rest, t);
      RunKeepsSetup(s, rest, t);
      BusyZero(t.workers);
      assert false;
    }
  }

  lemma {:induction false} FinishWithoutEvents(s: State)
    requires Inv(s) && s.workers == [] && s.hist.produced == [] && EventsToCome(s.producer) == 0
    ensures CanFinish(s)
    decreases Work(s)
  {
    if s.main.Finished? {
      assert Runs(s, [], s);
    } else {
      var a := if s.producer.Ready? then StopProducer else if s.main.AwaitingProducer? then BeginJoin
               else if s.main.Joining? then EndJoin else Gather;
      StepWork(s, a);
      StepInv(s, a);
      FinishWithoutEvents(Apply(s, a));
      var rest, t :| Runs(Apply(s, a), rest, t) && t.main.Finished?;
      assert ([a] + rest)[1..] == rest;
      assert Runs(s, [a] + rest, t);
    }
  }

  lemma {:induction false} NeverSettled(s: State, run: seq<Action>, t: State)
    requires s.workers == [] && s.hist.scored == s.hist.failed == [] && Runs(s, run, t)
    ensures t.hist.scored == t.hist.failed == []
    decreases |run|
  {
    if run != [] {
      NeverSettled(Apply(s, run[0]), run[1..], t);
    }
  }

  /** Without a worker, the producer waits for room in the queue, or `join` for the events put. */
  predicate Starved(s: State) {
    s.workers == [] && ((s.producer.Blocked? && Full(s)) || (s.main.Joining? && s.unfinished > 0))
  }

  /** A reachable pipeline can only poll, or do nothing, exactly when it has finished or is starved, and
      only one with events and no worker starves. */
  lemma StuckExactly(nWorkers: nat, maxsize: int, events: nat, run: seq<Action>, s: State)
    requires Runs(Init(nWorkers, maxsize, events), run, s)
    ensures (forall a :: !Live(s, a)) <==> s.main.Finished? || Starved(s)
    ensures Starved(s) ==> nWorkers == 0 && events > 0
  {
    Conservation(nWorkers, maxsize, events, run, s);
    if !s.main.Finished? && !Starved(s) {
      var a;
      if s.workers != [] {
        a := Progress(s);
      } else {
        a := Unstarved(s);
      }
      assert Live(s, a);
    }
  }

  lemma Unstarved(s: State) returns (a: Action)
    requires Inv(s) && s.workers == [] && !s.main.Finished? && !Starved(s)
    ensures Live(s, a)
  {
    if s.producer.Ready? {
      var e := Event("", "", 0.0, 0.0);
      a := if s.producer.left == 0 then StopProducer else if Full(s) then Block(e) else Produce(e);
    } else {
      a := if s.producer.Blocked? then Unblock else if s.main.AwaitingProducer? then BeginJoin
           else if s.main.Joining? then EndJoin else Gather;
    }
  }
}
