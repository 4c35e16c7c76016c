/** The event-driven scoring pipeline as a state machine.  One producer, one bounded
    `asyncio.Queue`, any number of workers and the main task share a state; an action is what
    one task does between two `await`s.  Some runs of code between two awaits are split into
    several actions (a worker that finishes a scoring and takes the next event without
    sleeping), which only adds interleavings. */
module StreamProtocol {
  import opened Reals

  datatype Event = Event(txId: string, bankId: string, amount: real, producedAt: real)

  datatype Decision = Decision(txId: string, bankId: string, riskScore: int, riskLevel: string,
                               decision: string, latencyMs: real, queueWaitMs: real, producedAt: real)

  /** What the HTTP call of one scoring comes to.  `Raised` covers every exception,
      including a body that is not the expected JSON. */
  datatype Outcome =
    | Accepted(riskScore: int, riskLevel: string, decision: string, latencyMs: real, queueWaitMs: real)
    | Rejected(statusCode: int)
    | Raised

  /** `Ready(n)` stands before the deadline test with n events to go; the deadline is any finite n. */
  datatype ProducerPc = Ready(left: nat) | Blocked(event: Event, left: nat) | Stopped
  datatype WorkerPc = Polling | Scoring(event: Event) | Exited | Cancelled
  datatype MainPc = AwaitingProducer | Joining | Cancelling | Finished

  /** Where each event went, in order.  `lost` collects events whose scoring was cancelled. */
  datatype History = History(produced: seq<Event>, dequeued: seq<Event>,
                             scored: seq<Event>, failed: seq<Event>, lost: seq<Event>)

  datatype State = State(
    maxsize: int, queue: seq<Event>, unfinished: int,
    producer: ProducerPc, workers: seq<WorkerPc>, main: MainPc,
    decisions: seq<Decision>, produced: nat, scored: nat, errors: nat,
    producerDone: bool, pipelineDone: bool, hist: History)

  datatype Action =
    | Produce(event: Event)
    | Block(event: Event)
    | Unblock
    | StopProducer
    | Poll(w: nat)
    | Take(w: nat)
    | Leave(w: nat)
    | Settle(w: nat, outcome: Outcome)
    | BeginJoin
    | EndJoin
    | DeliverCancel(w: nat)
    | Gather

  /** The queue bound `int(tps * 10)`; a bound of zero or less means no bound. */
  function QueueCapacity(tps: real): (m: int)
    ensures m > 0 <==> tps >= 0.1
    ensures if tps >= 0.0 then m as real <= tps * 10.0 < m as real + 1.0 else m as real - 1.0 < tps * 10.0 <= m as real
  {
    Truncate(tps * 10.0)
  }

  predicate Full(s: State) {
    s.maxsize > 0 && |s.queue| >= s.maxsize
  }

  function Init(nWorkers: nat, maxsize: int, events: nat): State {
    State(maxsize, [], 0, Ready(events), seq(nWorkers, _ => Polling), AwaitingProducer,
          [], 0, 0, 0, false, false, History([], [], [], [], []))
  }

  predicate Running(s: State) {
    s.main.AwaitingProducer? || s.main.Joining?
  }

  predicate Terminated(pc: WorkerPc) {
    pc.Exited? || pc.Cancelled?
  }

  predicate Enabled(s: State, a: Action) {
    match a
    case Produce(_) => s.producer.Ready? && s.producer.left > 0 && !Full(s)
    case Block(_) => s.producer.Ready? && s.producer.left > 0 && Full(s)
    case Unblock => s.producer.Blocked? && !Full(s)
    case StopProducer => s.producer.Ready? && s.producer.left == 0
    case Poll(w) => w < |s.workers| && s.workers[w].Polling? && Running(s) && s.queue == [] && !s.producerDone
    case Take(w) => w < |s.workers| && s.workers[w].Polling? && Running(s) && s.queue != []
    case Leave(w) => w < |s.workers| && s.workers[w].Polling? && Running(s) && s.queue == [] && s.producerDone
    case Settle(w, _) => w < |s.workers| && s.workers[w].Scoring? && Running(s)
    case BeginJoin => s.main.AwaitingProducer? && s.producer.Stopped?
    case EndJoin => s.main.Joining? && s.unfinished <= 0
    case DeliverCancel(w) => w < |s.workers| && !Terminated(s.workers[w]) && s.main.Cancelling?
    case Gather => s.main.Cancelling? && forall w :: 0 <= w < |s.workers| ==> Terminated(s.workers[w])
  }

  /** `put_nowait` and the producer's own counting, which no await separates. */
  function Put(s: State, e: Event, left: nat): State {
    s.(queue := s.queue + [e], unfinished := s.unfinished + 1, producer := Ready(left),
       produced := s.produced + 1, hist := s.hist.(produced := s.hist.produced + [e]))
  }

  function DecisionOf(e: Event, o: Outcome): Decision
    requires o.Accepted?
  {
    Decision(e.txId, e.bankId, o.riskScore, o.riskLevel, o.decision, o.latencyMs, o.queueWaitMs, e.producedAt)
  }

  /** The end of one scoring, with the `task_done` of its `finally` clause. */
  function Settled(s: State, w: nat, o: Outcome): State
    requires w < |s.workers| && s.workers[w].Scoring?
  {
    var e := s.workers[w].event;
    var t := s.(workers := s.workers[w := Polling], unfinished := s.unfinished - 1);
    if o.Accepted? then
      t.(decisions := s.decisions + [DecisionOf(e, o)], scored := s.scored + 1,
         hist := s.hist.(scored := s.hist.scored + [e]))
    else
      t.(errors := s.errors + 1, hist := s.hist.(failed := s.hist.failed + [e]))
  }

  /** `CancelledError` is not an `Exception`: a cancelled scoring counts neither as scored nor as error. */
  function CancelDelivered(s: State, w: nat): State
    requires w < |s.workers|
  {
    var t := s.(workers := s.workers[w := Cancelled]);
    if s.workers[w].Scoring? then
      t.(unfinished := s.unfinished - 1, hist := s.hist.(lost := s.hist.lost + [s.workers[w].event]))
    else t
  }

  function Apply(s: State, a: Action): State
    requires Enabled(s, a)
  {
    match a
    case Produce(e) => Put(s, e, s.producer.left - 1)
    case Block(e) => s.(producer := Blocked(e, s.producer.left - 1))
    case Unblock => Put(s, s.producer.event, s.producer.left)
    case StopProducer => s.(producer := Stopped, producerDone := true)
    case Poll(_) => s
    case Take(w) =>
      s.(queue := s.queue[1..], workers := s.workers[w := Scoring(s.queue[0])],
         hist := s.hist.(dequeued := s.hist.dequeued + [s.queue[0]]))
    case Leave(w) => s.(workers := s.workers[w := Exited])
    case Settle(w, o) => Settled(s, w, o)
    case BeginJoin => s.(main := Joining)
    case EndJoin => s.(main := Cancelling)
    case DeliverCancel(w) => CancelDelivered(s, w)
    case Gather => s.(main := Finished, pipelineDone := true)
  }

  /** `t` is reached from `s` by the actions `run`, each enabled when taken. */
  predicate Runs(s: State, run: seq<Action>, t: State)
    decreases |run|
  {
    if run == [] then s == t else Enabled(s, run[0]) && Runs(Apply(s, run[0]), run[1..], t)
  }

  // ----- events in the hands of workers

  function Busy(ws: seq<WorkerPc>): nat {
    if ws == [] then 0 else (if ws[0].Scoring? then 1 else 0) + Busy(ws[1..])
  }

  /** How many workers are scoring the event `e`. */
  function InFlight(ws: seq<WorkerPc>, e: Event): nat {
    if ws == [] then 0 else (if ws[0] == Scoring(e) then 1 else 0) + InFlight(ws[1..], e)
  }

  lemma {:induction false} BusyUpdate(ws: seq<WorkerPc>, w: nat, pc: WorkerPc)
    requires w < |ws|
    ensures Busy(ws[w := pc]) == Busy(ws) - (if ws[w].Scoring? then 1 else 0) + (if pc.Scoring? then 1 else 0)
  {
    if w == 0 {
      assert ws[w := pc][1..] == ws[1..];
    } else {
      BusyUpdate(ws[1..], w - 1, pc);
      assert ws[w := pc][1..] == ws[1..][w - 1 := pc];
    }
  }

  lemma {:induction false} InFlightUpdate(ws: seq<WorkerPc>, w: nat, pc: WorkerPc, e: Event)
    requires w < |ws|
    ensures InFlight(ws[w := pc], e) ==
            InFlight(ws, e) - (if ws[w] == Scoring(e) then 1 else 0) + (if pc == Scoring(e) then 1 else 0)
  {
    if w == 0 {
      assert ws[w := pc][1..] == ws[1..];
    } else {
      InFlightUpdate(ws[1..], w - 1, pc, e);
      assert ws[w := pc][1..] == ws[1..][w - 1 := pc];
    }
  }

  lemma {:induction false} BusyZero(ws: seq<WorkerPc>)
    ensures Busy(ws) == 0 <==> forall w :: 0 <= w < |ws| ==> !ws[w].Scoring?
    ensures Busy(ws) == 0 ==> forall e :: InFlight(ws, e) == 0
  {
    if ws != [] {
      BusyZero(ws[1..]);
      assert forall w :: 1 <= w < |ws| ==> ws[w] == ws[1..][w - 1];
      assert forall w :: 0 <= w < |ws[1..]| ==> ws[1..][w] == ws[w + 1];
    }
  }

  // ----- the invariant

  function Count(es: seq<Event>, e: Event): nat {
    multiset(es)[e]
  }

  /** The queue is what was put less what was taken, in order; and each event taken is
      with a worker, scored or failed, as often as it was taken. */
  ghost predicate Conserved(s: State) {
    && s.hist.dequeued + s.queue == s.hist.produced
    && (forall e :: Count(s.hist.dequeued, e) ==
                    InFlight(s.workers, e) + Count(s.hist.scored, e) + Count(s.hist.failed, e))
    && s.hist.lost == []
  }

  ghost predicate Counted(s: State) {
    && s.unfinished == |s.queue| + Busy(s.workers)
    && |s.hist.dequeued| == Busy(s.workers) + |s.hist.scored| + |s.hist.failed|
    && s.produced == |s.hist.produced|
    && s.scored == |s.hist.scored| == |s.decisions|
    && s.errors == |s.hist.failed|
    && (s.maxsize > 0 ==> |s.queue| <= s.maxsize)
    && forall i :: 0 <= i < |s.decisions| ==>
         s.decisions[i].txId == s.hist.scored[i].txId && s.decisions[i].bankId == s.hist.scored[i].bankId
  }

  ghost predicate Ordered(s: State) {
    && (s.producerDone <==> s.producer.Stopped?)
    && (!s.main.AwaitingProducer? ==> s.producerDone)
    && (!Running(s) ==> s.unfinished == 0)
    && (s.pipelineDone <==> s.main.Finished?)
    && (forall w :: 0 <= w < |s.workers| && s.workers[w].Exited? ==> s.producerDone && s.queue == [])
    && (forall w :: 0 <= w < |s.workers| && s.workers[w].Cancelled? ==> !Running(s))
    && (s.main.Finished? ==> forall w :: 0 <= w < |s.workers| ==> Terminated(s.workers[w]))
  }

  ghost predicate Inv(s: State) {
    Conserved(s) && Counted(s) && Ordered(s)
  }

  lemma InitInv(nWorkers: nat, maxsize: int, events: nat)
    ensures Inv(Init(nWorkers, maxsize, events))
  {
    BusyZero(Init(nWorkers, maxsize, events).workers);
  }

  lemma PutInv(s: State, e: Event, left: nat)
    requires Inv(s) && !Full(s) && !s.producer.Stopped?
    ensures Inv(Put(s, e, left))
  {
    assert s.hist.dequeued + (s.queue + [e]) == s.hist.produced + [e];
  }

  lemma TakeInv(s: State, w: nat)
    requires Inv(s) && Enabled(s, Take(w))
    ensures Inv(Apply(s, Take(w)))
  {
    TakeConserves(s, w);
    BusyUpdate(s.workers, w, Scoring(s.queue[0]));
  }

  lemma TakeConserves(s: State, w: nat)
    requires Conserved(s) && Enabled(s, Take(w))
    ensures Conserved(Apply(s, Take(w)))
  {
    var e := s.queue[0];
    var t := Apply(s, Take(w));
    assert t.hist.dequeued + t.queue == s.hist.produced by {
      assert s.queue == [e] + s.queue[1..];
    }
    forall x ensures Count(t.hist.dequeued, x) ==
                     InFlight(t.workers, x) + Count(t.hist.scored, x) + Count(t.hist.failed, x)
    {
      InFlightUpdate(s.workers, w, Scoring(e), x);
    }
  }

  lemma SettleConserves(s: State, w: nat, o: Outcome)
    requires Conserved(s) && w < |s.workers| && s.workers[w].Scoring?
    ensures Conserved(Settled(s, w, o))
  {
    var t := Settled(s, w, o);
    forall x ensures Count(t.hist.dequeued, x) ==
                     InFlight(t.workers, x) + Count(t.hist.scored, x) + Count(t.hist.failed, x)
    {
      InFlightUpdate(s.workers, w, Polling, x);
    }
  }

  lemma SettleCounts(s: State, w: nat, o: Outcome)
    requires Counted(s) && w < |s.workers| && s.workers[w].Scoring?
    ensures Counted(Settled(s, w, o))
  {
    BusyUpdate(s.workers, w, Polling);
  }

  lemma SettleInv(s: State, w: nat, o: Outcome)
    requires Inv(s) && Enabled(s, Settle(w, o))
    ensures Inv(Apply(s, Settle(w, o)))
  {
    SettleConserves(s, w, o);
    SettleCounts(s, w, o);
  }

  /** A worker that scores holds an event not yet marked done. */
  lemma OpenWhileScoring(s: State, w: nat)
    requires Inv(s) && w < |s.workers| && s.workers[w].Scoring?
    ensures s.unfinished > 0
  {
    BusyZero(s.workers);
  }

  /** An idle worker's end changes no count. */
  lemma RetireInv(s: State, w: nat, pc: WorkerPc)
    requires Inv(s) && w < |s.workers| && s.workers[w].Polling? && Terminated(pc)
    requires if pc.Exited? then Running(s) && s.producerDone && s.queue == [] else s.main.Cancelling?
    ensures Inv(s.(workers := s.workers[w := pc]))
  {
    forall x ensures InFlight(s.workers[w := pc], x) == InFlight(s.workers, x) {
      InFlightUpdate(s.workers, w, pc, x);
    }
    BusyUpdate(s.workers, w, pc);
  }

  /** Once `unfinished` is zero nobody scores, so a cancellation only ends idle workers. */
  lemma CancelInv(s: State, w: nat)
    requires Inv(s) && Enabled(s, DeliverCancel(w))
    ensures s.workers[w].Polling?
    ensures Inv(Apply(s, DeliverCancel(w)))
  {
    BusyZero(s.workers);
    RetireInv(s, w, Cancelled);
  }

  lemma StepInv(s: State, a: Action)
    requires Inv(s) && Enabled(s, a)
    ensures Inv(Apply(s, a))
  {
    match a
    case Produce(e) => PutInv(s, e, s.producer.left - 1);
    case Unblock => PutInv(s, s.producer.event, s.producer.left);
    case Take(w) => TakeInv(s, w);
    case Leave(w) => RetireInv(s, w, Exited);
    case Settle(w, o) => SettleInv(s, w, o);
    case DeliverCancel(w) => CancelInv(s, w);
    case _ =>
  }

  lemma {:induction false} RunInv(s: State, run: seq<Action>, t: State)
    requires Inv(s) && Runs(s, run, t)
    ensures Inv(t)
    decreases |run|
  {
    if run != [] {
      StepInv(s, run[0]);
      RunInv(Apply(s, run[0]), run[1..], t);
    }
  }
}
