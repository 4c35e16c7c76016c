/** The tasks themselves, updating the shared queue, counters and decision list in place.  Each method
    is one task running from one `await` to the next and is proved to take a step of the state machine. */
module StreamTasks {
  import opened Options
  import opened StreamProtocol
  import opened StreamTheorems

  /** Whose turn the event loop gives next; the event and the outcome are what the outside supplies. */
  datatype Turn = ProducerTurn(event: Event) | WorkerTurn(w: nat, outcome: Outcome) | MainTurn

  /** What the task whose turn it is does before its next await; None when it is still waiting. */
  function ActionOf(s: State, turn: Turn): (r: Option<Action>)
    ensures r.Some? ==> Enabled(s, r.value)
  {
    match turn
    case ProducerTurn(e) =>
      (match s.producer
       case Ready(left) =>
         if left == 0 then Some(StopProducer) else if Full(s) then Some(Block(e)) else Some(Produce(e))
       case Blocked(_, _) => if Full(s) then None else Some(Unblock)
       case Stopped => None)
    case WorkerTurn(w, o) =>
      if w >= |s.workers| || Terminated(s.workers[w]) || s.main.Finished? then None
      else if s.main.Cancelling? then Some(DeliverCancel(w))
      else if s.workers[w].Scoring? then Some(Settle(w, o))
      else if s.queue != [] then Some(Take(w))
      else if s.producerDone then Some(Leave(w)) else Some(Poll(w))
    case MainTurn =>
      if Enabled(s, BeginJoin) then Some(BeginJoin)
      else if Enabled(s, EndJoin) then Some(EndJoin)
      else if Enabled(s, Gather) then Some(Gather) else None
  }

  /** The action is one of the task whose turn it is, with the event or the outcome the turn supplies. */
  predicate Gives(turn: Turn, a: Action) {
    match a
    case Produce(e) => turn == ProducerTurn(e)
    case Block(e) => turn == ProducerTurn(e)
    case Unblock => turn.ProducerTurn?
    case StopProducer => turn.ProducerTurn?
    case Poll(w) => turn.WorkerTurn? && turn.w == w
    case Take(w) => turn.WorkerTurn? && turn.w == w
    case Leave(w) => turn.WorkerTurn? && turn.w == w
    case Settle(w, o) => turn == WorkerTurn(w, o)
    case DeliverCancel(w) => turn.WorkerTurn? && turn.w == w
    case _ => turn.MainTurn?
  }

  function TakeTurn(s: State, turn: Turn): State {
    match ActionOf(s, turn)
    case Some(a) => Apply(s, a)
    case None => s
  }

  function Follow(s: State, turns: seq<Turn>): State {
    if turns == [] then s else TakeTurn(Follow(s, turns[..|turns| - 1]), turns[|turns| - 1])
  }

  lemma {:induction false} RunsExtend(s: State, run: seq<Action>, t: State, a: Action)
    requires Runs(s, run, t) && Enabled(t, a)
    ensures Runs(s, run + [a], Apply(t, a))
    decreases |run|
  {
    if run != [] {
      RunsExtend(Apply(s, run[0]), run[1..], t, a);
      assert (run + [a])[1..] == run[1..] + [a];
    } else {
      assert (run + [a])[1..] == [];
    }
  }

  /** The k-th action is taken in turn `at[k]`. */
  ghost predicate TakenAt(turns: seq<Turn>, run: seq<Action>, at: seq<nat>) {
    && |at| == |run| && (forall k, l :: 0 <= k < l < |at| ==> at[k] < at[l])
    && forall k :: 0 <= k < |run| ==> at[k] < |turns| && Gives(turns[at[k]], run[k])
  }

  lemma TakenLater(turns: seq<Turn>, run: seq<Action>, at: seq<nat>, n: nat)
    requires n < |turns| && TakenAt(turns[..n], run, at)
    ensures TakenAt(turns, run, at)
  {
    forall k | 0 <= k < |run| ensures at[k] < |turns| && Gives(turns[at[k]], run[k]) {
      assert turns[..n][at[k]] == turns[at[k]];
    }
  }

  lemma TakenNow(turns: seq<Turn>, run: seq<Action>, at: seq<nat>, n: nat, a: Action)
    requires n < |turns| && TakenAt(turns[..n], run, at) && Gives(turns[n], a)
    ensures TakenAt(turns, run + [a], at + [n])
  {
    TakenLater(turns, run, at, n);
  }

  /** Every schedule of turns is a run of the state machine, so whatever holds of all runs holds of it, and
      each of its actions takes what its turn supplies. */
  lemma {:induction false} ScheduleIsRun(s: State, turns: seq<Turn>) returns (run: seq<Action>, at: seq<nat>)
    ensures Runs(s, run, Follow(s, turns))
    ensures TakenAt(turns, run, at)
  {
    if turns == [] {
      run, at := [], [];
    } else {
      var n := |turns| - 1;
      run, at := ScheduleIsRun(s, turns[..n]);
      var t := Follow(s, turns[..n]);
      var a := ActionOf(t, turns[n]);
      if a.Some? {
        RunsExtend(s, run, t, a.value);
        TakenNow(turns, run, at, n, a.value);
        run, at := run + [a.value], at + [n];
      } else {
        TakenLater(turns, run, at, n);
      }
    }
  }

  class Pipeline {
    const maxsize: int
    var queue: seq<Event>
    var unfinished: int
    var decisions: seq<Decision>
    var produced: nat
    var scored: nat
    var errors: nat
    var producerDone: bool
    var pipelineDone: bool
    var producer: ProducerPc
    var workers: seq<WorkerPc>
    var main: MainPc
    ghost var hist: History

    ghost function View(): State
      reads this
    {
      State(maxsize, queue, unfinished, producer, workers, main, decisions,
            produced, scored, errors, producerDone, pipelineDone, hist)
    }

    constructor (tps: real, nWorkers: nat, events: nat)
      ensures View() == Init(nWorkers, QueueCapacity(tps), events)
    {
      maxsize := QueueCapacity(tps);
      queue, unfinished, decisions := [], 0, [];
      produced, scored, errors := 0, 0, 0;
      producerDone, pipelineDone := false, false;
      producer, workers, main := Ready(events), seq(nWorkers, _ => Polling), AwaitingProducer;
      hist := History([], [], [], [], []);
    }

    // ----- the queue

    predicate IsFull()
      reads this
      ensures IsFull() == Full(View())
    {
      maxsize > 0 && |queue| >= maxsize
    }

    method PutNowait(e: Event)
      modifies this`queue, this`unfinished, this`hist
      ensures View() == old(View()).(queue := old(queue) + [e], unfinished := old(unfinished) + 1,
                                     hist := old(hist).(produced := old(hist).produced + [e]))
    {
      queue := queue + [e];
      unfinished := unfinished + 1;
      hist := hist.(produced := hist.produced + [e]);
    }

    /** None stands for `QueueEmpty`. */
    method GetNowait() returns (r: Option<Event>)
      modifies this`queue, this`hist
      ensures r.None? <==> old(queue) == []
      ensures r.None? ==> View() == old(View())
      ensures r.Some? ==> old(queue) == [r.value] + queue
      ensures r.Some? ==> View() == old(View()).(queue := old(queue)[1..],
                                                 hist := old(hist).(dequeued := old(hist).dequeued + [r.value]))
    {
      if queue == [] {
        return None;
      }
      r := Some(queue[0]);
      hist := hist.(dequeued := hist.dequeued + [queue[0]]);
      queue := queue[1..];
    }

    /** Python raises `ValueError` here when called more often than events were put; `Inv` excludes it. */
    method TaskDone()
      requires unfinished > 0
      modifies this`unfinished
      ensures View() == old(View()).(unfinished := old(unfinished) - 1)
    {
      unfinished := unfinished - 1;
    }

    // ----- the producer

    method ResumeProducer(event: Event)
      modifies this
      ensures View() == TakeTurn(old(View()), ProducerTurn(event))
    {
      match producer
      case Stopped =>
      case Blocked(e, left) =>
        if !IsFull() {
          CompletePut(e, left);
        }
      case Ready(left) =>
        if left == 0 {
          producerDone := true;
          producer := Stopped;
        } else if IsFull() {
          producer := Blocked(event, left - 1);
        } else {
          CompletePut(event, left - 1);
        }
    }

    method CompletePut(e: Event, left: nat)
      modifies this
      ensures View() == Put(old(View()), e, left)
    {
      PutNowait(e);
      produced := produced + 1;
      producer := Ready(left);
    }

    // ----- a worker

    method ResumeWorker(w: nat, outcome: Outcome)
      requires Inv(View()) && w < |workers|
      modifies this
      ensures View() == TakeTurn(old(View()), WorkerTurn(w, outcome))
    {
      if workers[w].Exited? || workers[w].Cancelled? || main.Finished? {
        return;
      }
      if main.Cancelling? {
        BusyZero(workers);
        ReceiveCancel(w);
      } else if workers[w].Scoring? {
        SettleScoring(w, outcome);
      } else {
        PollQueue(w);
      }
    }

    /** `CancelledError` raised at the await where the worker stands. */
    method ReceiveCancel(w: nat)
      requires w < |workers| && (workers[w].Scoring? ==> unfinished > 0)
      modifies this
      ensures View() == CancelDelivered(old(View()), w)
    {
      if workers[w].Scoring? {
        hist := hist.(lost := hist.lost + [workers[w].event]);
        TaskDone();
      }
      workers := workers[w := Cancelled];
    }

    /** The head of the worker's loop: take an event, leave, or sleep a millisecond. */
    method PollQueue(w: nat)
      requires w < |workers| && workers[w].Polling? && (main.AwaitingProducer? || main.Joining?)
      modifies this
      ensures queue == if old(queue) == [] then [] else old(queue)[1..]
      ensures View() == TakeTurn(old(View()), WorkerTurn(w, Raised))
    {
      var r := GetNowait();
      match r
      case Some(e) => workers := workers[w := Scoring(e)];
      case None =>
        if producerDone && queue == [] {
          workers := workers[w := Exited];
        }
    }

    method SettleScoring(w: nat, outcome: Outcome)
      requires Inv(View()) && Enabled(View(), Settle(w, outcome))
      modifies this
      ensures View() == Apply(old(View()), Settle(w, outcome))
    {
      OpenWhileScoring(View(), w);
      var e := workers[w].event;
      if outcome.Accepted? {
        decisions := decisions + [DecisionOf(e, outcome)];
        scored := scored + 1;
        hist := hist.(scored := hist.scored + [e]);
      } else {
        errors := errors + 1;
        hist := hist.(failed := hist.failed + [e]);
      }
      TaskDone();
      workers := workers[w := Polling];
    }

    // ----- the main task

    /** `await producer`, `queue.join()`, cancel all, gather. */
    method ResumeMain()
      modifies this
      ensures View() == TakeTurn(old(View()), MainTurn)
    {
      match main
      case AwaitingProducer =>
        if producer.Stopped? {
          main := Joining;
        }
      case Joining =>
        if unfinished <= 0 {
          main := Cancelling;
        }
      case Cancelling =>
        if forall w :: 0 <= w < |workers| ==> Terminated(workers[w]) {
          main := Finished;
          pipelineDone := true;
        }
      case Finished =>
    }

    /** The event loop under an arbitrary schedule. */
    method Drive(turns: seq<Turn>)
      requires Inv(View())
      modifies this
      ensures View() == Follow(old(View()), turns) && Inv(View())
    {
      for i := 0 to |turns|
        invariant View() == Follow(old(View()), turns[..i]) && Inv(View())
      {
        ghost var before := View();
        assert turns[..i + 1][..i] == turns[..i];
        match turns[i] {
          case ProducerTurn(e) => ResumeProducer(e);
          case WorkerTurn(w, o) => if w < |workers| { ResumeWorker(w, o); }
          case MainTurn => ResumeMain();
        }
        ghost var a := ActionOf(before, turns[i]);
        if a.Some? {
          StepInv(before, a.value);
        }
      }
      assert turns[..|turns|] == turns;
    }
  }
}
