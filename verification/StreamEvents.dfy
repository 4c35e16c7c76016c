/** Which events a run handles and which replies it records: those that were offered to it, unaltered and in order. */
module StreamEvents {
  import opened Options
  import opened StreamProtocol
  import opened StreamTheorems
  import opened StreamTasks

  // ----- the events offered

  /** The event built in an action, whether it is put at once or has to wait. */
  function Built(a: Action): seq<Event> {
    if a.Produce? || a.Block? then [a.event] else []
  }

  /** The events built by the producer in a run. */
  function Offered(run: seq<Action>): seq<Event> {
    if run == [] then [] else Built(run[0]) + Offered(run[1..])
  }

  /** The event the producer waits with. */
  function Waiting(s: State): seq<Event> {
    if s.producer.Blocked? then [s.producer.event] else []
  }

  lemma StepOffers(s: State, a: Action)
    requires Enabled(s, a)
    ensures Apply(s, a).hist.produced + Waiting(Apply(s, a)) == s.hist.produced + Waiting(s) + Built(a)
  {
  }

  lemma Regroup(a: seq<Event>, b: seq<Event>, c: seq<Event>)
    ensures a + b + c == a + (b + c)
  {
  }

  lemma {:induction false} RunOffers(s: State, run: seq<Action>, t: State)
    requires Runs(s, run, t)
    ensures t.hist.produced + Waiting(t) == s.hist.produced + Waiting(s) + Offered(run)
    decreases |run|
  {
    if run != [] {
      StepOffers(s, run[0]);
      RunOffers(Apply(s, run[0]), run[1..], t);
      Regroup(s.hist.produced + Waiting(s), Built(run[0]), Offered(run[1..]));
    }
  }

  /** At every point of every run the events taken, those queued and the one the producer waits with are, in
      order, the events offered. */
  lemma HandledAsOffered(nWorkers: nat, maxsize: int, events: nat, run: seq<Action>, t: State)
    requires Runs(Init(nWorkers, maxsize, events), run, t)
    ensures t.hist.produced + Waiting(t) == Offered(run)
    ensures t.hist.dequeued + t.queue + Waiting(t) == Offered(run)
  {
    StartsEmpty(nWorkers, maxsize, events);
    RunOffers(Init(nWorkers, maxsize, events), run, t);
    assert [] + Offered(run) == Offered(run);
    TakenAndQueued(nWorkers, maxsize, events, run, t);
  }

  lemma StartsEmpty(nWorkers: nat, maxsize: int, events: nat)
    ensures Init(nWorkers, maxsize, events).hist.produced + Waiting(Init(nWorkers, maxsize, events)) == []
  {
  }

  lemma TakenAndQueued(nWorkers: nat, maxsize: int, events: nat, run: seq<Action>, t: State)
    requires Runs(Init(nWorkers, maxsize, events), run, t)
    ensures t.hist.dequeued + t.queue == t.hist.produced
  {
    Conservation(nWorkers, maxsize, events, run, t);
  }

  lemma ScoredWereProduced(nWorkers: nat, maxsize: int, events: nat, run: seq<Action>, t: State, e: Event)
    requires Runs(Init(nWorkers, maxsize, events), run, t) && e in t.hist.scored
    ensures e in t.hist.produced
  {
    Conservation(nWorkers, maxsize, events, run, t);
    assert Count(t.hist.scored, e) > 0;
    assert Count(t.hist.produced, e) > 0;
  }

  // ----- what a schedule supplies

  /** The event was supplied to the producer, the reply to a worker. */
  ghost predicate Supplied(turns: seq<Turn>, e: Event, o: Outcome) {
    ProducerTurn(e) in turns && exists w :: WorkerTurn(w, o) in turns
  }

  lemma {:induction false} OfferedMember(run: seq<Action>, e: Event) returns (k: nat)
    requires e in Offered(run)
    ensures k < |run| && (run[k] == Produce(e) || run[k] == Block(e))
  {
    if run[0] == Produce(e) || run[0] == Block(e) {
      k := 0;
    } else {
      k := OfferedMember(run[1..], e);
      k := k + 1;
    }
  }

  lemma {:induction false} OutcomeMember(run: seq<Action>, o: Outcome) returns (k: nat)
    requires o in Outcomes(run, true)
    ensures k < |run| && run[k].Settle? && run[k].outcome == o
  {
    if run[0].Settle? && run[0].outcome == o {
      k := 0;
    } else {
      k := OutcomeMember(run[1..], o);
      k := k + 1;
    }
  }

  /** The decision is about an event supplied to the producer and says what a supplied reply answered. */
  ghost predicate Sourced(turns: seq<Turn>, d: Decision) {
    exists e, o :: Supplied(turns, e, o) && Records(d, e, o)
  }

  lemma DecisionSupplied(nWorkers: nat, maxsize: int, events: nat, turns: seq<Turn>, i: nat)
    requires i < |Follow(Init(nWorkers, maxsize, events), turns).decisions|
    ensures var t := Follow(Init(nWorkers, maxsize, events), turns);
            Sourced(turns, t.decisions[i])
  {
    var t := Follow(Init(nWorkers, maxsize, events), turns);
    var run, at := ScheduleIsRun(Init(nWorkers, maxsize, events), turns);
    DecisionsFollowOutcomes(nWorkers, maxsize, events, run, t);
    var e, o := t.hist.scored[i], Outcomes(run, true)[i];
    ScoredWereProduced(nWorkers, maxsize, events, run, t, e);
    HandledAsOffered(nWorkers, maxsize, events, run, t);
    assert e in t.hist.produced + Waiting(t);
    var k := OfferedMember(run, e);
    assert Gives(turns[at[k]], run[k]) && turns[at[k]] == ProducerTurn(e);
    var l := OutcomeMember(run, o);
    assert Gives(turns[at[l]], run[l]) && turns[at[l]] == WorkerTurn(run[l].w, o);
    assert Supplied(turns, e, o) && Records(t.decisions[i], e, o);
  }

  /** Under any schedule every decision carries the identity of an event supplied to the producer and the answer
      of a reply supplied to a worker. */
  lemma DecisionsSupplied(nWorkers: nat, maxsize: int, events: nat, turns: seq<Turn>)
    ensures var t := Follow(Init(nWorkers, maxsize, events), turns);
            forall i :: 0 <= i < |t.decisions| ==> Sourced(turns, t.decisions[i])
  {
    var t := Follow(Init(nWorkers, maxsize, events), turns);
    forall i | 0 <= i < |t.decisions| ensures Sourced(turns, t.decisions[i]) {
      DecisionSupplied(nWorkers, maxsize, events, turns, i);
    }
  }

  // ----- the capacity

  ghost predicate QueueReaches(nWorkers: nat, maxsize: int, events: nat, q: nat) {
    exists run, t :: Runs(Init(nWorkers, maxsize, events), run, t) && |t.queue| == q
  }

  lemma {:induction false} FillQueue(s: State, q: nat) returns (run: seq<Action>, t: State)
    requires s.producer.Ready? && s.producer.left >= q && (s.maxsize > 0 ==> |s.queue| + q <= s.maxsize)
    ensures Runs(s, run, t) && |t.queue| == |s.queue| + q
    decreases q
  {
    if q == 0 {
      run, t := [], s;
    } else {
      var a := Produce(Event("", "", 0.0, 0.0));
      var rest;
      rest, t := FillQueue(Apply(s, a), q - 1);
      run := [a] + rest;
      assert run[1..] == rest;
    }
  }

  /** The queue can hold any number of the events up to a positive capacity, and no more. */
  lemma CapacityExactly(nWorkers: nat, maxsize: int, events: nat, q: nat)
    ensures QueueReaches(nWorkers, maxsize, events, q) <==> q <= events && (maxsize > 0 ==> q <= maxsize)
  {
    if q <= events && (maxsize > 0 ==> q <= maxsize) {
      var run, t := FillQueue(Init(nWorkers, maxsize, events), q);
    }
    if QueueReaches(nWorkers, maxsize, events, q) {
      var run, t :| Runs(Init(nWorkers, maxsize, events), run, t) && |t.queue| == q;
      Conservation(nWorkers, maxsize, events, run, t);
    }
  }

  // ----- the whole pipeline

  /** The whole pipeline under any schedule; the answer is None while the schedule leaves it unfinished. */
  method RunStreamPipeline(tps: real, nWorkers: nat, events: nat, turns: seq<Turn>)
    returns (decisions: Option<seq<Decision>>, scored: nat, errors: nat)
    ensures var final := Follow(Init(nWorkers, QueueCapacity(tps), events), turns);
            && decisions == (if final.main.Finished? then Some(final.decisions) else None)
            && scored == final.scored && errors == final.errors
    ensures decisions.Some? ==> scored + errors == events && |decisions.value| == scored
    ensures decisions.Some? ==>
              forall i :: 0 <= i < scored ==> Sourced(turns, decisions.value[i])
  {
    var p := new Pipeline(tps, nWorkers, events);
    ghost var start := p.View();
    InitInv(nWorkers, p.maxsize, events);
    p.Drive(turns);
    scored, errors, decisions := p.scored, p.errors, None;
    if p.main.Finished? {
      ghost var run, at := ScheduleIsRun(start, turns);
      DecisionsSupplied(nWorkers, p.maxsize, events, turns);
      FinishedAccounting(nWorkers, p.maxsize, events, run, p.View());
      decisions := Some(p.decisions);
    }
  }
}
