/** Termination under every fair schedule: give each task a turn often enough and the pipeline finishes. */
module StreamFairness {
  import opened StreamProtocol
  import opened StreamTheorems
  import opened StreamTasks

  /** A stretch of the schedule in which every task has at least one turn, in any order. */
  ghost predicate FairRound(nWorkers: nat, turns: seq<Turn>) {
    && (exists i :: 0 <= i < |turns| && turns[i].ProducerTurn?)
    && MainTurn in turns
    && (forall w: nat :: w < nWorkers ==> HasWorkerTurn(turns, w))
  }

  ghost predicate HasWorkerTurn(turns: seq<Turn>, w: nat) {
    exists i :: 0 <= i < |turns| && turns[i].WorkerTurn? && turns[i].w == w
  }

  function Flatten(rounds: seq<seq<Turn>>): seq<Turn> {
    if rounds == [] then [] else rounds[0] + Flatten(rounds[1..])
  }

  predicate Idle(s: State, turn: Turn) {
    ActionOf(s, turn).None? || ActionOf(s, turn).value.Poll?
  }

  lemma TurnKeeps(s: State, turn: Turn)
    requires Inv(s)
    ensures Inv(TakeTurn(s, turn)) && |TakeTurn(s, turn).workers| == |s.workers|
    ensures if Idle(s, turn) then TakeTurn(s, turn) == s else Work(TakeTurn(s, turn)) < Work(s)
  {
    var a := ActionOf(s, turn);
    if a.Some? {
      StepInv(s, a.value);
      StepWork(s, a.value);
      StepKeepsSetup(s, a.value);
    }
  }

  ghost predicate AllIdle(s: State, turns: seq<Turn>) {
    forall i :: 0 <= i < |turns| ==> Idle(s, turns[i])
  }

  lemma {:induction false} TurnsKeep(s: State, turns: seq<Turn>)
    requires Inv(s)
    ensures Inv(Follow(s, turns)) && |Follow(s, turns).workers| == |s.workers|
    ensures Work(Follow(s, turns)) <= Work(s)
    ensures Work(Follow(s, turns)) == Work(s) ==> Follow(s, turns) == s && AllIdle(s, turns)
  {
    if turns != [] {
      var n := |turns| - 1;
      var t := Follow(s, turns[..n]);
      TurnsKeep(s, turns[..n]);
      TurnKeeps(t, turns[n]);
      if Work(TakeTurn(t, turns[n])) == Work(s) {
        AllIdleExtends(s, turns);
      }
    }
  }

  lemma AllIdleExtends(s: State, turns: seq<Turn>)
    requires turns != [] && AllIdle(s, turns[..|turns| - 1]) && Idle(s, turns[|turns| - 1])
    ensures AllIdle(s, turns)
  {
    forall i | 0 <= i < |turns| ensures Idle(s, turns[i]) {
      if i < |turns| - 1 {
        assert turns[i] == turns[..|turns| - 1][i];
      }
    }
  }

  /** While the pipeline is unfinished some task's turn does more than poll. */
  lemma FairRoundWorks(s: State, turns: seq<Turn>)
    requires Inv(s) && s.workers != [] && !s.main.Finished? && FairRound(|s.workers|, turns)
    ensures Work(Follow(s, turns)) < Work(s)
  {
    TurnsKeep(s, turns);
    if Work(Follow(s, turns)) == Work(s) {
      var p :| 0 <= p < |turns| && turns[p].ProducerTurn?;
      assert Idle(s, turns[p]) && Idle(s, MainTurn);
      forall w: nat | w < |s.workers| ensures WorkerIdle(s, w) {
        assert HasWorkerTurn(turns, w);
      }
      SomeTurnWorks(s, turns[p]);
      assert false;
    }
  }

  predicate WorkerIdle(s: State, w: nat) {
    w < |s.workers| ==>
      Terminated(s.workers[w]) || s.main.Finished? ||
      (!s.main.Cancelling? && s.workers[w].Polling? && s.queue == [] && !s.producerDone)
  }

  lemma SomeTurnWorks(s: State, producerTurn: Turn)
    requires Inv(s) && s.workers != [] && !s.main.Finished? && producerTurn.ProducerTurn?
    ensures Idle(s, producerTurn) && Idle(s, MainTurn) ==> exists w: nat :: w < |s.workers| && !WorkerIdle(s, w)
  {
    BusyZero(s.workers);
    if s.main.Cancelling? {
      if w: nat :| w < |s.workers| && !Terminated(s.workers[w]) {
        assert !WorkerIdle(s, w);
      } else {
        assert Enabled(s, Gather);
      }
    } else if w: nat :| w < |s.workers| && s.workers[w].Scoring? {
      assert !WorkerIdle(s, w);
    } else if s.queue != [] {
      assert !WorkerIdle(s, 0);
    } else {
      assert s.unfinished == 0;
    }
  }

  lemma {:induction false} FollowCompose(s: State, a: seq<Turn>, b: seq<Turn>)
    ensures Follow(s, a + b) == Follow(Follow(s, a), b)
  {
    if b == [] {
      assert a + b == a;
    } else {
      var n := |b| - 1;
      FollowCompose(s, a, b[..n]);
      assert (a + b)[..|a + b| - 1] == a + b[..n];
    }
  }

  lemma {:induction false} FinishedStays(s: State, turns: seq<Turn>)
    requires Inv(s) && s.main.Finished?
    ensures Follow(s, turns).main.Finished?
  {
    if turns != [] {
      FinishedStays(s, turns[..|turns| - 1]);
    }
  }

  lemma {:induction false} RoundsFinish(s: State, rounds: seq<seq<Turn>>)
    requires Inv(s) && s.workers != [] && |rounds| >= Work(s)
    requires forall i :: 0 <= i < |rounds| ==> FairRound(|s.workers|, rounds[i])
    ensures Follow(s, Flatten(rounds)).main.Finished?
    decreases |rounds|
  {
    if s.main.Finished? {
      FinishedStays(s, Flatten(rounds));
    } else {
      assert Work(s) > 0;
      FairRoundWorks(s, rounds[0]);
      TurnsKeep(s, rounds[0]);
      RoundsFinish(Follow(s, rounds[0]), rounds[1..]);
      FollowCompose(s, rounds[0], Flatten(rounds[1..]));
    }
  }

  function WorkBound(nWorkers: nat, events: nat): nat {
    4 * events + nWorkers + 4
  }

  lemma {:induction false} InitialWork(nWorkers: nat, maxsize: int, events: nat)
    ensures Work(Init(nWorkers, maxsize, events)) == WorkBound(nWorkers, events)
  {
    IdleWorkersWork(Init(nWorkers, maxsize, events).workers);
  }

  lemma {:induction false} IdleWorkersWork(ws: seq<WorkerPc>)
    requires forall w :: 0 <= w < |ws| ==> ws[w].Polling?
    ensures WorkersWork(ws) == |ws|
  {
    if ws != [] {
      IdleWorkersWork(ws[1..]);
    }
  }

  /** With at least one worker, after `4 * events + nWorkers + 4` fair rounds the run is over whatever the
      order of turns in a round and the outcomes of the calls, and every event was scored or counted as an error. */
  lemma FairSchedulesFinish(nWorkers: nat, maxsize: int, events: nat, rounds: seq<seq<Turn>>)
    requires nWorkers > 0 && |rounds| >= WorkBound(nWorkers, events)
    requires forall i :: 0 <= i < |rounds| ==> FairRound(nWorkers, rounds[i])
    ensures var t := Follow(Init(nWorkers, maxsize, events), Flatten(rounds));
            t.main.Finished? && t.produced == events == t.scored + t.errors && t.queue == []
  {
    var s := Init(nWorkers, maxsize, events);
    InitInv(nWorkers, maxsize, events);
    InitialWork(nWorkers, maxsize, events);
    RoundsFinish(s, rounds);
    var run, at := ScheduleIsRun(s, Flatten(rounds));
    FinishedAccounting(nWorkers, maxsize, events, run, Follow(s, Flatten(rounds)));
  }
}
