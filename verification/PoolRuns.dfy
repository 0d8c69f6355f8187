/** Stretches of runs: what a thread that is left alone gets done. */
module PoolRuns {
  import opened PoolMachine
  import opened PoolTheorems

  lemma Do(c: Config, s: State, a: Action) returns (s': State)
    requires Reachable(c, s) && c.capacity >= 1 && Enabled(s, a)
    ensures Reachable(c, s') && s' == Step(c, s, a)
  {
    s' := Step(c, s, a);
    ReachableStep(c, s, a, s');
  }

  // Workers.

  lemma Wait(c: Config, s: State, i: nat) returns (s': State)
    requires Reachable(c, s) && c.capacity >= 1 && WorkerEnabled(s, i)
    requires !Taking(s.workers[i].pc) && !Running(s.workers[i].pc)
    ensures Reachable(c, s') && s' == WaitStep(c, s, i)
  {
    s' := Do(c, s, Work(i));
  }

  lemma Take(c: Config, s: State, i: nat) returns (s': State)
    requires Reachable(c, s) && c.capacity >= 1 && i < |s.workers| && Taking(s.workers[i].pc)
    ensures Reachable(c, s') && s' == TakeStep(c, s, i)
  {
    s' := Do(c, s, Work(i));
  }

  /** A worker takes the lock and tests the size, line 95. */
  lemma TestSize(c: Config, s: State, i: nat) returns (s': State)
    requires Reachable(c, s) && c.capacity >= 1 && i < |s.workers| && s.workers[i].pc == WEnter
    requires s.lock == Nobody && s.sh.size == 0
    ensures Reachable(c, s')
    ensures s' == s.(lock := OwnW(i), workers := s.workers[i := s.workers[i].(pc := W95s)])
  {
    hide Reachable;
    s' := Wait(c, s, i);
    s' := Wait(c, s', i);
  }

  /** A worker that finds nothing to do goes to sleep, lines 95 to 97. */
  lemma FallAsleep(c: Config, s: State, i: nat) returns (s': State)
    requires Reachable(c, s) && c.capacity >= 1 && i < |s.workers| && s.workers[i].pc == WEnter
    requires s.lock == Nobody && s.sh.size == 0 && !s.sh.shutdown
    ensures Reachable(c, s') && s' == s.(workers := s.workers[i := s.workers[i].(pc := WSleep)])
  {
    hide Reachable;
    s' := TestSize(c, s, i);
    s' := Wait(c, s', i);
    s' := Wait(c, s', i);
  }

  /** What a worker leaves alone while it takes and runs one task. */
  ghost predicate OneWorker(s: State, s': State, i: nat, pc: WPc) {
    && |s'.workers| == |s.workers| && i < |s.workers|
    && s'.workers == s.workers[i := s'.workers[i]] && s'.workers[i].pc == pc
    && |s'.producers| == |s.producers|
    && (forall j :: 0 <= j < |s.producers| && s.producers[j].pc == PIdle ==> s'.producers[j].pc == PIdle)
    && s'.mgr == s.mgr && s'.sh.shutdown == s.sh.shutdown
    && s'.sh.live == s.sh.live && s'.sh.waitExit == s.sh.waitExit
  }

  /** Lines 95 to 116, with a task there. */
  lemma FindTask(c: Config, s: State, i: nat) returns (s': State)
    requires Reachable(c, s) && c.capacity >= 1 && i < |s.workers| && s.workers[i].pc == WEnter
    requires s.lock == Nobody && s.sh.size != 0 && !s.sh.shutdown
    ensures Reachable(c, s') && OneWorker(s, s', i, W124)
    ensures s'.lock == OwnW(i) && s'.counter == s.counter && s'.sh.size == s.sh.size
  {
    hide Reachable;
    s' := Wait(c, s, i);
    s' := Wait(c, s', i);
    s' := Wait(c, s', i);
  }

  /** Lines 124 to 130. */
  lemma CopyTask(c: Config, s: State, i: nat) returns (s': State)
    requires Reachable(c, s) && c.capacity >= 1 && i < |s.workers| && s.workers[i].pc == W124
    ensures Reachable(c, s') && OneWorker(s, s', i, W131)
    ensures s'.lock == s.lock && s'.counter == s.counter && s'.sh.size == s.sh.size
  {
    hide Reachable;
    s' := Take(c, s, i);
    s' := Take(c, s', i);
    s' := Take(c, s', i);
  }

  /** Lines 131 to 137. */
  lemma RemoveTask(c: Config, s: State, i: nat) returns (s': State)
    requires Reachable(c, s) && c.capacity >= 1 && i < |s.workers| && s.workers[i].pc == W131
    ensures Reachable(c, s') && OneWorker(s, s', i, W142)
    ensures s'.lock == Nobody && s'.counter == s.counter && s'.sh.size == s.sh.size - 1
  {
    hide Reachable;
    s' := Take(c, s, i);
    s' := Take(c, s', i);
    s' := Take(c, s', i);
  }

  function RunNext(pc: WPc): WPc {
    match pc
    case W142 => W143
    case W143 => W145
    case W145 => W148
    case W148 => W152
    case W152 => W153
    case W153 => W154
    case _ => WEnter
  }

  /** One statement of lines 142 to 154. */
  lemma Run(c: Config, s: State, i: nat) returns (s': State)
    requires Reachable(c, s) && c.capacity >= 1 && WorkerEnabled(s, i) && Running(s.workers[i].pc)
    ensures Reachable(c, s') && OneWorker(s, s', i, RunNext(s.workers[i].pc))
    ensures s'.lock == s.lock && s'.sh.size == s.sh.size
    ensures s'.counter == match s.workers[i].pc
      case W142 | W152 => OwnW(i)
      case W145 | W154 => Nobody
      case _ => s.counter
  {
    s' := Do(c, s, Work(i));
  }

  /** Lines 142 to 148. */
  lemma RunTask(c: Config, s: State, i: nat) returns (s': State)
    requires Reachable(c, s) && c.capacity >= 1 && i < |s.workers| && s.workers[i].pc == W142
    requires s.counter == Nobody
    ensures Reachable(c, s') && OneWorker(s, s', i, W152)
    ensures s'.lock == s.lock && s'.counter == Nobody && s'.sh.size == s.sh.size
  {
    hide Reachable;
    s' := Run(c, s, i);
    s' := Run(c, s', i);
    s' := Run(c, s', i);
    s' := Run(c, s', i);
  }

  /** Lines 152 to 154. */
  lemma EndTask(c: Config, s: State, i: nat) returns (s': State)
    requires Reachable(c, s) && c.capacity >= 1 && i < |s.workers| && s.workers[i].pc == W152
    requires s.counter == Nobody
    ensures Reachable(c, s') && OneWorker(s, s', i, WEnter)
    ensures s'.lock == s.lock && s'.counter == Nobody && s'.sh.size == s.sh.size
  {
    hide Reachable;
    s' := Run(c, s, i);
    s' := Run(c, s', i);
    s' := Run(c, s', i);
  }

  /** A worker at the top of its loop takes the oldest task, runs it and is back, lines 95 to 154. */
  lemma ServeOne(c: Config, s: State, i: nat) returns (s': State)
    requires Reachable(c, s) && c.capacity >= 1 && i < |s.workers| && s.workers[i].pc == WEnter
    requires s.lock == Nobody && s.counter == Nobody && s.sh.size != 0 && !s.sh.shutdown
    ensures Reachable(c, s') && OneWorker(s, s', i, WEnter)
    ensures s'.lock == Nobody && s'.counter == Nobody && s'.sh.size == s.sh.size - 1
  {
    hide Reachable;
    s' := FindTask(c, s, i);
    s' := CopyTask(c, s', i);
    s' := RemoveTask(c, s', i);
    s' := RunTask(c, s', i);
    s' := EndTask(c, s', i);
  }

  /** A sleeping worker may wake at any moment, unsignalled. */
  lemma WorkerWakes(c: Config, s: State, i: nat) returns (s': State)
    requires Reachable(c, s) && c.capacity >= 1 && i < |s.workers| && s.workers[i].pc == WSleep
    ensures Reachable(c, s') && s' == s.(workers := s.workers[i := s.workers[i].(pc := WWoken)])
  {
    hide Reachable;
    s' := Do(c, s, SpuriousW(i));
  }

  /** So may a sleeping producer. */
  lemma ProducerWakes(c: Config, s: State, j: nat) returns (s': State)
    requires Reachable(c, s) && c.capacity >= 1 && j < |s.producers| && s.producers[j].pc == PSleep
    ensures Reachable(c, s') && s' == s.(producers := s.producers[j := s.producers[j].(pc := PWoken)])
  {
    hide Reachable;
    s' := Do(c, s, SpuriousP(j));
  }

  // Producers.

  lemma Produces(c: Config, s: State, j: nat, task: Task) returns (s': State)
    requires Reachable(c, s) && c.capacity >= 1 && ProducerEnabled(s, j, 0)
    ensures Reachable(c, s') && s' == ProducerStep(c, s, j, task, 0)
  {
    s' := Do(c, s, Produce(j, task, 0));
  }

  /** What a producer leaves alone while it adds one task. */
  ghost predicate OneProducer(s: State, s': State, j: nat, pc: PPc) {
    && |s'.producers| == |s.producers| && j < |s.producers| && s'.producers[j].pc == pc
    && s'.mgr == s.mgr && s'.counter == s.counter
    && s'.sh.(queue := s.sh.queue, rear := s.sh.rear, size := s.sh.size) == s.sh
  }

  /** A producer that finds the ring full falls asleep, lines 292 to 297, and nothing else changes. */
  lemma ProducerWaits(c: Config, s: State, j: nat, task: Task) returns (s': State)
    requires Reachable(c, s) && c.capacity >= 1 && j < |s.producers| && s.producers[j].pc == PIdle
    requires s.lock == Nobody && s.sh.size == c.capacity && !s.sh.shutdown
    ensures Reachable(c, s') && s' == s.(producers := s.producers[j := Producer(PSleep, task)])
  {
    hide Reachable;
    s' := Produces(c, s, j, task);
    s' := Produces(c, s', j, task);
    s' := Produces(c, s', j, task);
    s' := Produces(c, s', j, task);
    s' := Produces(c, s', j, task);
  }

  /** A producer finds room, lines 292 to 300. */
  lemma FindRoom(c: Config, s: State, j: nat, task: Task) returns (s': State)
    requires Reachable(c, s) && c.capacity >= 1 && j < |s.producers| && s.producers[j].pc == PIdle
    requires s.lock == Nobody && s.sh.size != c.capacity && !s.sh.shutdown
    ensures Reachable(c, s') && OneProducer(s, s', j, P309) && s'.producers[j].task == task
    ensures s'.workers == s.workers && s'.lock == OwnP(j) && s'.sh.size == s.sh.size
  {
    hide Reachable;
    s' := Do(c, s, Produce(j, task, 0));
    s' := Do(c, s', Produce(j, task, 0));
    s' := Do(c, s', Produce(j, task, 0));
    s' := Do(c, s', Produce(j, task, 0));
  }

  /** ... fills the rear cell, lines 309 to 320. */
  lemma FillCell(c: Config, s: State, j: nat) returns (s': State)
    requires Reachable(c, s) && c.capacity >= 1 && j < |s.producers| && s.producers[j].pc == P309
    ensures Reachable(c, s') && OneProducer(s, s', j, P322) && s'.producers[j].task == s.producers[j].task
    ensures s'.workers == s.workers && s'.lock == s.lock && s'.sh.size == s.sh.size
  {
    hide Reachable;
    var task := Task(NULL, NULL);
    s' := Do(c, s, Produce(j, task, 0));
    s' := Do(c, s', Produce(j, task, 0));
    s' := Do(c, s', Produce(j, task, 0));
    s' := Do(c, s', Produce(j, task, 0));
  }

  /** ... and completes its add with a signal to a sleeper, lines 322 to 326. */
  lemma AddAndSignal(c: Config, s: State, j: nat, pick: nat) returns (s': State)
    requires Reachable(c, s) && c.capacity >= 1 && j < |s.producers| && s.producers[j].pc == P322
    requires PickOk(s.workers, pick)
    ensures Reachable(c, s') && OneProducer(s, s', j, PIdle)
    ensures s'.workers == Signal(s.workers, pick)
    ensures s'.lock == Nobody && s'.sh.size == s.sh.size + 1 && s'.enq == s.enq + [s.producers[j].task]
  {
    hide Reachable;
    var task := Task(NULL, NULL);
    s' := Do(c, s, Produce(j, task, pick));
    s' := Do(c, s', Produce(j, task, pick));
    s' := Do(c, s', Produce(j, task, pick));
  }

  /** A whole add, lines 292 to 326. */
  lemma AddTask(c: Config, s: State, j: nat, task: Task, pick: nat) returns (s': State)
    requires Reachable(c, s) && c.capacity >= 1 && j < |s.producers| && s.producers[j].pc == PIdle
    requires s.lock == Nobody && s.sh.size != c.capacity && !s.sh.shutdown && PickOk(s.workers, pick)
    ensures Reachable(c, s') && OneProducer(s, s', j, PIdle)
    ensures s'.workers == Signal(s.workers, pick)
    ensures s'.lock == Nobody && s'.sh.size == s.sh.size + 1
  {
    hide Reachable;
    s' := FindRoom(c, s, j, task);
    s' := FillCell(c, s', j);
    s' := AddAndSignal(c, s', j, pick);
  }

  // The manager.

  lemma Manages(c: Config, s: State) returns (s': State)
    requires Reachable(c, s) && c.capacity >= 1 && ManagerEnabled(s, 0)
    ensures Reachable(c, s') && s' == ManagerStep(c, s, 0)
  {
    s' := Do(c, s, Manage(0));
  }

  /** The manager looks at the pool, lines 170 to 181. */
  lemma Snapshot(c: Config, s: State) returns (s': State)
    requires Reachable(c, s) && c.capacity >= 1 && s.mgr.pc == M170
    requires s.lock == Nobody && s.counter == Nobody && !s.sh.shutdown
    ensures Reachable(c, s')
    ensures s' == s.(mgr := Manager(M184, s'.mgr.size, s'.mgr.live, s'.mgr.busy, s.mgr.i, s.mgr.added))
    ensures s'.mgr.size == s.sh.size && s'.mgr.live == s.sh.live && s'.mgr.busy == s.sh.busy
  {
    hide Reachable;
    s' := Manages(c, s);
    s' := Manages(c, s');
    s' := Manages(c, s');
    s' := Manages(c, s');
    s' := Manages(c, s');
    s' := Manages(c, s');
    s' := Manages(c, s');
    s' := Manages(c, s');
  }

  const NEWCOMER := Worker(WEnter, Task(NULL, NULL), 0)

  /** The loop of line 189 passes a slot in use. */
  lemma PassSlot(c: Config, s: State) returns (s': State)
    requires Reachable(c, s) && c.capacity >= 1 && s.mgr.pc == M189
    requires s.mgr.i < c.maxThr && s.mgr.added < c.vary && s.sh.live < c.maxThr
    requires s.mgr.i < |s.sh.threads| && s.sh.threads[s.mgr.i]
    ensures Reachable(c, s') && s' == s.(mgr := s.mgr.(i := s.mgr.i + 1))
  {
    hide Reachable;
    s' := Manages(c, s);
    s' := Manages(c, s');
  }

  /** ... comes to an empty one, lines 189 and 193 */
  lemma FindSlot(c: Config, s: State) returns (s': State)
    requires Reachable(c, s) && c.capacity >= 1 && s.mgr.pc == M189
    requires s.mgr.i < c.maxThr && s.mgr.added < c.vary && s.sh.live < c.maxThr
    requires s.mgr.i < |s.sh.threads| && !s.sh.threads[s.mgr.i]
    ensures Reachable(c, s') && s' == s.(mgr := s.mgr.(pc := M195))
  {
    hide Reachable;
    s' := Manages(c, s);
    s' := Manages(c, s');
  }

  /** ... and starts a worker there, lines 195 to 197. */
  lemma FillSlot(c: Config, s: State) returns (s': State)
    requires Reachable(c, s) && c.capacity >= 1 && s.mgr.pc == M195 && s.mgr.i < |s.sh.threads|
    ensures Reachable(c, s')
    ensures s' == s.(workers := s.workers + [NEWCOMER],
                     sh := s.sh.(live := s.sh.live + 1, threads := s.sh.threads[s.mgr.i := true]),
                     mgr := s.mgr.(pc := M189, i := s.mgr.i + 1, added := s.mgr.added + 1))
  {
    hide Reachable;
    s' := Manages(c, s);
    s' := Manages(c, s');
    s' := Manages(c, s');
  }

  /** The loop ends and gives the lock back, lines 189 and 200. */
  lemma EndGrowth(c: Config, s: State) returns (s': State)
    requires Reachable(c, s) && c.capacity >= 1 && s.mgr.pc == M189
    requires s.mgr.i >= c.maxThr || s.mgr.added >= c.vary || s.sh.live >= c.maxThr
    ensures Reachable(c, s') && s' == s.(lock := Nobody, mgr := s.mgr.(pc := M205))
  {
    hide Reachable;
    s' := Manages(c, s);
    s' := Manages(c, s');
  }

  ghost predicate NobodyAsleep(s: State) {
    forall i :: 0 <= i < |s.workers| ==> s.workers[i].pc != WSleep
  }

  /** The manager asks workers to leave, lines 208 to 210. */
  lemma AskToLeave(c: Config, s: State) returns (s': State)
    requires Reachable(c, s) && c.capacity >= 1 && s.lock == Nobody && s.mgr.pc == M208
    ensures Reachable(c, s')
    ensures s' == s.(sh := s.sh.(waitExit := c.vary), mgr := s.mgr.(pc := M212, i := 0))
  {
    hide Reachable;
    s' := Manages(c, s);
    s' := Manages(c, s');
    s' := Manages(c, s');
  }

  /** ... and signals, lines 212 to 216, to nobody when nobody is asleep. */
  lemma {:induction false} SignalNobody(c: Config, s: State) returns (s': State)
    requires Reachable(c, s) && c.capacity >= 1 && s.mgr.pc == M212 && NobodyAsleep(s)
    ensures Reachable(c, s') && s'.mgr.pc == M170 && s' == s.(mgr := s'.mgr)
    decreases c.vary - s.mgr.i
  {
    hide Reachable;
    s' := Manages(c, s);
    if s.mgr.i < c.vary {
      s' := SignalNobody(c, s');
    }
  }
}
