/** Shutdown: who raises it, what may still be done, and how each thread ends. */
module PoolShutdown {
  import opened Counting
  import opened PoolMachine
  import opened PoolLocks
  import opened PoolRing
  import opened PoolWakeups
  import opened PoolSize
  import opened PoolTheorems
  import opened PoolRuns

  ghost predicate DestroyInv(s: State) {
    && (s.sh.shutdown <==> s.dst != D348)
    && (s.mgr.pc == MDone ==> s.sh.shutdown)
    && (s.dst.D352? || s.dst == DDone ==> s.mgr.pc == MDone)
  }

  lemma DestroyManager(c: Config, s: State, pick: nat)
    requires DestroyInv(s) && ManagerEnabled(s, pick)
    ensures DestroyInv(ManagerStep(c, s, pick))
  {
  }

  lemma DestroyStepKeeps(c: Config, s: State, a: Action)
    requires DestroyInv(s) && LockInv(s) && CounterInv(s) && c.capacity >= 1 && Enabled(s, a)
    ensures DestroyInv(Step(c, s, a))
  {
    match a
    case Work(i) => WorkerLocal(c, s, i);
    case Produce(j, task, pick) => ProducerLocal(c, s, j, task, pick);
    case Manage(pick) => DestroyManager(c, s, pick);
    case _ =>
  }

  lemma {:induction false} RunDestroy(c: Config, run: seq<State>, acts: seq<Action>, k: nat)
    requires IsRun(c, run, acts) && k <= |acts|
    ensures DestroyInv(run[k])
  {
    RunShape(c, run, acts);
    hide IsRun, RingInv, TaskInv, WakeInv, RoomInv, QuitInv, SizeInv;
    if k > 0 {
      RunDestroy(c, run, acts, k - 1);
      RunInv(c, run, acts, k - 1);
      StepOf(c, run, acts, k - 1);
      DestroyStepKeeps(c, run[k - 1], acts[k - 1]);
    }
  }

  /** Shutdown is raised exactly from line 348 on; the manager ends only after that, and the broadcasts
      of line 355 come only after the manager has ended. */
  lemma ShutdownIsTheDestroyers(c: Config, s: State)
    requires Reachable(c, s)
    ensures s.sh.shutdown <==> s.dst != D348
    ensures s.mgr.pc == MDone ==> s.sh.shutdown
    ensures s.dst.D352? || s.dst == DDone ==> s.mgr.pc == MDone
  {
    hide DestroyInv;
    var run, acts :| IsRun(c, run, acts) && run[|acts|] == s;
    RunDestroy(c, run, acts, |acts|);
    assert DestroyInv(s);
    DestroyFacts(s);
  }

  lemma DestroyFacts(s: State)
    requires DestroyInv(s)
    ensures s.sh.shutdown <==> s.dst != D348
    ensures s.mgr.pc == MDone ==> s.sh.shutdown
    ensures s.dst.D352? || s.dst == DDone ==> s.mgr.pc == MDone
  {
  }

  /** The bound on late operations is attained: with a committed holder, raise shutdown next, and one
      operation still completes. */
  lemma LateOperationHappens(c: Config, run: seq<State>, acts: seq<Action>)
    returns (run': seq<State>, acts': seq<Action>)
    requires IsRun(c, run, acts) && run[|acts|].dst == D348 && Committed(Holder(run[|acts|]))
    ensures GoesOn(c, run, acts, run', acts') && |run'| > |run| && run'[|run|].sh.shutdown
    ensures Completed(run'[|acts'|]) == Completed(run[|acts|]) + 1 == Completed(run'[|run|]) + 1
  {
    RunShape(c, run, acts);
    var s := run[|acts|];
    var s' := DestroyStep(s);
    ExtendRun(c, run, acts, Destroy, s');
    assert Holder(s') == Holder(s);
    hide IsRun, Next, Committed, Completed, Holder;
    run', acts' := LateOperationCompletes(c, run + [s'], acts + [Destroy]);
    assert run'[|run|] == (run + [s'])[|run|];
  }

  // How each thread ends, left alone.

  lemma LeaveLoop(c: Config, s: State, i: nat) returns (s': State)
    requires Reachable(c, s) && c.capacity >= 1 && i < |s.workers| && s.workers[i].pc == WEnter
    requires s.lock == Nobody && s.sh.shutdown
    ensures Reachable(c, s')
    ensures s' == s.(lock := OwnW(i), workers := s.workers[i := s.workers[i].(pc := W116)])
  {
    hide Reachable;
    s' := Wait(c, s, i);
    s' := Wait(c, s', i);
    if s.sh.size == 0 {
      s' := Wait(c, s', i);
    }
  }

  /** A worker at the top of its loop leaves, whatever the queue holds, lines 95 to 121. */
  lemma WorkerQuits(c: Config, s: State, i: nat) returns (s': State)
    requires Reachable(c, s) && c.capacity >= 1 && i < |s.workers| && s.workers[i].pc == WEnter
    requires s.lock == Nobody && s.sh.shutdown
    ensures Reachable(c, s') && s' == s.(workers := s.workers[i := s.workers[i].(pc := WQuit)])
  {
    hide Reachable;
    s' := LeaveLoop(c, s, i);
    s' := Wait(c, s', i);
    s' := Wait(c, s', i);
  }

  lemma TurnAround(c: Config, s: State, j: nat, task: Task) returns (s': State)
    requires Reachable(c, s) && c.capacity >= 1 && j < |s.producers| && s.producers[j].pc == PIdle
    requires s.lock == Nobody && s.sh.shutdown
    ensures Reachable(c, s')
    ensures s' == s.(lock := OwnP(j), producers := s.producers[j := Producer(P300, task)])
  {
    hide Reachable;
    s' := Produces(c, s, j, task);
    s' := Produces(c, s', j, task);
    s' := Produces(c, s', j, task);
    if s.sh.size == c.capacity {
      s' := Produces(c, s', j, task);
    }
  }

  /** A producer adds nothing, whether or not there is room: it wakes every sleeping worker and returns,
      lines 292 to 304. */
  lemma ProducerReturns(c: Config, s: State, j: nat, task: Task) returns (s': State)
    requires Reachable(c, s) && c.capacity >= 1 && j < |s.producers| && s.producers[j].pc == PIdle
    requires s.lock == Nobody && s.sh.shutdown
    ensures Reachable(c, s')
    ensures s' == s.(workers := s'.workers, producers := s.producers[j := Producer(PIdle, task)])
    ensures WokenAll(s.workers, s'.workers)
  {
    hide Reachable;
    s' := TurnAround(c, s, j, task);
    s' := Produces(c, s', j, task);
    s' := Produces(c, s', j, task);
    s' := Produces(c, s', j, task);
  }

  /** Every sleeper is woken, and nobody else is touched. */
  ghost predicate WokenAll(ws: seq<Worker>, ws': seq<Worker>) {
    && |ws'| == |ws|
    && forall k :: 0 <= k < |ws| ==> ws'[k] == if ws[k].pc == WSleep then ws[k].(pc := WWoken) else ws[k]
  }

  /** A manager at the top of its loop ends. */
  lemma ManagerEnds(c: Config, s: State) returns (s': State)
    requires Reachable(c, s) && c.capacity >= 1 && s.mgr.pc == M170 && s.sh.shutdown
    ensures Reachable(c, s') && s' == s.(mgr := s.mgr.(pc := MDone))
  {
    s' := Do(c, s, Manage(0));
  }

  lemma {:induction false} Broadcasts(c: Config, s: State, told: nat) returns (s': State)
    requires Reachable(c, s) && c.capacity >= 1 && s.dst == D352(told)
    ensures Reachable(c, s') && s' == s.(dst := DDone, workers := s'.workers)
    ensures if told < s.sh.live then WokenAll(s.workers, s'.workers) else s'.workers == s.workers
    decreases s.sh.live - told
  {
    hide Reachable;
    s' := Do(c, s, Destroy);
    if told < s.sh.live {
      s' := Broadcasts(c, s', told + 1);
    }
  }

  /** The destroyer, once the manager has ended: it wakes every sleeping worker if live_thr_num is not 0,
      and nobody if it is, lines 351 to 356. */
  lemma DestroyerWakes(c: Config, s: State) returns (s': State)
    requires Reachable(c, s) && c.capacity >= 1 && s.dst == D351 && s.mgr.pc == MDone
    ensures Reachable(c, s') && s' == s.(dst := DDone, workers := s'.workers)
    ensures if s.sh.live > 0 then WokenAll(s.workers, s'.workers) else s'.workers == s.workers
  {
    hide Reachable;
    s' := Do(c, s, Destroy);
    s' := Broadcasts(c, s', 0);
  }
}
