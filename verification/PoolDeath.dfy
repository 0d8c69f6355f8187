/** The pools in which every worker can leave for good, exactly. */
module PoolDeath {
  import opened Counting
  import opened PoolMachine
  import opened PoolLocks
  import opened PoolRing
  import opened PoolWakeups
  import opened PoolSize
  import opened PoolTheorems
  import opened PoolPeak
  import opened PoolRuns
  import opened PoolLoss

  /** Workers can be told to leave, there can be one, and live_thr_num, which stands at `live0` less
      `minThr` once everybody has left, is not below its minimum then. */
  predicate CanDie(c: Config)
    requires c.minThr <= c.maxThr
  {
    c.vary >= 1 && c.live0 >= 2 * c.minThr && Crew(c) >= 1
  }

  ghost predicate AllGone(s: State) {
    s.workers != [] && forall i :: 0 <= i < |s.workers| ==> s.workers[i].pc == WExit
  }

  /** No run that passes through s ever dequeues a task from there on. */
  ghost predicate NeverServed(c: Config, s: State) {
    forall run: seq<State>, acts: seq<Action>, k: nat, m: nat :: IsRun(c, run, acts) && k <= m <= |acts| && run[k] == s ==>
      run[m].deq == s.deq
  }

  /** Tasks queued, no shutdown, and nobody to run them, now or ever. */
  ghost predicate Dead(c: Config, s: State) {
    s.lock == Nobody && !s.sh.shutdown && s.sh.size > 0 && AllGone(s) && NeverServed(c, s)
  }

  // Where everybody has left.

  lemma DeadStep(c: Config, s: State, a: Action, s': State)
    requires PeakInv(c, s) && Next(c, s, a, s') && AllGone(s) && |s'.workers| == |s.workers|
    ensures AllGone(s') && s'.deq == s.deq
  {
    hide RingInv, TaskInv, WakeInv, RoomInv, QuitInv, SizeInv, GrowthInv;
    match a
    case Produce(j, task, pick) => ProducerLocal(c, s, j, task, pick);
    case Manage(pick) => ManagerLocal(c, s, pick);
    case _ =>
  }

  lemma {:induction false} GoneForGood(c: Config, run: seq<State>, acts: seq<Action>, k: nat, m: nat)
    requires IsRun(c, run, acts) && k <= m <= |acts| && AllGone(run[k]) && BirthsOver(c, run[k])
    ensures AllGone(run[m]) && run[m].deq == run[k].deq
  {
    hide *;
    RunShape(c, run, acts);
    if k < m {
      GoneForGood(c, run, acts, k, m - 1);
      GrowthIsUsedUp(c, run, acts, k, m - 1);
      GrowthIsUsedUp(c, run, acts, k, m);
      RunPeak(c, run, acts, m - 1);
      StepOf(c, run, acts, m - 1);
      DeadStep(c, run[m - 1], acts[m - 1], run[m]);
    }
  }

  lemma DeadIfGone(c: Config, s: State)
    requires AllGone(s) && BirthsOver(c, s)
    ensures NeverServed(c, s)
  {
    hide AllGone, BirthsOver, Next;
    forall run: seq<State>, acts: seq<Action>, k: nat, m: nat | IsRun(c, run, acts) && k <= m <= |acts| && run[k] == s
      ensures run[m].deq == s.deq
    {
      GoneForGood(c, run, acts, k, m);
    }
  }

  /** Everybody has left only where CanDie holds: exits stop at the minimum. */
  lemma GoneOnlyIf(c: Config, s: State)
    requires ValidConfig(c) && Reachable(c, s) && s.lock == Nobody && AllGone(s)
    ensures CanDie(c)
  {
    hide Reachable, RingInv, TaskInv, WakeInv, RoomInv, QuitInv;
    ReachablePeak(c, s);
    CountBound(s.workers, Gone);
  }

  // How it comes to that.

  lemma ExitAlone(c: Config, s: State, i: nat) returns (s': State)
    requires Resting(c, s) && i < |s.workers| && s.workers[i].pc == WEnter && c.capacity >= 1
    requires s.sh.size == 0 && s.sh.waitExit > 0 && s.sh.live > c.minThr
    ensures Resting(c, s') && s'.workers == s.workers[i := s.workers[i].(pc := WExit)] && s'.sh.size == 1
  {
    hide Reachable;
    s' := FallAsleep(c, s, i);
    s' := AddTask(c, s', 0, Task(1, 1), i);
    assert s'.workers == s.workers[i := s.workers[i].(pc := WWoken)];
    s' := ShrinkExitSwallowsWakeup(c, s', i);
  }

  /** With an empty queue one worker falls asleep, is woken for a task, and leaves. */
  lemma LeaveOne(c: Config, s: State, i: nat) returns (s': State)
    requires Resting(c, s) && i < |s.workers| && s.workers[i].pc == WEnter
    requires s.sh.size == 0 && s.sh.waitExit > 0 && s.sh.live > c.minThr
    ensures Resting(c, s') && s'.sh.live == s.sh.live - 1 && |s'.workers| == |s.workers| && s'.sh.size == 1
  {
    hide Reachable, Resting;
    RestingFacts(c, s);
    s' := ExitAlone(c, s, i);
    CountUpdate(s.workers, i, s'.workers[i], Gone);
    RestingFacts(c, s');
  }

  /** A round of the manager, and the loss of one worker. */
  lemma Shrink(c: Config, s: State) returns (s': State)
    requires Resting(c, s) && c.vary >= 1 && s.sh.live > c.minThr && Here(c, s.sh) >= 1
    ensures Resting(c, s') && s'.sh.size == 1 && |s'.workers| >= |s.workers|
    ensures s'.sh.live - |s'.workers| == s.sh.live - |s.workers| - 1
  {
    hide Reachable, Resting;
    s' := Round(c, s);
    RestingFacts(c, s');
    var i := FindWorker(c, s');
    s' := Drain(c, s', i);
    s' := LeaveOne(c, s', i);
  }

  /** Another slot of `threads` is used. */
  lemma FillAnotherSlot(c: Config, s: State) returns (s': State)
    requires Resting(c, s) && ValidConfig(c) && CanDie(c) && Grows(c) && |s.workers| < c.maxThr
    ensures Resting(c, s') && |s'.workers| > |s.workers|
  {
    hide Reachable, Resting;
    RestingFacts(c, s);
    s' := s;
    if s.sh.live == c.maxThr {
      s' := Shrink(c, s);
      RestingFacts(c, s');
    }
    if |s'.workers| == |s.workers| {
      if s'.sh.size < c.minWait {
        s' := Backlog(c, s', c.minWait - s'.sh.size);
      }
      s' := Round(c, s');
    }
  }

  lemma {:induction false} FillSlots(c: Config, s: State) returns (s': State)
    requires Resting(c, s) && ValidConfig(c) && CanDie(c)
    ensures Resting(c, s') && BirthsOver(c, s')
    decreases c.maxThr - |s.workers|
  {
    hide Reachable, Resting, CanDie;
    RestingFacts(c, s);
    s' := s;
    if !BirthsOver(c, s) {
      s' := FillAnotherSlot(c, s);
      RestingFacts(c, s');
      s' := FillSlots(c, s');
    }
  }

  /** With no births to come, workers leave one after another. */
  lemma {:induction false} LeaveAll(c: Config, s: State) returns (s': State)
    requires Resting(c, s) && ValidConfig(c) && CanDie(c) && BirthsOver(c, s)
    ensures Resting(c, s') && BirthsOver(c, s') && Here(c, s'.sh) == 0
    decreases Here(c, s.sh)
  {
    hide Reachable, Resting;
    RestingFacts(c, s);
    CountBound(s.workers, Gone);
    s' := s;
    if Here(c, s.sh) > 0 {
      s' := Shrink(c, s);
      RestingFacts(c, s');
      s' := LeaveAll(c, s');
    }
  }

  lemma EverybodyLeaves(c: Config) returns (s: State)
    requires ValidConfig(c) && CanDie(c)
    ensures Resting(c, s) && BirthsOver(c, s) && s.sh.size > 0 && AllGone(s)
  {
    hide Reachable;
    s := Start(c);
    s := FillSlots(c, s);
    s := LeaveAll(c, s);
    RestingFacts(c, s);
    if s.sh.size == 0 {
      s := Backlog(c, s, 1);
      RestingFacts(c, s);
    }
    CountBound(s.workers, Gone);
  }

  /** A pool can die, with tasks queued, no shutdown, every worker gone and no dequeue ever to come, if
      and only if `vary` and the crew are at least 1 and `live0` is at least twice `minThr`.  With line
      238 as it is that means a minimum of 0. */
  lemma PoolDiesExactly(c: Config)
    requires ValidConfig(c)
    ensures CanDie(c) <==> exists s :: Reachable(c, s) && Dead(c, s)
    ensures CanDie(c) <==> exists s :: Reachable(c, s) && s.lock == Nobody && AllGone(s)
    ensures c.live0 == 0 ==> (CanDie(c) <==> c.vary >= 1 && c.minThr == 0 && c.maxThr >= 1 && c.minWait <= c.capacity)
  {
    if CanDie(c) {
      var s := EverybodyLeaves(c);
      DeadIfGone(c, s);
    }
    hide Reachable, AllGone, NeverServed, CanDie;
    forall s | Reachable(c, s) && s.lock == Nobody && AllGone(s)
      ensures CanDie(c)
    {
      GoneOnlyIf(c, s);
    }
    if c.live0 == 0 {
      CanDieAsWritten(c);
    }
  }

  lemma CanDieAsWritten(c: Config)
    requires ValidConfig(c) && c.live0 == 0
    ensures CanDie(c) <==> c.vary >= 1 && c.minThr == 0 && c.maxThr >= 1 && c.minWait <= c.capacity
  {
  }
}
